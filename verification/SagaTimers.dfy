/** Deadlines and retries of a saga: how long a command is waited for, and when it is sent again. */
module SagaTimers {
  import opened Prelude
  import opened SagaModel
  import opened SagaSends

  function Min(a: int, b: int): int {
    if a < b then a else b
  }

  function Twice(n: nat): int {
    if n == 0 then 1 else 2 * Twice(n - 1)
  }

  lemma {:induction false} DoubledIsTwice(value: int, n: nat)
    ensures Doubled(value, n) == value * Twice(n)
  {
    if n > 0 {
      DoubledIsTwice(value, n - 1);
    }
  }

  /** The wait doubles with each attempt, up to the twenty-first, and never exceeds the limit. */
  lemma BackoffMeaning(settings: Settings, attempt: nat, max: int)
    requires attempt >= 1
    ensures Backoff(settings, attempt, max) ==
            Min(max, settings.retryBackoffMs * Twice(if attempt <= 21 then attempt - 1 else 20))
  {
    DoubledIsTwice(settings.retryBackoffMs, if attempt <= 21 then attempt - 1 else 20);
  }

  function Wait(settings: Settings, s: Instance): int
    requires s.attempt >= 1
  {
    var wait := settings.retryBackoffMs * Twice(if s.attempt <= 21 then s.attempt - 1 else 20);
    if KindOf(s.status).ACTION? then Min(0x7fff_ffff_ffff_ffff, wait) else Min(settings.compensationBackoffMaxMs, wait)
  }

  /**
   * A command that is not answered: nothing happens before its deadline; then the saga waits, and only when the wait is
   * over sends the same command again with a new deadline. An action that has been sent again as often as allowed is
   * given up at its deadline instead; a compensation never is.
   */
  lemma RetrySchedule(s: Instance, settings: Settings, id: Uuid, early: int, soon: int)
    requires !KindOf(s.status).TERMINAL? && TimersOk(s) && s.deadlineAt.Some? && s.attempt >= 1
    requires early < s.deadlineAt.value
    ensures OnTick(s, id, early, settings) == Transition(s, [], false, false)
    ensures var late := OnTick(s, id, s.deadlineAt.value, settings);
            if KindOf(s.status).ACTION? && s.attempt > settings.stepMaxRetries then
              && late.saga.failureReason == Some("STEP_TIMEOUT") && late.saga.failedStep == Some(StepOf(s.status))
              && late.commands == [BuildCommand(late.saga)] && late.saga.lastCommandId == id
              && KindOf(late.saga.status).COMPENSATION? && StepOf(late.saga.status) == StepOf(s.status)
            else
              var again := s.deadlineAt.value + Wait(settings, s);
              && late.commands == [] && late.saga == s.(deadlineAt := None, nextRetryAt := Some(again))
              && (soon < again ==> OnTick(late.saga, id, soon, settings).commands == [])
              && OnTick(late.saga, id, again, settings) ==
                 Transition(s.(attempt := s.attempt + 1, deadlineAt := Some(again + settings.stepTimeoutMs)),
                            [BuildCommand(s)], true, false)
  {
    BackoffMeaning(settings, s.attempt, 0x7fff_ffff_ffff_ffff);
    BackoffMeaning(settings, s.attempt, settings.compensationBackoffMaxMs);
    hide Backoff, Twice;
  }

  /** A restart may push the deadline back to a whole timeout from now, and does nothing else. */
  lemma RestartRearms(s: Instance, now: int, settings: Settings)
    ensures var t := Resumed(s, now, settings);
            && t.commands == [] && t.saga == s.(deadlineAt := t.saga.deadlineAt)
            && (t.saga.deadlineAt.Some? <==> s.deadlineAt.Some?)
            && (s.deadlineAt.Some? && !KindOf(s.status).TERMINAL? ==>
                 t.saga.deadlineAt == Some(Max(s.deadlineAt.value, now + settings.stepTimeoutMs)))
            && (KindOf(s.status).TERMINAL? ==> t.saga == s)
            && (t.stateChanged <==> t.saga != s)
  {
  }
}
