/** Which commands a saga sends, how often and in which order, over every run; and that it can always end. */
module SagaSends {
  import opened Prelude
  import opened SagaModel
  import opened SagaRuns

  // ---------------------------------------------------------------- timers, retries, order

  /** A command in flight has a deadline or waits for its retry, never both; a terminal saga waits for nothing. */
  predicate TimersOk(s: Instance) {
    if KindOf(s.status).TERMINAL? then s.deadlineAt.None? && s.nextRetryAt.None?
    else s.deadlineAt.Some? <==> s.nextRetryAt.None?
  }

  /** Sends of an action at most: the first and the retries. */
  function MostSends(settings: Settings): int {
    Max(1, settings.stepMaxRetries + 1)
  }

  predicate IsAction(body: Body) {
    body.Reserve? || body.Authorize? || body.Create?
  }

  /** Commands go out in the order of their ranks, and those of one rank are one command sent again. */
  predicate InOrder(sent: seq<Command>) {
    forall i, j :: 0 <= i < j < |sent| ==>
      Rank(sent[i].body) < Rank(sent[j].body) || sent[i] == sent[j]
  }

  predicate InFlight(s: Instance, sent: seq<Command>) {
    && sent != [] && sent[|sent| - 1] == BuildCommandOf(s)
    && multiset(sent)[BuildCommandOf(s)] == s.attempt
  }

  function BuildCommandOf(s: Instance): Command {
    if KindOf(s.status).TERMINAL? then Command(0, 0, Authorize(None)) else BuildCommand(s)
  }

  /** Every command that has gone out, against the state it has led to. */
  predicate SentOk(x: Setup, sent: seq<Command>, status: Status) {
    && InOrder(sent)
    && (forall c <- sent :: IsAction(c.body) ==> multiset(sent)[c] <= MostSends(x.settings))
    && (forall c <- sent :: c.body.Reserve? ==> c.body == Reserve(x.order.lines, x.order.simulateInventory))
    && (forall c <- sent :: Rank(c.body) <= StatusRank(status))
  }

  predicate RetriesOk(x: Setup, s: Instance) {
    KindOf(s.status).ACTION? ==>
      && s.attempt <= MostSends(x.settings)
      && (s.nextRetryAt.Some? ==> s.attempt <= x.settings.stepMaxRetries)
  }

  predicate SendsOk(x: Setup, w: World) {
    match w.saga
    case None => w.sent == []
    case Some(s) =>
      && s.order == x.order && TimersOk(s) && RetriesOk(x, s) && SentOk(x, w.sent, s.status)
      && (!KindOf(s.status).TERMINAL? ==> InFlight(s, w.sent))
  }

  lemma OneMore(sent: seq<Command>, c: Command)
    ensures multiset(sent + [c]) == multiset(sent)[c := multiset(sent)[c] + 1]
    ensures forall d :: d in sent + [c] <==> d in sent || d == c
  {
  }

  lemma InOrderSnoc(sent: seq<Command>, c: Command)
    requires InOrder(sent)
    requires forall i :: 0 <= i < |sent| ==> Rank(sent[i].body) < Rank(c.body) || sent[i] == c
    ensures InOrder(sent + [c])
  {
    hide Rank;
    forall i, j | 0 <= i < j < |sent + [c]|
      ensures Rank((sent + [c])[i].body) < Rank((sent + [c])[j].body) || (sent + [c])[i] == (sent + [c])[j]
    {
      assert (sent + [c])[i] == sent[i];
    }
  }

  /** A command sent for the first time, after those of lower rank. */
  lemma FirstSend(x: Setup, sent: seq<Command>, c: Command, before: Status, after: Status)
    requires SentOk(x, sent, before) && StatusRank(before) < StatusRank(after) && c !in sent
    requires Rank(c.body) == StatusRank(after)
    requires c.body.Reserve? ==> c.body == Reserve(x.order.lines, x.order.simulateInventory)
    ensures SentOk(x, sent + [c], after) && multiset(sent + [c])[c] == 1
  {
    hide Rank, StatusRank;
    OneMore(sent, c);
    forall i | 0 <= i < |sent| ensures Rank(sent[i].body) < Rank(c.body) {
      assert sent[i] in sent;
    }
    InOrderSnoc(sent, c);
    hide InOrder;
  }

  /** The last command sent again. */
  lemma SendAgain(x: Setup, sent: seq<Command>, c: Command, status: Status)
    requires SentOk(x, sent, status) && sent != [] && sent[|sent| - 1] == c
    requires IsAction(c.body) ==> multiset(sent)[c] < MostSends(x.settings)
    ensures SentOk(x, sent + [c], status) && multiset(sent + [c])[c] == multiset(sent)[c] + 1
  {
    hide Rank, StatusRank;
    OneMore(sent, c);
    forall i | 0 <= i < |sent| ensures Rank(sent[i].body) < Rank(c.body) || sent[i] == c {
      assert i == |sent| - 1 || Rank(sent[i].body) < Rank(sent[|sent| - 1].body) || sent[i] == sent[|sent| - 1];
    }
    InOrderSnoc(sent, c);
    hide InOrder;
  }

  /** A new state sends its own command for the first time. */
  lemma EnterSends(x: Setup, w: World, t: Transition, id: Uuid)
    requires SendsOk(x, w) && w.saga.Some? && t.saga.order == x.order && !KindOf(t.saga.status).TERMINAL?
    requires IsNew(w, id) && t.saga.lastCommandId == id && t.saga.attempt == 1
    requires t.saga.deadlineAt.Some? && t.saga.nextRetryAt.None? && t.commands == [BuildCommand(t.saga)]
    requires StatusRank(w.saga.value.status) < StatusRank(t.saga.status)
    ensures SendsOk(x, Applied(w, t))
  {
    hide SentOk, InFlight, TimersOk, RetriesOk;
    var c := BuildCommand(t.saga);
    BuiltFor(x, t.saga);
    hide StatusRank, Rank, BuildCommand;
    assert c !in w.sent;
    FirstSend(x, w.sent, c, w.saga.value.status, t.saga.status);
    EnterOk(x, t.saga, w.sent + [c]);
    assert w.sent + t.commands == w.sent + [c];
  }

  lemma BuiltFor(x: Setup, s: Instance)
    requires !KindOf(s.status).TERMINAL? && s.order == x.order
    ensures var c := BuildCommand(s);
            && Rank(c.body) == StatusRank(s.status) && c.messageId == s.lastCommandId && BuildCommandOf(s) == c
            && (c.body.Reserve? ==> c.body == Reserve(x.order.lines, x.order.simulateInventory))
  {
  }

  lemma EnterOk(x: Setup, s: Instance, sent: seq<Command>)
    requires !KindOf(s.status).TERMINAL? && s.attempt == 1 && s.deadlineAt.Some? && s.nextRetryAt.None?
    requires sent != [] && sent[|sent| - 1] == BuildCommandOf(s) && multiset(sent)[BuildCommandOf(s)] == 1
    ensures TimersOk(s) && RetriesOk(x, s) && InFlight(s, sent)
  {
  }

  lemma BeginSends(x: Setup, w: World, messageId: Uuid, id: Uuid, now: int)
    requires SendsOk(x, w) && w.saga.None?
    ensures SendsOk(x, Applied(w, Start(x.order, messageId, id, now, x.settings)))
  {
    var t := Start(x.order, messageId, id, now, x.settings);
    assert w.sent + t.commands == [] + [t.commands[0]];
    OneMore([], t.commands[0]);
  }

  lemma FinishSends(x: Setup, w: World, terminal: Status)
    requires SendsOk(x, w) && w.saga.Some? && KindOf(terminal).TERMINAL?
    requires StatusRank(w.saga.value.status) <= StatusRank(terminal)
    ensures SendsOk(x, Applied(w, Finish(w.saga.value, terminal)))
  {
    assert w.sent + [] == w.sent;
  }

  /** The command in flight is sent again, as it was. */
  lemma RetrySends(x: Setup, w: World, t: Transition)
    requires SendsOk(x, w) && w.saga.Some? && !KindOf(w.saga.value.status).TERMINAL?
    requires w.saga.value.nextRetryAt.Some?
    requires var s := w.saga.value;
             && t.saga == s.(attempt := s.attempt + 1, nextRetryAt := None, deadlineAt := t.saga.deadlineAt)
             && t.saga.deadlineAt.Some? && t.commands == [BuildCommand(t.saga)]
    ensures SendsOk(x, Applied(w, t))
  {
    var c := t.commands[0];
    assert c == BuildCommand(w.saga.value);
    SendAgain(x, w.sent, c, w.saga.value.status);
    hide SentOk;
  }

  lemma WaitSends(x: Setup, w: World, t: Transition)
    requires SendsOk(x, w) && w.saga.Some? && t.commands == [] && TimersOk(t.saga) && RetriesOk(x, t.saga)
    requires t.saga == w.saga.value.(deadlineAt := t.saga.deadlineAt, nextRetryAt := t.saga.nextRetryAt)
    ensures SendsOk(x, Applied(w, t))
  {
    hide SentOk;
    assert w.sent + [] == w.sent;
    assert BuildCommandOf(t.saga) == BuildCommandOf(w.saga.value);
  }

  lemma TickSends(x: Setup, w: World, id: Uuid, now: int)
    requires SendsOk(x, w) && w.saga.Some? && IsNew(w, id)
    ensures SendsOk(x, Applied(w, OnTick(w.saga.value, id, now, x.settings)))
  {
    hide SentOk, InFlight, IsNew, Backoff;
    var s := w.saga.value;
    var t := OnTick(s, id, now, x.settings);
    if t.saga.status != s.status {
      EnterSends(x, w, t, id);
    } else if t.commands != [] {
      RetrySends(x, w, t);
    } else {
      WaitSends(x, w, t);
    }
  }

  lemma HearSends(x: Setup, w: World, e: Envelope, id: Uuid, now: int)
    requires SendsOk(x, w) && w.saga.Some? && IsNew(w, id)
    ensures SendsOk(x, Applied(w, OnReply(w.saga.value, e, id, now, x.settings)))
  {
    hide SentOk, InFlight, IsNew;
    var s := w.saga.value;
    var t := OnReply(s, e, id, now, x.settings);
    if !Accepts(s, e) {
      WaitSends(x, w, t);
    } else if e.reply.OrderConfirmed? || e.reply.OrderCanceled? {
      FinishSends(x, w, t.saga.status);
    } else {
      EnterSends(x, w, t, id);
    }
  }

  lemma NextKeepsSends(x: Setup, w: World, a: Action)
    requires SendsOk(x, w)
    ensures SendsOk(x, Next(x, w, a))
  {
    if Enabled(x, w, a) {
      hide SentOk, InFlight, IsNew, OnTick, OnReply, Delivered;
      match a
      case Begin(messageId, id, now) => BeginSends(x, w, messageId, id, now);
      case Hear(e, id, now) => HearSends(x, w, e, id, now);
      case Tick(id, now) => TickSends(x, w, id, now);
      case Resume(now) => WaitSends(x, w, Resumed(w.saga.value, now, x.settings));
      case Deliver(c, id, seen, tracking) => DeliveriesKeepSaga(x, w, c, id, seen, tracking);
      case Elsewhere(_) =>
    }
  }

  lemma {:induction false} ExecKeepsSends(x: Setup, w: World, actions: seq<Action>)
    requires Initial(x, w)
    ensures SendsOk(x, Exec(x, w, actions))
    decreases |actions|
  {
    hide Next, SentOk, InFlight;
    if actions != [] {
      ExecKeepsSends(x, w, actions[..|actions| - 1]);
      NextKeepsSends(x, Exec(x, w, actions[..|actions| - 1]), actions[|actions| - 1]);
    }
  }

  // ---------------------------------------------------------------- what a run sends

  /**
   * In every run: commands go out in the order of a checkout, forward actions first and then compensations in reverse;
   * two commands of one kind are the same command, with one id, sent again; an action goes out at most once and for
   * each retry; and a command in flight has either a deadline or a retry to come.
   */
  lemma CommandsGoInOrder(x: Setup, w: World, actions: seq<Action>)
    requires Initial(x, w)
    ensures var after := Exec(x, w, actions);
            && (forall i, j :: 0 <= i < j < |after.sent| ==>
                 Rank(after.sent[i].body) <= Rank(after.sent[j].body)
                 && (Rank(after.sent[i].body) == Rank(after.sent[j].body) ==> after.sent[i] == after.sent[j]))
            && (forall c <- after.sent :: IsAction(c.body) ==> multiset(after.sent)[c] <= MostSends(x.settings))
            && (after.saga.Some? ==> TimersOk(after.saga.value))
            && (after.saga.Some? && !KindOf(after.saga.value.status).TERMINAL? ==>
                 multiset(after.sent)[BuildCommand(after.saga.value)] == after.saga.value.attempt)
  {
    hide Exec, Initial;
    ExecKeepsSends(x, w, actions);
  }

  lemma {:induction false} ExecSplits(x: Setup, w: World, a: seq<Action>, b: seq<Action>)
    ensures Exec(x, w, a + b) == Exec(x, Exec(x, w, a), b)
    decreases |b|
  {
    hide Next;
    if b == [] {
      assert a + b == a;
    } else {
      assert (a + b)[..|a + b| - 1] == a + b[..|b| - 1];
      ExecSplits(x, w, a, b[..|b| - 1]);
    }
  }

  /** The outbox only grows. */
  lemma {:induction false} SentStays(x: Setup, w: World, actions: seq<Action>)
    ensures w.sent <= Exec(x, w, actions).sent
    decreases |actions|
  {
    if actions != [] {
      SentStays(x, w, actions[..|actions| - 1]);
      NextGrows(x, Exec(x, w, actions[..|actions| - 1]), actions[|actions| - 1]);
    }
  }

  lemma NextGrows(x: Setup, w: World, a: Action)
    ensures w.sent <= Next(x, w, a).sent
  {
    hide Start, OnTick, OnReply, Resumed;
    if a.Deliver? {
      DeliveriesKeepSaga(x, w, a.command, a.id, a.seen, a.tracking);
      hide Delivered;
    }
  }

  /** No way back: once the order is to be confirmed, no compensation and no cancelation is ever sent. */
  lemma ConfirmingIsFinal(x: Setup, w: World, actions: seq<Action>, more: seq<Action>)
    requires Initial(x, w)
    requires var s := Exec(x, w, actions).saga; s.Some? && s.value.status.CONFIRMING_ORDER?
    ensures var after := Exec(x, w, actions + more);
            && after.saga.Some? && (after.saga.value.status.CONFIRMING_ORDER? || after.saga.value.status.COMPLETED?)
            && forall c <- after.sent :: IsAction(c.body) || c.body.Confirm?
  {
    hide Exec, Initial, Inv, SendsOk, MayHaveSent;
    var before := Exec(x, w, actions);
    ExecKeepsSends(x, w, actions);
    var c := LastSent(x, before);
    ExecSplits(x, w, actions, more);
    SentStays(x, before, more);
    ExecKeepsInv(x, w, actions + more);
    AfterConfirm(x, Exec(x, w, actions + more), c);
  }

  lemma LastSent(x: Setup, w: World) returns (c: Command)
    requires SendsOk(x, w) && w.saga.Some? && !KindOf(w.saga.value.status).TERMINAL?
    ensures c in w.sent && c == BuildCommand(w.saga.value)
  {
    hide SentOk, TimersOk, RetriesOk;
    c := w.sent[|w.sent| - 1];
  }

  lemma AfterConfirm(x: Setup, w: World, c: Command)
    requires Inv(x, w) && c in w.sent && c.body.Confirm?
    ensures w.saga.Some? && (w.saga.value.status.CONFIRMING_ORDER? || w.saga.value.status.COMPLETED?)
    ensures forall d <- w.sent :: IsAction(d.body) || d.body.Confirm?
  {
    hide Known, Caused, IsTrue;
    assert MayHaveSent(w.saga.value.status, c.body);
  }

  /** The causation check alone makes a repeated reply harmless: what was accepted is never accepted again. */
  lemma AcceptedOnce(x: Setup, w: World, e: Envelope, again: Envelope, id: Uuid, now: int)
    requires SendsOk(x, w) && w.saga.Some? && Accepts(w.saga.value, e) && IsNew(w, id)
    requires again.causationId == e.causationId
    ensures var t := OnReply(w.saga.value, e, id, now, x.settings); t.accepted && !Accepts(t.saga, again)
  {
    hide SentOk, TimersOk, RetriesOk;
    assert w.sent[|w.sent| - 1] in w.sent;
  }
}
