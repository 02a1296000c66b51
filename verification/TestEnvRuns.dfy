/** `testenv.py`: what `publish`, `do_release`, `do_reset` and `reconcile` append to the log, and where that leads. */
module TestEnvRuns {
  import opened Prelude
  import opened TestEnv

  datatype Answer = UNREACHABLE | OPEN(head: string) | NOT_OPEN

  /** What the outside answers during one operation: GitHub, the worktree's owner, deployment, and the reset's steps. */
  datatype Outside = Outside(pr: Answer, publisherWorktree: bool, deployed: bool, configOk: bool, downOk: bool)

  predicate Pending(env: Env, d: string) {
    Queued(env.queue, d) || env.republish == Some(d)
  }

  /** Whether `publish` gets as far as starting the deployment. */
  predicate Starts(rows: seq<Row>, d: string, requireRequest: bool, o: Outside) {
    var env := Derive(rows);
    && (requireRequest ==> Pending(env, d))
    && (env.demand.None? || env.demand == Some(d) || env.state == LIVRE)
    && OpenReview(rows, d).Some? && o.pr.OPEN? && !o.publisherWorktree
  }

  /** `publish`: the log it leaves. */
  function Publish(rows: seq<Row>, d: string, requireRequest: bool, commit: Option<string>, o: Outside): seq<Row> {
    var env := Derive(rows);
    if requireRequest && !Pending(env, d) then rows + [Failed(Some(d))]
    else if env.demand.Some? && env.demand != Some(d) && env.state != LIVRE then rows
    else if OpenReview(rows, d).Some? && o.pr == UNREACHABLE then rows + [Failed(Some(d))]
    else if OpenReview(rows, d).None? || o.pr == NOT_OPEN then
      if Pending(env, d) && env.demand != Some(d) then rows + [Released(Some(d))] else rows + [Failed(Some(d))]
    else if o.publisherWorktree then rows + [Failed(Some(d))]
    else
      var sha := Some(commit.GetOr(if o.pr.OPEN? then o.pr.head else ""));
      (rows + [Publishing(Some(d), sha)]) + [if o.deployed then Published(Some(d), sha) else Failed(Some(d))]
  }

  /** `do_release`. */
  function Release(rows: seq<Row>, d: string): seq<Row> {
    var env := Derive(rows);
    if env.demand == Some(d) || Queued(env.queue, d) then rows + [Released(Some(d))] else rows
  }

  /** `do_reset`. */
  function ResetData(rows: seq<Row>, o: Outside): seq<Row> {
    var env := Derive(rows);
    if env.reset.None? then rows
    else if !o.configOk then
      rows + [Failed(if env.demand.Some? then env.demand else env.reset.value)]
    else if !o.downOk then rows + [Failed(env.demand)]
    else if env.demand.Some? && env.commit.Some? then
      Publish(rows + [DataReset(env.demand)], env.demand.value, false, env.commit, o)
    else rows + [DataReset(env.demand)]
  }

  /** The obsolete entries of a queue leave it one by one. */
  function ReleaseObsolete(rows: seq<Row>, queue: seq<Waiting>): seq<Row> {
    if queue == [] then rows
    else
      var more, last := ReleaseObsolete(rows, queue[..|queue| - 1]), queue[|queue| - 1];
      if Live(rows, last.demand) then more else more + [Released(Some(last.demand))]
  }

  /** One round of `reconcile`. */
  datatype Turn = Turn(rows: seq<Row>, acted: bool, again: bool)

  predicate OccupantClosed(rows: seq<Row>, env: Env) {
    env.demand.Some? && IsClosed(rows, env.demand.value)
  }

  predicate HasObsolete(rows: seq<Row>, queue: seq<Waiting>) {
    exists q <- queue :: !Live(rows, q.demand)
  }

  function Round(rows: seq<Row>, o: Outside): Turn {
    var env := Derive(rows);
    if env.state == PUBLICANDO then Turn(rows + [Failed(env.demand)], true, true)
    else if OccupantClosed(rows, env) then Turn(Release(rows, env.demand.value), true, true)
    else if HasObsolete(rows, env.queue) then Turn(ReleaseObsolete(rows, env.queue), true, true)
    else if env.reset.Some? then Turn(ResetData(rows, o), true, true)
    else if env.republish.Some? then
      Turn(if env.demand.Some? then Publish(rows, env.demand.value, true, None, o) else rows, true, false)
    else if env.state == LIVRE && env.queue != [] then
      var head := env.queue[0].demand;
      var after := Publish(rows, head, true, None, o);
      var ok := Starts(rows, head, true, o) && o.deployed;
      Turn(after, true, !ok && Derive(after).state == LIVRE && !Queued(Derive(after).queue, head))
    else Turn(rows, false, false)
  }

  const ROUNDS := 12

  /** `reconcile` from round `i` on, with `n` rounds left; `settled` when it ended before the limit. */
  datatype Ending = Ending(rows: seq<Row>, acted: bool, settled: bool)

  function Rounds(rows: seq<Row>, outside: nat -> Outside, i: nat, n: nat): Ending
    decreases n
  {
    if n == 0 then Ending(rows, false, false)
    else
      var turn := Round(rows, outside(i));
      if !turn.again then Ending(turn.rows, turn.acted, true)
      else
        var rest := Rounds(turn.rows, outside, i + 1, n - 1);
        Ending(rest.rows, true, rest.settled)
  }

  // ---------------------------------------------------------------- effects on the state

  /** The interrupted publication becomes a failure. */
  lemma Interrupted(rows: seq<Row>)
    requires Derive(rows).state == PUBLICANDO
    ensures Derive(rows + [Failed(Derive(rows).demand)]) == Derive(rows).(state := FALHOU)
  {
    hide Derive;
    DeriveSnoc(rows, Failed(Derive(rows).demand));
  }

  lemma NotFailed(rows: seq<Row>, d: Option<string>)
    requires Derive(rows).state != PUBLICANDO
    ensures Derive(rows + [Failed(d)]) == Derive(rows)
  {
    hide Derive;
    DeriveSnoc(rows, Failed(d));
  }

  /** The occupant leaves; nobody else moves. */
  lemma OccupantReleased(rows: seq<Row>)
    requires Named(rows) && Derive(rows).demand.Some?
    ensures var env := Derive(rows);
            Derive(Release(rows, env.demand.value)) ==
            env.(state := LIVRE, demand := None, commit := None, stopped := false, republish := None)
  {
    hide Derive, Drop, InOrder, Requested;
    var env := Derive(rows);
    DeriveIsCoherent(rows);
    DeriveSnoc(rows, Released(env.demand));
    DropNothing(env.queue, env.demand);
  }

  lemma WaitingReleased(rows: seq<Row>, d: string)
    requires Derive(rows).demand != Some(d)
    ensures Derive(rows + [Released(Some(d))]) == Derive(rows).(queue := Drop(Derive(rows).queue, Some(d)))
  {
    hide Derive, Drop;
    DeriveSnoc(rows, Released(Some(d)));
  }

  /** A started publication takes the environment and leaves the queue. */
  lemma Started(rows: seq<Row>, d: string, requireRequest: bool, commit: Option<string>, o: Outside)
    requires Starts(rows, d, requireRequest, o)
    ensures var env, after := Derive(rows), Derive(Publish(rows, d, requireRequest, commit, o));
            && after.demand == Some(d) && after.state == (if o.deployed then OCUPADO else FALHOU)
            && after.queue == Drop(env.queue, Some(d)) && after.republish.None? && after.reset == env.reset
            && after.commit == Some(if commit.Some? then commit.value else o.pr.head) && !after.stopped
  {
    hide Derive, Drop, OpenReview, Pending;
    var sha := Some(commit.GetOr(o.pr.head));
    var middle := rows + [Publishing(Some(d), sha)];
    DeriveSnoc(rows, Publishing(Some(d), sha));
    DeriveSnoc(middle, if o.deployed then Published(Some(d), sha) else Failed(Some(d)));
  }

  /** Dropping the obsolete entries keeps the live ones in order. */
  lemma {:induction false} ObsoleteReleased(rows: seq<Row>, k: nat)
    requires Named(rows) && k <= |Derive(rows).queue|
    ensures var env := Derive(rows);
            Derive(ReleaseObsolete(rows, env.queue[..k])) ==
            env.(queue := LiveQueue(rows, env.queue[..k]) + env.queue[k..])
  {
    hide Derive, Live, Drop, InOrder, Requested;
    var queue := Derive(rows).queue;
    if k == 0 {
      assert queue[..0] == [] && LiveQueue(rows, []) + queue[0..] == queue;
    } else {
      ObsoleteReleased(rows, k - 1);
      assert queue[..k][..k - 1] == queue[..k - 1];
      var last, live := queue[k - 1], LiveQueue(rows, queue[..k - 1]);
      DeriveIsCoherent(rows);
      assert last in queue;
      assert queue[k - 1..] == [last] + queue[k..];
      if Live(rows, last.demand) {
        assert live + queue[k - 1..] == (live + [last]) + queue[k..];
      } else {
        WaitingReleased(ReleaseObsolete(rows, queue[..k - 1]), last.demand);
        DropFrom(rows, queue, k);
      }
    }
  }

  lemma {:induction false} LiveQueueMembers(rows: seq<Row>, queue: seq<Waiting>, q: Waiting)
    ensures q in LiveQueue(rows, queue) <==> q in queue && Live(rows, q.demand)
  {
    hide Live;
    if queue != [] {
      LiveQueueMembers(rows, queue[..|queue| - 1], q);
      assert queue == queue[..|queue| - 1] + [queue[|queue| - 1]];
    }
  }

  lemma {:induction false} DropConcat(a: seq<Waiting>, b: seq<Waiting>, d: Option<string>)
    ensures Drop(a + b, d) == Drop(a, d) + Drop(b, d)
    decreases |b|
  {
    if b == [] {
      assert a + b == a;
    } else {
      DropConcat(a, b[..|b| - 1], d);
      assert (a + b)[..|a + b| - 1] == a + b[..|b| - 1];
    }
  }

  lemma DropFrom(rows: seq<Row>, queue: seq<Waiting>, k: nat)
    requires InOrder(queue) && 0 < k <= |queue|
    ensures Drop(LiveQueue(rows, queue[..k - 1]) + queue[k - 1..], Some(queue[k - 1].demand)) ==
            LiveQueue(rows, queue[..k - 1]) + queue[k..]
  {
    hide Live, Drop, LiveQueue;
    var d, live := Some(queue[k - 1].demand), LiveQueue(rows, queue[..k - 1]);
    assert live + queue[k - 1..] == live + ([queue[k - 1]] + queue[k..]);
    DropConcat(live, [queue[k - 1]] + queue[k..], d);
    DropConcat([queue[k - 1]], queue[k..], d);
    forall q | q in live ensures Some(q.demand) != d {
      LiveQueueMembers(rows, queue[..k - 1], q);
    }
    DropNothing(live, d);
    forall q | q in queue[k..] ensures Some(q.demand) != d {
      var i :| k <= i < |queue| && queue[i] == q;
    }
    DropNothing(queue[k..], d);
    DropOne(queue[k - 1]);
  }

  lemma DropOne(q: Waiting)
    ensures Drop([q], Some(q.demand)) == []
  {
    assert [q][..0] == [];
  }

  // ---------------------------------------------------------------- rounds end

  /** Interrupted publication, closed occupant, queue and pending reset: what there is left to do. */
  function Measure(rows: seq<Row>): nat {
    var env := Derive(rows);
    (if env.state == PUBLICANDO then 1 else 0) + (if OccupantClosed(rows, env) then 1 else 0) + |env.queue|
    + (if env.reset.Some? then 1 else 0)
  }

  /** Rows of the environment's own leave what is known of reviews as it was. */
  lemma {:induction false} OwnMore(rows: seq<Row>, own: seq<Row>, d: string)
    requires forall i :: 0 <= i < |own| ==> Own(own[i])
    ensures OpenReview(rows + own, d) == OpenReview(rows, d) && IsClosed(rows + own, d) == IsClosed(rows, d)
    ensures Live(rows + own, d) == Live(rows, d)
    decreases |own|
  {
    hide OpenReview, IsClosed, Own;
    if own == [] {
      assert rows + own == rows;
    } else {
      OwnMore(rows, own[..|own| - 1], d);
      OwnRowsAside(rows + own[..|own| - 1], own[|own| - 1], d);
      assert rows + own == (rows + own[..|own| - 1]) + [own[|own| - 1]];
    }
  }

  /** The log after an operation: own rows added, publications named. */
  ghost predicate Adds(rows: seq<Row>, after: seq<Row>) {
    rows <= after && forall i :: |rows| <= i < |after| ==> Own(after[i]) && NamesDemand(after[i])
  }

  lemma AddsAside(rows: seq<Row>, after: seq<Row>, d: string)
    requires Adds(rows, after)
    ensures OpenReview(after, d) == OpenReview(rows, d) && IsClosed(after, d) == IsClosed(rows, d)
    ensures Live(after, d) == Live(rows, d)
    ensures Named(rows) ==> Named(after)
  {
    hide OpenReview, IsClosed, Own, Derive;
    OwnMore(rows, after[|rows|..], d);
    assert after == rows + after[|rows|..];
    if Named(rows) {
      forall i | 0 <= i < |after| ensures !Nameless(Derive(after[..i]), after[i]) {
        if i < |rows| {
          assert after[..i] == rows[..i] && after[i] == rows[i];
        }
      }
    }
  }

  lemma PublishAdds(rows: seq<Row>, d: string, requireRequest: bool, commit: Option<string>, o: Outside)
    ensures Adds(rows, Publish(rows, d, requireRequest, commit, o))
  {
    hide Derive, OpenReview, Pending;
  }

  lemma {:induction false} ObsoleteAdds(rows: seq<Row>, queue: seq<Waiting>)
    ensures Adds(rows, ReleaseObsolete(rows, queue))
  {
    hide Live;
    if queue != [] {
      ObsoleteAdds(rows, queue[..|queue| - 1]);
    }
  }

  lemma ResetAdds(rows: seq<Row>, o: Outside)
    ensures Adds(rows, ResetData(rows, o))
  {
    hide Derive, Publish;
    var env := Derive(rows);
    if env.demand.Some? {
      PublishAdds(rows + [DataReset(env.demand)], env.demand.value, false, env.commit, o);
    }
  }

  lemma RoundAdds(rows: seq<Row>, o: Outside)
    ensures Adds(rows, Round(rows, o).rows)
  {
    hide Derive, Publish, ResetData, ReleaseObsolete, HasObsolete, IsClosed, Starts, Queued, Adds;
    var env := Derive(rows);
    assert Adds(rows, rows) && Adds(rows, rows + [Failed(env.demand)]) by { OneAdds(rows, Failed(env.demand)); }
    ObsoleteAdds(rows, env.queue);
    ResetAdds(rows, o);
    if env.demand.Some? {
      PublishAdds(rows, env.demand.value, true, None, o);
      OneAdds(rows, Released(env.demand));
    }
    if env.queue != [] {
      PublishAdds(rows, env.queue[0].demand, true, None, o);
    }
  }

  lemma OneAdds(rows: seq<Row>, row: Row)
    requires Own(row) && NamesDemand(row)
    ensures Adds(rows, rows) && Adds(rows, rows + [row])
  {
  }

  /** A data reset that succeeds serves its request; the occupant, republished or not, stays. */
  lemma ResetServed(rows: seq<Row>, o: Outside)
    requires Named(rows) && o.configOk && o.downOk
    requires var env := Derive(rows); env.reset.Some? && env.state != PUBLICANDO
    ensures var env, after := Derive(rows), Derive(ResetData(rows, o));
            && after.reset.None? && after.demand == env.demand && after.state != PUBLICANDO
            && after.queue == env.queue && (after.republish.Some? ==> after.republish == env.republish)
  {
    hide Derive, Drop, OpenReview, Requested, InOrder;
    var env := Derive(rows);
    DeriveIsCoherent(rows);
    var cleared := rows + [DataReset(env.demand)];
    DeriveSnoc(rows, DataReset(env.demand));
    if env.demand.Some? && env.commit.Some? {
      var d := env.demand.value;
      if Starts(cleared, d, false, o) {
        Started(cleared, d, false, env.commit, o);
        DropNothing(env.queue, env.demand);
      } else {
        NotFailed(cleared, Some(d));
      }
    }
  }

  lemma {:induction false} LiveIsFewer(rows: seq<Row>, queue: seq<Waiting>)
    ensures |LiveQueue(rows, queue)| <= |queue|
    ensures HasObsolete(rows, queue) ==> |LiveQueue(rows, queue)| < |queue|
    ensures !HasObsolete(rows, queue) ==> LiveQueue(rows, queue) == queue
  {
    hide Live;
    if queue != [] {
      var front, last := queue[..|queue| - 1], queue[|queue| - 1];
      LiveIsFewer(rows, front);
      assert queue == front + [last];
      if HasObsolete(rows, front) {
        var q :| q in front && !Live(rows, q.demand);
        assert q in queue;
      }
    }
  }

  lemma ObsoleteAll(rows: seq<Row>)
    requires Named(rows)
    ensures var env := Derive(rows);
            Derive(ReleaseObsolete(rows, env.queue)) == env.(queue := LiveQueue(rows, env.queue))
  {
    hide Derive, LiveQueue, ReleaseObsolete;
    var queue := Derive(rows).queue;
    ObsoleteReleased(rows, |queue|);
    assert queue[..|queue|] == queue && queue[|queue|..] == [];
    assert LiveQueue(rows, queue) + [] == LiveQueue(rows, queue);
  }

  /** The publication of the first in the queue that does not start: it leaves the queue, or nothing changes. */
  lemma NotStarted(rows: seq<Row>, d: string, o: Outside)
    requires Named(rows) && !Starts(rows, d, true, o)
    requires Derive(rows).state == LIVRE
    ensures var env, after := Derive(rows), Derive(Publish(rows, d, true, None, o));
            after == env || after == env.(queue := Drop(env.queue, Some(d)))
  {
    hide Derive, Drop, OpenReview, Pending, Requested, InOrder;
    DeriveIsCoherent(rows);
    NotFailed(rows, Some(d));
    WaitingReleased(rows, d);
  }

  /** Rounds that go on leave less to do, when resets succeed: `reconcile` cannot run in circles. */
  lemma RoundShrinks(rows: seq<Row>, o: Outside)
    requires Named(rows) && Round(rows, o).again && (Derive(rows).reset.Some? ==> o.configOk && o.downOk)
    ensures Measure(Round(rows, o).rows) < Measure(rows) && Named(Round(rows, o).rows)
  {
    hide Derive, Publish, ResetData, ReleaseObsolete, Live, Starts, Drop, InOrder, IsClosed, LiveQueue, Requested;
    var env, after := Derive(rows), Round(rows, o).rows;
    RoundAdds(rows, o);
    AddsAside(rows, after, if env.demand.Some? then env.demand.value else "");
    if env.state == PUBLICANDO {
      Interrupted(rows);
    } else if OccupantClosed(rows, env) {
      OccupantReleased(rows);
    } else if HasObsolete(rows, env.queue) {
      ObsoleteAll(rows);
      LiveIsFewer(rows, env.queue);
    } else if env.reset.Some? {
      ResetServed(rows, o);
    } else {
      HeadLeft(rows, o);
    }
  }

  /** The round goes on after a publication only when the head of the queue turned out obsolete. */
  lemma HeadLeft(rows: seq<Row>, o: Outside)
    requires Named(rows) && Round(rows, o).again
    requires var env := Derive(rows);
             && env.state != PUBLICANDO && !OccupantClosed(rows, env) && !HasObsolete(rows, env.queue)
             && env.reset.None?
    ensures var env, after := Derive(rows), Derive(Round(rows, o).rows);
            && after == env.(queue := after.queue) && |after.queue| < |env.queue|
            && env.queue != [] && !Starts(rows, env.queue[0].demand, true, o)
  {
    hide Derive, Publish, Drop, InOrder, Requested, OpenReview, Pending;
    var env := Derive(rows);
    DeriveIsCoherent(rows);
    var head := env.queue[0].demand;
    assert env.queue[0] in env.queue;
    if Starts(rows, head, true, o) {
      Started(rows, head, true, None, o);
      assert false;
    }
    NotStarted(rows, head, o);
    DropKeepsOrder(env.queue, Some(head));
  }

  /** With resets that succeed, `reconcile` settles when there are fewer things to do than rounds. */
  lemma {:induction false} ReconcileSettles(rows: seq<Row>, outside: nat -> Outside, i: nat, n: nat)
    requires Named(rows) && Measure(rows) < n && forall k :: outside(k).configOk && outside(k).downOk
    ensures Rounds(rows, outside, i, n).settled
    decreases n
  {
    hide Round, Measure;
    var turn := Round(rows, outside(i));
    if turn.again {
      RoundShrinks(rows, outside(i));
      ReconcileSettles(turn.rows, outside, i + 1, n - 1);
    }
  }
}
