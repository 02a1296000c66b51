/** `testenv.py`, `reconcile`: whom it serves, and that running it again does nothing. */
module TestEnvOrder {
  import opened Prelude
  import opened TestEnv
  import opened TestEnvRuns

  predicate Idle(rows: seq<Row>) {
    var env := Derive(rows);
    && env.state != PUBLICANDO && !OccupantClosed(rows, env) && !HasObsolete(rows, env.queue)
    && env.reset.None? && env.republish.None? && (env.state == LIVRE ==> env.queue == [])
  }

  /** The pull request of a demand waiting to be republished has been under review. */
  predicate Reviewed(rows: seq<Row>) {
    var env := Derive(rows);
    env.republish.Some? ==> OpenReview(rows, env.republish.value).Some? || IsClosed(rows, env.republish.value)
  }

  predicate Reachable(o: Outside) {
    o.pr.OPEN? && !o.publisherWorktree
  }

  lemma StillNotObsolete(rows: seq<Row>, after: seq<Row>, before: seq<Waiting>, queue: seq<Waiting>)
    requires Adds(rows, after) && !HasObsolete(rows, before) && forall q <- queue :: q in before
    ensures !HasObsolete(after, queue)
  {
    hide Live, Adds;
    forall q | q in queue ensures Live(after, q.demand) {
      AddsAside(rows, after, q.demand);
      assert q in before;
    }
  }

  lemma DropSome(queue: seq<Waiting>, d: Option<string>)
    ensures forall q <- Drop(queue, d) :: q in queue
  {
    hide Drop;
    forall q | q in Drop(queue, d) ensures q in queue {
      DropMembers(queue, d, q);
    }
  }

  /** A publication that starts from a state with nothing else to do leaves nothing to do. */
  lemma PublicationIdles(rows: seq<Row>, d: string, o: Outside)
    requires Named(rows) && Starts(rows, d, true, o) && !IsClosed(rows, d)
    requires Derive(rows).reset.None? && !HasObsolete(rows, Derive(rows).queue)
    ensures Idle(Publish(rows, d, true, None, o))
    ensures Derive(Publish(rows, d, true, None, o)).demand == Some(d)
    ensures Derive(Publish(rows, d, true, None, o)).queue == Drop(Derive(rows).queue, Some(d))
  {
    hide Derive, Publish, HasObsolete, IsClosed, Drop, Starts, Adds, Live;
    var after := Publish(rows, d, true, None, o);
    Started(rows, d, true, None, o);
    PublishAdds(rows, d, true, None, o);
    AddsAside(rows, after, d);
    DropSome(Derive(rows).queue, Some(d));
    StillNotObsolete(rows, after, Derive(rows).queue, Derive(after).queue);
  }

  /** The head of a queue without obsolete entries can be published when the environment is free. */
  lemma HeadStarts(rows: seq<Row>, o: Outside)
    requires Named(rows) && Reachable(o)
    requires var env := Derive(rows); env.state == LIVRE && env.queue != [] && !HasObsolete(rows, env.queue)
    ensures Starts(rows, Derive(rows).queue[0].demand, true, o) && !IsClosed(rows, Derive(rows).queue[0].demand)
  {
    hide Derive, OpenReview, IsClosed, InOrder, Requested;
    DeriveIsCoherent(rows);
    assert Derive(rows).queue[0] in Derive(rows).queue;
  }

  lemma LastRoundIdles(rows: seq<Row>, o: Outside)
    requires Named(rows) && Reviewed(rows) && Reachable(o) && !Round(rows, o).again
    ensures Idle(Round(rows, o).rows)
  {
    hide Derive, Publish, ResetData, ReleaseObsolete, Release, HasObsolete, IsClosed, OpenReview, InOrder, Requested;
    var env := Derive(rows);
    DeriveIsCoherent(rows);
    if env.state != PUBLICANDO && !OccupantClosed(rows, env) && !HasObsolete(rows, env.queue) && env.reset.None? {
      if env.republish.Some? {
        PublicationIdles(rows, env.demand.value, o);
      } else if env.state == LIVRE && env.queue != [] {
        HeadStarts(rows, o);
        PublicationIdles(rows, env.queue[0].demand, o);
      }
    }
  }

  /** Rounds that go on do not ask for a republication. */
  lemma RoundKeepsReviewed(rows: seq<Row>, o: Outside)
    requires Named(rows) && Reviewed(rows) && Round(rows, o).again
    requires Derive(rows).reset.Some? ==> (o.configOk && o.downOk) || Derive(ResetData(rows, o)) == Derive(rows)
    ensures Reviewed(Round(rows, o).rows) && Named(Round(rows, o).rows)
  {
    hide Derive, Publish, ResetData, ReleaseObsolete, HasObsolete, IsClosed, OpenReview, Starts, LiveQueue, Adds, Live;
    var env, after := Derive(rows), Round(rows, o).rows;
    RoundAdds(rows, o);
    AddsAside(rows, after, if env.republish.Some? then env.republish.value else "");
    if env.state == PUBLICANDO {
      Interrupted(rows);
    } else if OccupantClosed(rows, env) {
      OccupantReleased(rows);
    } else if HasObsolete(rows, env.queue) {
      ObsoleteAll(rows);
    } else if env.reset.Some? {
      if o.configOk && o.downOk {
        ResetServed(rows, o);
      }
    } else {
      HeadLeft(rows, o);
    }
  }

  /** A reset that fails changes nothing but the log. */
  lemma ResetFailed(rows: seq<Row>, o: Outside)
    requires Derive(rows).reset.Some? && !(o.configOk && o.downOk) && Derive(rows).state != PUBLICANDO
    ensures Derive(ResetData(rows, o)) == Derive(rows)
  {
    hide Derive, Publish;
    var env := Derive(rows);
    NotFailed(rows, env.demand);
    NotFailed(rows, env.reset.value);
  }

  lemma ResetEither(rows: seq<Row>, o: Outside)
    ensures Derive(rows).reset.Some? && Derive(rows).state != PUBLICANDO ==>
              (o.configOk && o.downOk) || Derive(ResetData(rows, o)) == Derive(rows)
  {
    hide Derive, ResetData;
    if Derive(rows).reset.Some? && Derive(rows).state != PUBLICANDO && !(o.configOk && o.downOk) {
      ResetFailed(rows, o);
    }
  }

  /**
   * With reachable open pull requests, once `reconcile` has ended before its round limit, another run does nothing.
   */
  lemma {:induction false} SecondRunIsIdle(rows: seq<Row>, outside: nat -> Outside, i: nat, n: nat, later: Outside)
    requires Named(rows) && Reviewed(rows) && (forall k :: Reachable(outside(k)))
    requires Rounds(rows, outside, i, n).settled
    ensures var after := Rounds(rows, outside, i, n).rows;
            Idle(after) && Round(after, later) == Turn(after, false, false)
    decreases n
  {
    hide Round, Reviewed, Idle, Reachable, Derive, ResetData;
    var turn := Round(rows, outside(i));
    assert Reachable(outside(i));
    if turn.again {
      ResetEither(rows, outside(i));
      AgainKeepsReviewed(rows, outside(i));
      SecondRunIsIdle(turn.rows, outside, i + 1, n - 1, later);
    } else {
      LastRoundIdles(rows, outside(i));
      IdleRound(turn.rows, later);
    }
  }

  lemma AgainKeepsReviewed(rows: seq<Row>, o: Outside)
    requires Named(rows) && Reviewed(rows) && Round(rows, o).again
    ensures Reviewed(Round(rows, o).rows) && Named(Round(rows, o).rows)
  {
    hide Publish, ResetData, ReleaseObsolete, HasObsolete, OpenReview, IsClosed, Starts, Derive, Live;
    if Derive(rows).state == PUBLICANDO {
      InterruptedKeepsReviewed(rows, o);
    } else {
      ResetEither(rows, o);
      RoundKeepsReviewed(rows, o);
    }
  }

  lemma InterruptedKeepsReviewed(rows: seq<Row>, o: Outside)
    requires Named(rows) && Reviewed(rows) && Derive(rows).state == PUBLICANDO
    ensures Reviewed(Round(rows, o).rows) && Named(Round(rows, o).rows)
  {
    hide Derive, Publish, ResetData, ReleaseObsolete, HasObsolete, IsClosed, OpenReview, Adds, Live;
    var env, after := Derive(rows), Round(rows, o).rows;
    RoundAdds(rows, o);
    AddsAside(rows, after, if env.republish.Some? then env.republish.value else "");
    Interrupted(rows);
  }

  lemma IdleRound(rows: seq<Row>, o: Outside)
    requires Idle(rows)
    ensures Round(rows, o) == Turn(rows, false, false)
  {
    hide Derive, Publish, ResetData, ReleaseObsolete, HasObsolete, IsClosed;
  }

  // ---------------------------------------------------------------- a republication without a review

  /** A publication that the missing review stops changes nothing but the log. */
  lemma UnreviewedPublication(rows: seq<Row>, d: string, requireRequest: bool, commit: Option<string>, o: Outside)
    requires Derive(rows).demand == Some(d) && Derive(rows).republish == Some(d) && Derive(rows).state != PUBLICANDO
    requires OpenReview(rows, d).None?
    ensures Derive(Publish(rows, d, requireRequest, commit, o)) == Derive(rows)
  {
    hide Derive, OpenReview;
    NotFailed(rows, Some(d));
  }

  lemma UnreviewedReset(rows: seq<Row>, d: string, o: Outside)
    requires Derive(rows).demand == Some(d) && Derive(rows).republish == Some(d) && Derive(rows).state != PUBLICANDO
    requires OpenReview(rows, d).None? && Derive(rows).reset.Some?
    ensures Derive(ResetData(rows, o)).republish == Some(d)
  {
    hide Derive, OpenReview, Publish;
    var env, more := Derive(rows), rows + [DataReset(Some(d))];
    NotFailed(rows, Some(d));
    OwnRowsAside(rows, DataReset(Some(d)), d);
    assert Derive(more) == env.(reset := None) by { DeriveSnoc(rows, DataReset(Some(d))); }
    if env.commit.Some? {
      UnreviewedPublication(more, d, false, env.commit, o);
    }
  }

  lemma UnreviewedStays(rows: seq<Row>, o: Outside)
    requires Named(rows) && !Reviewed(rows)
    ensures !Reviewed(Round(rows, o).rows) && Named(Round(rows, o).rows) && Round(rows, o).acted
  {
    hide Derive, Publish, ResetData, ReleaseObsolete, HasObsolete, IsClosed, OpenReview, LiveQueue, Adds,
      Live, InOrder, Requested;
    var env, after := Derive(rows), Round(rows, o).rows;
    var d := env.republish.value;
    DeriveIsCoherent(rows);
    RoundAdds(rows, o);
    AddsAside(rows, after, d);
    if env.state == PUBLICANDO {
      Interrupted(rows);
    } else if HasObsolete(rows, env.queue) {
      ObsoleteAll(rows);
    } else if env.reset.Some? {
      UnreviewedReset(rows, d, o);
    } else {
      UnreviewedPublication(rows, d, true, None, o);
    }
  }

  lemma {:induction false} UnreviewedRepeats(rows: seq<Row>, outside: nat -> Outside, i: nat, n: nat, later: Outside)
    requires Named(rows) && !Reviewed(rows)
    ensures Round(Rounds(rows, outside, i, n).rows, later).acted
    decreases n
  {
    hide Round, Reviewed;
    UnreviewedStays(rows, later);
    if n > 0 {
      UnreviewedStays(rows, outside(i));
      var turn := Round(rows, outside(i));
      if turn.again {
        UnreviewedRepeats(turn.rows, outside, i + 1, n - 1, later);
      } else {
        UnreviewedStays(turn.rows, later);
      }
    }
  }

  /**
   * Exactly when another run does nothing: a republication pending for a demand without an open review, that was not
   * closed either, is tried and refused again by every run.
   */
  lemma SecondRunIsIdleIff(rows: seq<Row>, outside: nat -> Outside, i: nat, n: nat, later: Outside)
    requires Named(rows) && (forall k :: Reachable(outside(k)))
    requires Rounds(rows, outside, i, n).settled
    ensures var after := Rounds(rows, outside, i, n).rows;
            Round(after, later) == Turn(after, false, false) <==> Reviewed(rows)
  {
    hide Round, Reviewed, Reachable, Rounds, Derive;
    if Reviewed(rows) {
      SecondRunIsIdle(rows, outside, i, n, later);
    } else {
      UnreviewedRepeats(rows, outside, i, n, later);
    }
  }

  // ---------------------------------------------------------------- the earliest live request

  /** No demand holds the environment, or one that is closed and about to leave it. */
  predicate Free(rows: seq<Row>) {
    var env := Derive(rows);
    env.demand.None? || IsClosed(rows, env.demand.value)
  }

  /** The waiting demands `reconcile` would not discard, in the order of their requests. */
  function Waiters(rows: seq<Row>): seq<Waiting> {
    LiveQueue(rows, Derive(rows).queue)
  }

  lemma {:induction false} LiveQueueAside(rows: seq<Row>, after: seq<Row>, queue: seq<Waiting>)
    requires Adds(rows, after)
    ensures LiveQueue(after, queue) == LiveQueue(rows, queue)
  {
    hide Live, Adds;
    if queue != [] {
      LiveQueueAside(rows, after, queue[..|queue| - 1]);
      AddsAside(rows, after, queue[|queue| - 1].demand);
    }
  }

  lemma {:induction false} LiveQueueTwice(rows: seq<Row>, queue: seq<Waiting>)
    ensures LiveQueue(rows, LiveQueue(rows, queue)) == LiveQueue(rows, queue)
  {
    hide Live;
    if queue != [] {
      var front, last := LiveQueue(rows, queue[..|queue| - 1]), queue[|queue| - 1];
      LiveQueueTwice(rows, queue[..|queue| - 1]);
      assert (front + [last])[..|front|] == front;
    }
  }

  /** Rounds that go on neither serve nor reorder the live requests. */
  lemma AgainKeepsWaiters(rows: seq<Row>, o: Outside)
    requires Named(rows) && Free(rows) && Reachable(o) && Round(rows, o).again
    ensures var after := Round(rows, o).rows;
            Named(after) && Free(after) && Waiters(after) == Waiters(rows)
  {
    hide Derive, Publish, ResetData, ReleaseObsolete, HasObsolete, IsClosed, Starts, LiveQueue, Adds,
      Live, Requested, InOrder;
    var env, after := Derive(rows), Round(rows, o).rows;
    DeriveIsCoherent(rows);
    RoundAdds(rows, o);
    AddsAside(rows, after, if env.demand.Some? then env.demand.value else "");
    LiveQueueAside(rows, after, Derive(after).queue);
    if env.state == PUBLICANDO {
      Interrupted(rows);
    } else if OccupantClosed(rows, env) {
      OccupantReleased(rows);
    } else if HasObsolete(rows, env.queue) {
      ObsoleteAll(rows);
      LiveQueueTwice(rows, env.queue);
    } else if env.reset.Some? {
      if o.configOk && o.downOk {
        ResetServed(rows, o);
      } else {
        ResetFailed(rows, o);
      }
    } else {
      HeadLeft(rows, o);
      HeadStarts(rows, o);
    }
  }

  lemma DropHead(queue: seq<Waiting>)
    requires InOrder(queue) && queue != []
    ensures Drop(queue, Some(queue[0].demand)) == queue[1..]
  {
    hide Drop;
    assert queue == [queue[0]] + queue[1..];
    DropConcat([queue[0]], queue[1..], Some(queue[0].demand));
    DropOne(queue[0]);
    DropNothing(queue[1..], Some(queue[0].demand));
  }

  /** The last round gives a free environment to the first live request. */
  lemma LastRoundServes(rows: seq<Row>, o: Outside)
    requires Named(rows) && Free(rows) && Reachable(o) && !Round(rows, o).again
    ensures var env := Derive(Round(rows, o).rows);
            if Waiters(rows) == [] then env.demand.None? && env.queue == []
            else env.demand == Some(Waiters(rows)[0].demand) && env.queue == Waiters(rows)[1..]
  {
    hide Derive, Publish, ResetData, ReleaseObsolete, HasObsolete, IsClosed, Starts, LiveQueue, Requested,
      InOrder, Drop;
    var env := Derive(rows);
    DeriveIsCoherent(rows);
    LiveIsFewer(rows, env.queue);
    if env.state == LIVRE && env.queue != [] && env.reset.None? && !HasObsolete(rows, env.queue) {
      HeadStarts(rows, o);
      Started(rows, env.queue[0].demand, true, None, o);
      DropHead(env.queue);
    }
  }

  /**
   * With reachable open pull requests, `reconcile` that ends before its limit gives a free environment to the earliest
   * request whose demand is open and under review, and leaves the other such requests waiting in order.
   */
  lemma {:induction false} EarliestLiveIsServed(rows: seq<Row>, outside: nat -> Outside, i: nat, n: nat)
    requires Named(rows) && Free(rows) && (forall k :: Reachable(outside(k)))
    requires Rounds(rows, outside, i, n).settled
    ensures var env := Derive(Rounds(rows, outside, i, n).rows);
            if Waiters(rows) == [] then env.demand.None? && env.queue == []
            else env.demand == Some(Waiters(rows)[0].demand) && env.queue == Waiters(rows)[1..]
    decreases n
  {
    hide Round, Free, Waiters, Derive, Reachable;
    var turn := Round(rows, outside(i));
    assert Reachable(outside(i));
    if turn.again {
      AgainKeepsWaiters(rows, outside(i));
      EarliestLiveIsServed(turn.rows, outside, i + 1, n - 1);
    } else {
      LastRoundServes(rows, outside(i));
    }
  }
}
