/** The derived test environment told from the rows of the log: who has it, since when, who waits, what is asked for. */
module TestEnvMeaning {
  import opened Prelude
  import opened TestEnv
  import opened TestEnvRuns

  // ---------------------------------------------------------------- the occupant

  /** The publication at `i` holds the environment: no other one has begun, and the demand has not been released. */
  predicate Holds(rows: seq<Row>, d: string, i: nat) {
    && i < |rows| && rows[i].Publishing? && rows[i].demand == Some(d)
    && forall k :: i < k < |rows| ==> !rows[k].Publishing? && rows[k] != Released(Some(d))
  }

  predicate IsPublished(row: Row, d: string) {
    row.Published? && row.demand == Some(d)
  }

  predicate PublishedSince(rows: seq<Row>, d: string, i: nat) {
    exists k :: i < k < |rows| && IsPublished(rows[k], d)
  }

  predicate FailedSince(rows: seq<Row>, d: string, i: nat) {
    exists k :: i < k < |rows| && rows[k] == Failed(Some(d))
  }

  /** A commit reported with the completion replaces the one it began with; the last such counts. */
  predicate CommitIs(rows: seq<Row>, d: string, i: nat, commit: Option<string>)
    requires i < |rows| && rows[i].Publishing?
  {
    || (exists k :: i < k < |rows| && Reports(rows, d, k) && rows[k].commit == commit)
    || (commit == rows[i].commit && forall k :: i < k < |rows| ==> !(IsPublished(rows[k], d) && rows[k].commit.Some?))
  }

  predicate Reports(rows: seq<Row>, d: string, k: nat)
    requires k < |rows|
  {
    && IsPublished(rows[k], d) && rows[k].commit.Some?
    && forall j :: k < j < |rows| ==> !(IsPublished(rows[j], d) && rows[j].commit.Some?)
  }

  predicate IsDown(row: Row) {
    row.Request? && row.human && row.action == "down"
  }

  /** A human has stopped it after it was published or had failed. */
  predicate StoppedSince(rows: seq<Row>, d: string, i: nat) {
    exists k ::
      && i < k < |rows| && IsDown(rows[k])
      && exists j :: i < j < k && (IsPublished(rows[j], d) || rows[j] == Failed(Some(d)))
  }

  ghost predicate Shows(rows: seq<Row>, env: Env, d: string, i: nat) {
    && Holds(rows, d, i) && env.demand == Some(d)
    && env.state == (if PublishedSince(rows, d, i) then OCUPADO
                     else if FailedSince(rows, d, i) then FALHOU else PUBLICANDO)
    && CommitIs(rows, d, i, env.commit)
    && (env.stopped <==> StoppedSince(rows, d, i))
  }

  /** The environment is free, or the last publication that has not been released has it. */
  ghost predicate OccupantOk(rows: seq<Row>, env: Env) {
    match env.demand
    case None => env.state == LIVRE && forall d, i: nat :: !Holds(rows, d, i)
    case Some(d) => exists i: nat :: Shows(rows, env, d, i)
  }

  lemma HoldsMore(rows: seq<Row>, row: Row)
    ensures forall d, i: nat :: i < |rows| ==>
              (Holds(rows + [row], d, i) <==> Holds(rows, d, i) && !row.Publishing? && row != Released(Some(d)))
    ensures forall d :: Holds(rows + [row], d, |rows|) <==> row.Publishing? && row.demand == Some(d)
  {
    var more := rows + [row];
    assert forall k :: 0 <= k < |rows| ==> more[k] == rows[k];
    assert more[|rows|] == row;
  }

  lemma ShowsMore(rows: seq<Row>, row: Row, d: string, i: nat, env: Env)
    requires Named(rows) && Coherent(env) && Shows(rows, env, d, i) && !row.Publishing? && row != Released(Some(d))
    ensures Shows(rows + [row], Step(env, |rows|, row), d, i)
  {
    HoldsMore(rows, row);
    PhaseMore(rows, row, d, i);
    CommitMore(rows, row, d, i, env.commit);
    OccupantStep(env, |rows|, row, d);
    assert (rows + [row])[i] == rows[i];
    hide Drop, InOrder, Holds, PublishedSince, FailedSince, CommitIs, StoppedSince, Queued, Derive, Nameless, Step;
  }

  /** What a row does to the occupant's fields, when it neither publishes nor releases. */
  lemma OccupantStep(env: Env, at: nat, row: Row, d: string)
    requires env.demand == Some(d) && !row.Publishing? && row != Released(Some(d))
    ensures var after := Step(env, at, row);
            && after.demand == env.demand
            && after.state == (if IsPublished(row, d) then OCUPADO
                               else if row == Failed(Some(d)) && env.state == PUBLICANDO then FALHOU else env.state)
            && after.commit == (if IsPublished(row, d) && row.commit.Some? then row.commit else env.commit)
            && after.stopped == (env.stopped || (IsDown(row) && (env.state == OCUPADO || env.state == FALHOU)))
  {
    hide Drop, Queued;
  }

  lemma PhaseMore(rows: seq<Row>, row: Row, d: string, i: nat)
    requires i < |rows|
    ensures PublishedSince(rows + [row], d, i) <==> PublishedSince(rows, d, i) || IsPublished(row, d)
    ensures FailedSince(rows + [row], d, i) <==> FailedSince(rows, d, i) || row == Failed(Some(d))
    ensures StoppedSince(rows + [row], d, i) <==>
              StoppedSince(rows, d, i)
              || (IsDown(row) && (PublishedSince(rows, d, i) || FailedSince(rows, d, i)))
  {
    var more := rows + [row];
    assert forall k :: 0 <= k < |rows| ==> more[k] == rows[k];
    assert more[|rows|] == row;
    if StoppedSince(rows, d, i) {
      var k :| i < k < |rows| && IsDown(rows[k])
               && exists j :: i < j < k && (IsPublished(rows[j], d) || rows[j] == Failed(Some(d)));
      assert IsDown(more[k]);
    }
    if StoppedSince(more, d, i) {
      var k :| i < k < |more| && IsDown(more[k])
               && exists j :: i < j < k && (IsPublished(more[j], d) || more[j] == Failed(Some(d)));
      assert k < |rows| ==> IsDown(rows[k]);
    }
    if IsDown(row) && (PublishedSince(rows, d, i) || FailedSince(rows, d, i)) {
      assert IsDown(more[|rows|]);
    }
  }

  lemma CommitMore(rows: seq<Row>, row: Row, d: string, i: nat, commit: Option<string>)
    requires i < |rows| && rows[i].Publishing? && CommitIs(rows, d, i, commit)
    ensures CommitIs(rows + [row], d, i, if IsPublished(row, d) && row.commit.Some? then row.commit else commit)
  {
    var more := rows + [row];
    assert forall k :: 0 <= k < |rows| ==> more[k] == rows[k];
    assert more[|rows|] == row;
    if IsPublished(row, d) && row.commit.Some? {
      assert Reports(more, d, |rows|);
    } else if k :| i < k < |rows| && Reports(rows, d, k) && rows[k].commit == commit {
      assert Reports(more, d, k);
    }
  }

  lemma JustBegun(rows: seq<Row>, row: Row, d: string, env: Env)
    requires row.Publishing? && row.demand == Some(d)
    ensures Shows(rows + [row], Step(env, |rows|, row), d, |rows|)
  {
    hide Drop;
    HoldsMore(rows, row);
  }

  lemma OccupantMore(rows: seq<Row>, row: Row)
    requires Named(rows + [row]) && Named(rows) && OccupantOk(rows, Derive(rows))
    ensures OccupantOk(rows + [row], Derive(rows + [row]))
  {
    var env := Derive(rows);
    DeriveSnoc(rows, row);
    DeriveIsCoherent(rows);
    assert !Nameless(env, row) by {
      assert (rows + [row])[..|rows|] == rows && (rows + [row])[|rows|] == row;
    }
    HoldsMore(rows, row);
    hide Derive, Named, Shows, Drop, InOrder, Requested, Queued;
    if row.Publishing? {
      JustBegun(rows, row, row.demand.value, env);
    } else if env.demand.Some? && row != Released(env.demand) {
      var i: nat :| Shows(rows, env, env.demand.value, i);
      ShowsMore(rows, row, env.demand.value, i, env);
    } else if env.demand.Some? {
      OneHolder(rows, env);
      hide Holds;
    } else {
      hide Holds;
    }
  }

  /** Whoever holds the environment is the occupant. */
  lemma OneHolder(rows: seq<Row>, env: Env)
    requires OccupantOk(rows, env)
    ensures forall d, i: nat :: Holds(rows, d, i) ==> env.demand == Some(d)
  {
    hide PublishedSince, FailedSince, CommitIs, StoppedSince;
    if env.demand.Some? {
      var i: nat :| Shows(rows, env, env.demand.value, i);
      forall d, j: nat | Holds(rows, d, j) ensures env.demand == Some(d) {
      }
    }
  }

  /**
   * Who has the environment, in what state, with which commit and whether it was stopped, for every log without
   * nameless publications.
   */
  lemma {:induction false} OccupantMeaning(rows: seq<Row>)
    requires Named(rows)
    ensures OccupantOk(rows, Derive(rows))
  {
    hide OccupantOk, Derive;
    if rows == [] {
      NobodyAtFirst();
    } else {
      var front, row := rows[..|rows| - 1], rows[|rows| - 1];
      assert rows == front + [row];
      NamedPrefix(rows, |front|);
      OccupantMeaning(front);
      OccupantMore(front, row);
    }
  }

  lemma NobodyAtFirst()
    ensures OccupantOk([], EMPTY) && Derive([]) == EMPTY
  {
  }

  // ---------------------------------------------------------------- who waits

  predicate Asks(row: Row, d: string) {
    row.Request? && row.human && row.action == "publish" && row.demand == Some(d)
  }

  /** What takes a demand off the queue: its publication, its release, or a human's cancelation. */
  predicate TakesOff(row: Row, d: string) {
    || (row.Publishing? && row.demand == Some(d)) || row == Released(Some(d))
    || (row.Request? && row.human && row.action == "cancel" && row.demand == Some(d))
  }

  /** A request at `r` that waits: not the occupant's own, and nothing has taken the demand off since. */
  predicate WaitsAt(rows: seq<Row>, d: string, r: nat) {
    && r < |rows| && Asks(rows[r], d) && Derive(rows[..r]).demand != Some(d)
    && forall k :: r < k < |rows| ==> !TakesOff(rows[k], d)
  }

  /** The queue holds each demand that waits, at its first request that does. */
  ghost predicate QueueOk(rows: seq<Row>, queue: seq<Waiting>) {
    && (forall q <- queue :: WaitsAt(rows, q.demand, q.at) && forall r: nat :: WaitsAt(rows, q.demand, r) ==> q.at <= r)
    && (forall d, r: nat :: WaitsAt(rows, d, r) ==> Queued(queue, d))
  }

  lemma WaitsMore(rows: seq<Row>, row: Row)
    ensures forall d, r: nat :: r < |rows| ==>
              (WaitsAt(rows + [row], d, r) <==> WaitsAt(rows, d, r) && !TakesOff(row, d))
    ensures forall d :: WaitsAt(rows + [row], d, |rows|) <==> Asks(row, d) && Derive(rows).demand != Some(d)
  {
    hide Derive, TakesOff, Asks;
    var more := rows + [row];
    assert forall k :: 0 <= k < |rows| ==> more[k] == rows[k];
    assert forall k :: 0 <= k <= |rows| ==> more[..k] == rows[..k];
    assert more[|rows|] == row && rows[..|rows|] == rows;
  }

  lemma DroppedAll(queue: seq<Waiting>)
    ensures forall d, q :: q in Drop(queue, d) <==> q in queue && Some(q.demand) != d
  {
    hide Drop;
    forall d, q ensures q in Drop(queue, d) <==> q in queue && Some(q.demand) != d {
      DropMembers(queue, d, q);
    }
  }

  /** A row takes off exactly the demands it takes off, and adds at most the one it asks for. */
  lemma QueueStep(env: Env, at: nat, row: Row, q: Waiting)
    ensures q in Step(env, at, row).queue <==>
              || (q in env.queue && !TakesOff(row, q.demand))
              || (q.at == at && Asks(row, q.demand) && env.demand != Some(q.demand) && !Queued(env.queue, q.demand))
              || (q.at == at && Asks(row, q.demand) && env.demand == Some(q.demand) && env.state == LIVRE
                  && !Queued(env.queue, q.demand))
  {
    DroppedAll(env.queue);
    hide Drop, Queued;
  }

  lemma QueueMore(rows: seq<Row>, row: Row)
    requires Coherent(Derive(rows)) && QueueOk(rows, Derive(rows).queue)
    ensures QueueOk(rows + [row], Derive(rows + [row]).queue)
  {
    var env, more := Derive(rows), rows + [row];
    DeriveSnoc(rows, row);
    WaitsMore(rows, row);
    var after := Step(env, |rows|, row);
    forall q ensures q in after.queue <==>
                       || (q in env.queue && !TakesOff(row, q.demand))
                       || (q.at == |rows| && Asks(row, q.demand) && env.demand != Some(q.demand)
                           && !Queued(env.queue, q.demand))
    {
      QueueStep(env, |rows|, row, q);
    }
    hide Derive, Step, Asks, TakesOff, WaitsAt, InOrder;
    forall q | q in after.queue
      ensures WaitsAt(more, q.demand, q.at) && forall r: nat :: WaitsAt(more, q.demand, r) ==> q.at <= r
    {
      if q !in env.queue {
        forall r: nat | WaitsAt(more, q.demand, r) ensures q.at <= r {
          InRange(more, q.demand, r);
        }
      } else {
        assert WaitsAt(rows, q.demand, q.at);
        InRange(rows, q.demand, q.at);
        forall r: nat | WaitsAt(more, q.demand, r) ensures q.at <= r {
          InRange(more, q.demand, r);
        }
      }
    }
    forall d, r: nat | WaitsAt(more, d, r) ensures Queued(after.queue, d) {
      InRange(more, d, r);
      if Queued(env.queue, d) {
        var q :| q in env.queue && q.demand == d;
        InRange(rows, d, q.at);
        if TakesOff(row, d) {
          NotBoth(row, d);
        }
        assert q in after.queue;
      } else {
        assert Waiting(d, |rows|) in after.queue;
      }
    }
  }

  lemma InRange(rows: seq<Row>, d: string, r: nat)
    requires WaitsAt(rows, d, r)
    ensures r < |rows|
  {
  }

  lemma NotBoth(row: Row, d: string)
    ensures !(Asks(row, d) && TakesOff(row, d))
  {
  }

  /** Who waits, and since which request, for every log without nameless publications. */
  lemma {:induction false} QueueMeaning(rows: seq<Row>)
    requires Named(rows)
    ensures QueueOk(rows, Derive(rows).queue)
  {
    hide Derive, QueueOk, Coherent;
    if rows == [] {
      NobodyWaits();
    } else {
      var front, row := rows[..|rows| - 1], rows[|rows| - 1];
      assert rows == front + [row];
      NamedPrefix(rows, |front|);
      QueueMeaning(front);
      DeriveIsCoherent(front);
      QueueMore(front, row);
    }
  }

  lemma NobodyWaits()
    ensures QueueOk([], Derive([]).queue)
  {
  }

  // ---------------------------------------------------------------- what is asked for

  predicate AsksReset(row: Row) {
    row.Request? && row.human && row.action == "reset-data" && row.confirmed
  }

  /** The last confirmed request to erase the data, if nothing has been erased since. */
  predicate ResetAt(rows: seq<Row>, r: nat) {
    && r < |rows| && AsksReset(rows[r])
    && forall k :: r < k < |rows| ==> !rows[k].DataReset? && !AsksReset(rows[k])
  }

  /** A pending erasure is that of the last confirmed request that no erasure follows. */
  lemma {:induction false} ResetMeaning(rows: seq<Row>)
    ensures forall r: nat :: ResetAt(rows, r) ==> Derive(rows).reset == Some(rows[r].demand)
    ensures Derive(rows).reset.Some? ==> exists r: nat :: ResetAt(rows, r)
  {
    if rows != [] {
      var front, row := rows[..|rows| - 1], rows[|rows| - 1];
      assert rows == front + [row];
      ResetMeaning(front);
      DeriveSnoc(front, row);
      assert forall k :: 0 <= k < |front| ==> front[k] == rows[k];
      ResetStep(Derive(front), |front|, row);
      hide Derive;
      forall r: nat | r < |front|
        ensures ResetAt(rows, r) <==> ResetAt(front, r) && !row.DataReset? && !AsksReset(row)
      {
      }
      if AsksReset(row) {
        assert ResetAt(rows, |front|);
      } else if Derive(rows).reset.Some? {
        var r: nat :| ResetAt(front, r);
        assert ResetAt(rows, r);
      }
    }
  }

  lemma ResetStep(env: Env, at: nat, row: Row)
    ensures Step(env, at, row).reset ==
            if AsksReset(row) then Some(row.demand) else if row.DataReset? then None else env.reset
  {
    hide Drop;
  }

  /** The occupant's own request, once its publication had ended; nothing begun, canceled or released since. */
  predicate RepublishAt(rows: seq<Row>, d: string, r: nat) {
    && r < |rows| && Asks(rows[r], d) && Derive(rows[..r]).demand == Some(d) && Derive(rows[..r]).state != PUBLICANDO
    && forall k :: r < k < |rows| ==> !rows[k].Publishing? && !TakesOff(rows[k], d)
  }

  lemma RepublishMore(rows: seq<Row>, row: Row)
    ensures forall d, r: nat :: r < |rows| ==>
              (RepublishAt(rows + [row], d, r) <==> RepublishAt(rows, d, r) && !row.Publishing? && !TakesOff(row, d))
    ensures forall d :: RepublishAt(rows + [row], d, |rows|) <==>
              Asks(row, d) && Derive(rows).demand == Some(d) && Derive(rows).state != PUBLICANDO
  {
    hide Derive, TakesOff, Asks;
    var more := rows + [row];
    assert forall k :: 0 <= k < |rows| ==> more[k] == rows[k];
    assert forall k :: 0 <= k <= |rows| ==> more[..k] == rows[..k];
    assert more[|rows|] == row && rows[..|rows|] == rows;
  }

  lemma RepublishStep(env: Env, at: nat, row: Row)
    requires Coherent(env) && !Nameless(env, row)
    ensures forall d :: Step(env, at, row).republish == Some(d) <==>
              || (Asks(row, d) && env.demand == Some(d) && env.state != PUBLICANDO)
              || (env.republish == Some(d) && !row.Publishing? && !TakesOff(row, d))
  {
    hide Drop, InOrder, Queued;
  }

  lemma {:induction false} RepublishMeaning(rows: seq<Row>)
    requires Named(rows)
    ensures forall d :: Derive(rows).republish == Some(d) <==> exists r: nat :: RepublishAt(rows, d, r)
  {
    hide Derive, Coherent, Nameless, Asks, TakesOff;
    if rows == [] {
      assert Derive(rows) == EMPTY by { NobodyAtFirst(); assert rows == []; }
    } else {
      var front, row := rows[..|rows| - 1], rows[|rows| - 1];
      assert rows == front + [row];
      NamedPrefix(rows, |front|);
      RepublishMeaning(front);
      DeriveIsCoherent(front);
      DeriveSnoc(front, row);
      assert !Nameless(Derive(rows[..|front|]), rows[|front|]);
      RepublishStep(Derive(front), |front|, row);
      RepublishMore(front, row);
      hide RepublishAt, Step;
      forall d ensures Derive(rows).republish == Some(d) <==> exists r: nat :: RepublishAt(rows, d, r) {
        RepublishOne(front, row, d);
      }
    }
  }

  lemma RepublishOne(rows: seq<Row>, row: Row, d: string)
    ensures (exists r: nat :: RepublishAt(rows + [row], d, r)) <==>
              || (Asks(row, d) && Derive(rows).demand == Some(d) && Derive(rows).state != PUBLICANDO)
              || ((exists r: nat :: RepublishAt(rows, d, r)) && !row.Publishing? && !TakesOff(row, d))
  {
    RepublishMore(rows, row);
    hide Derive, Asks, TakesOff;
    if r: nat :| RepublishAt(rows, d, r) {
      assert r < |rows|;
    }
    if r: nat :| RepublishAt(rows + [row], d, r) {
      assert r <= |rows|;
    }
  }

  // ---------------------------------------------------------------- reviews

  /** The last review of the demand. */
  predicate IsLastReview(rows: seq<Row>, d: string, i: nat) {
    && i < |rows| && rows[i].Review? && rows[i].demand == Some(d)
    && forall k :: i < k < |rows| ==> !(rows[k].Review? && rows[k].demand == Some(d))
  }

  /** A delivery or a rejection of the demand, of the same pull request or at the same address. */
  predicate Closes(row: Row, d: string, review: Row)
    requires review.Review?
  {
    row.Closed? && row.demand == Some(d) && (row.pr == review.pr || row.url == review.url)
  }

  lemma {:induction false} LastReviewMeaning(rows: seq<Row>, d: string)
    ensures forall i: nat :: IsLastReview(rows, d, i) ==> LastReview(rows, d) == Some(rows[i])
    ensures LastReview(rows, d).Some? ==> exists i: nat :: IsLastReview(rows, d, i)
  {
    if rows != [] {
      var front, row := rows[..|rows| - 1], rows[|rows| - 1];
      LastReviewMeaning(front, d);
      assert forall k :: 0 <= k < |front| ==> front[k] == rows[k];
      if row.Review? && row.demand == Some(d) {
        assert IsLastReview(rows, d, |front|);
      } else if LastReview(front, d).Some? {
        var i: nat :| IsLastReview(front, d, i);
        assert IsLastReview(rows, d, i);
      }
    }
  }

  /** The open review is the last one, unless some row of the log, before or after it, closes it. */
  lemma OpenReviewMeaning(rows: seq<Row>, d: string)
    ensures forall i: nat :: IsLastReview(rows, d, i) ==>
              OpenReview(rows, d) ==
              if exists e <- rows :: Closes(e, d, rows[i]) then None else Some(rows[i])
    ensures OpenReview(rows, d).Some? ==> exists i: nat :: IsLastReview(rows, d, i)
  {
    LastReviewMeaning(rows, d);
    hide LastReview;
  }

  lemma IsReview(rows: seq<Row>, d: string, i: nat)
    requires IsLastReview(rows, d, i)
    ensures i < |rows| && rows[i].Review?
  {
  }

  /** A row that ends the demand: delivered, rejected in review, or canceled. */
  predicate EndsDemand(row: Row, d: string) {
    row == Canceled(Some(d)) || (row.Closed? && row.demand == Some(d))
  }

  /** The demand may use the environment: no row ends it, and its last review is open. */
  predicate IsEligible(rows: seq<Row>, d: string) {
    && (forall e <- rows :: !EndsDemand(e, d))
    && exists i: nat :: i < |rows| && IsLastReview(rows, d, i) && forall e <- rows :: !Closes(e, d, rows[i])
  }

  lemma EligibleIsLive(rows: seq<Row>, d: string)
    ensures IsEligible(rows, d) <==> Live(rows, d)
    ensures IsClosed(rows, d) <==> exists e <- rows :: EndsDemand(e, d)
  {
    OpenReviewMeaning(rows, d);
    hide OpenReview, IsLastReview;
    if Live(rows, d) {
      var i: nat :| IsLastReview(rows, d, i);
      IsReview(rows, d, i);
    }
    if IsEligible(rows, d) {
      var i: nat :| i < |rows| && IsLastReview(rows, d, i) && forall e <- rows :: !Closes(e, d, rows[i]);
      IsReview(rows, d, i);
    }
  }

  // ---------------------------------------------------------------- after reconcile

  /**
   * Nothing is left to clean up: no publication is under way or interrupted, no occupant has ended, everyone who waits
   * may still be published, and no erasure is pending.
   */
  ghost predicate IsClean(rows: seq<Row>) {
    var env := Derive(rows);
    && env.state != PUBLICANDO && env.reset == None
    && (env.demand.Some? ==> forall e <- rows :: !EndsDemand(e, env.demand.value))
    && forall q <- env.queue :: IsEligible(rows, q.demand)
  }

  lemma SettledRound(rows: seq<Row>, o: Outside)
    requires Named(rows) && !Round(rows, o).again
    ensures IsClean(Round(rows, o).rows)
  {
    hide Derive, Publish, Drop, InOrder, Requested, Live, IsClosed, IsEligible, ReleaseObsolete, ResetData, Release,
      Starts, Adds;
    var env, after := Derive(rows), Round(rows, o).rows;
    RoundAdds(rows, o);
    DeriveIsCoherent(rows);
    Reached(rows, o);
    var now := Derive(after);
    if now.demand.Some? {
      AddsAside(rows, after, now.demand.value);
      EligibleIsLive(after, now.demand.value);
      EligibleIsLive(rows, now.demand.value);
    }
    forall q | q in now.queue ensures IsEligible(after, q.demand) {
      AddsAside(rows, after, q.demand);
      EligibleIsLive(after, q.demand);
    }
  }

  /** Where the last round of a reconciliation leads, from a state without anything to clean up. */
  lemma Reached(rows: seq<Row>, o: Outside)
    requires Named(rows) && !Round(rows, o).again
    ensures var env, now := Derive(rows), Derive(Round(rows, o).rows);
            && now.state != PUBLICANDO && now.reset == None
            && (now.demand.Some? ==> !IsClosed(rows, now.demand.value))
            && forall q <- now.queue :: Live(rows, q.demand)
  {
    hide Derive, Publish, Drop, InOrder, Requested, Live, ReleaseObsolete, ResetData, Release;
    var env := Derive(rows);
    DeriveIsCoherent(rows);
    DroppedAll(env.queue);
    assert env.state != PUBLICANDO && env.reset == None && !HasObsolete(rows, env.queue);
    if env.republish.Some? {
      PublishLeads(rows, env.demand.value, true, None, o);
    } else if env.state == LIVRE && env.queue != [] {
      var head := env.queue[0].demand;
      assert env.queue[0] in env.queue;
      assert Live(rows, head);
      LiveIsOpen(rows, head);
      PublishLeads(rows, head, true, None, o);
    }
  }

  lemma LiveIsOpen(rows: seq<Row>, d: string)
    requires Live(rows, d)
    ensures !IsClosed(rows, d) && OpenReview(rows, d).Some?
  {
  }

  /** A publication, started or not: the occupant stays or is the published demand, and the queue at most loses it. */
  lemma PublishLeads(rows: seq<Row>, d: string, requireRequest: bool, commit: Option<string>, o: Outside)
    requires Named(rows) && Derive(rows).state != PUBLICANDO
    ensures var env, after := Derive(rows), Derive(Publish(rows, d, requireRequest, commit, o));
            && after.state != PUBLICANDO && after.reset == env.reset
            && (after.demand == env.demand || after.demand == Some(d))
            && (after.queue == env.queue || after.queue == Drop(env.queue, Some(d)))
  {
    hide Derive, Drop, OpenReview, Pending, InOrder, Requested;
    var env := Derive(rows);
    if Starts(rows, d, requireRequest, o) {
      Started(rows, d, requireRequest, commit, o);
    } else {
      NotFailed(rows, Some(d));
      if env.demand != Some(d) {
        WaitingReleased(rows, d);
      }
    }
  }

  /** `reconcile` that ends before its limit leaves nothing to clean up. */
  lemma {:induction false} SettledIsClean(rows: seq<Row>, outside: nat -> Outside, i: nat, n: nat)
    requires Named(rows) && Rounds(rows, outside, i, n).settled
    ensures IsClean(Rounds(rows, outside, i, n).rows)
    decreases n
  {
    hide Round, IsClean, Derive;
    var turn := Round(rows, outside(i));
    if turn.again {
      RoundAdds(rows, outside(i));
      AddsAside(rows, turn.rows, "");
      SettledIsClean(turn.rows, outside, i + 1, n - 1);
    } else {
      SettledRound(rows, outside(i));
    }
  }

  // ---------------------------------------------------------------- publish

  /** Someone has asked for the demand, and it has not been served. */
  predicate IsAwaited(rows: seq<Row>, d: string) {
    Queued(Derive(rows).queue, d) || Derive(rows).republish == Some(d)
  }

  /** Another demand is using the environment. */
  predicate IsTaken(rows: seq<Row>, d: string) {
    var env := Derive(rows);
    env.state != LIVRE && env.demand.Some? && env.demand.value != d
  }

  predicate IsOnlyNew(rows: seq<Row>, after: seq<Row>, row: Row) {
    after == rows + [row]
  }

  /**
   * When `publish` deploys: only for an awaited demand, if it is to be, never while another has the environment, only
   * with an open review whose pull request is open, and never from the publisher's own worktree. Otherwise it leaves
   * one row at most: nothing while another has the environment; the release of a demand that waits for a pull request
   * that is no longer open; a failure in every other case.
   */
  lemma PublishMeaning(rows: seq<Row>, d: string, requireRequest: bool, commit: Option<string>, o: Outside)
    ensures var after, refused := Publish(rows, d, requireRequest, commit, o), requireRequest && !IsAwaited(rows, d);
            if refused then IsOnlyNew(rows, after, Failed(Some(d)))
            else if IsTaken(rows, d) then after == rows
            else if OpenReview(rows, d) == None || (o.pr == NOT_OPEN) then
              IsOnlyNew(rows, after, if IsAwaited(rows, d) && Derive(rows).demand != Some(d) then Released(Some(d))
                                     else Failed(Some(d)))
            else if o.pr == UNREACHABLE || o.publisherWorktree then IsOnlyNew(rows, after, Failed(Some(d)))
            else
              && rows < after && |after| == |rows| + 2
              && after[|rows|] == Publishing(Some(d), Some(if commit.Some? then commit.value else o.pr.head))
              && after[|rows| + 1] == if o.deployed then Published(Some(d), after[|rows|].commit) else Failed(Some(d))
  {
    hide Derive, OpenReview, Queued;
  }

  // ---------------------------------------------------------------- release and erasure

  /** A release is recorded exactly for who has the environment or waits for it, who then neither has it nor waits. */
  lemma ReleaseMeaning(rows: seq<Row>, d: string)
    requires Named(rows)
    ensures var env, more := Derive(rows), Release(rows, d);
            && more == (if env.demand == Some(d) || Queued(env.queue, d) then rows + [Released(Some(d))] else rows)
            && var after := Derive(more);
               && after.demand == (if env.demand == Some(d) then None else env.demand)
               && after.state == (if env.demand == Some(d) then LIVRE else env.state)
               && forall q :: q in after.queue <==> q in env.queue && q.demand != d
  {
    hide Derive, Drop, Coherent, Requested;
    DeriveIsCoherent(rows);
    DeriveSnoc(rows, Released(Some(d)));
    DroppedAll(Derive(rows).queue);
  }

  /**
   * What an erasure of the data leaves: one failure, and the request pending, if the configuration is refused or the
   * environment does not go down; else the erasure, for the occupant, who is published again at the commit it had.
   */
  lemma ErasureMeaning(rows: seq<Row>, o: Outside)
    ensures var env, after := Derive(rows), ResetData(rows, o);
            if env.reset == None then after == rows
            else if !o.configOk || !o.downOk then
              && IsOnlyNew(rows, after,
                           Failed(if env.demand == None && !o.configOk then env.reset.value else env.demand))
              && Derive(after).reset == env.reset
            else
              && rows < after && after[|rows|] == DataReset(env.demand) && Derive(after).reset == None
              && (env.demand == None || env.commit == None ==> |after| == |rows| + 1)
              && (&& env.demand.Some? && env.commit.Some? && OpenReview(rows, env.demand.value).Some? && o.pr.OPEN?
                  && !o.publisherWorktree ==>
                    && |after| == |rows| + 3 && after[|rows| + 1] == Publishing(env.demand, env.commit)
                    && after[|rows| + 2] ==
                       if o.deployed then Published(env.demand, env.commit) else Failed(env.demand))
  {
    hide Derive, Drop, Publish, OpenReview;
    var env := Derive(rows);
    if env.reset.Some? {
      DeriveSnoc(rows, Failed(env.demand));
      DeriveSnoc(rows, Failed(env.reset.value));
      DeriveSnoc(rows, DataReset(env.demand));
      if env.demand.Some? && env.commit.Some? {
        RepublishedAfter(rows, env.demand.value, o);
      }
    }
  }

  lemma RepublishedAfter(rows: seq<Row>, d: string, o: Outside)
    requires Derive(rows).demand == Some(d) && Derive(rows).commit.Some?
    ensures var cleared, commit := rows + [DataReset(Some(d))], Derive(rows).commit;
            var after := Publish(cleared, d, false, commit, o);
            && cleared <= after && Derive(after).reset == None
            && (OpenReview(rows, d).Some? && o.pr.OPEN? && !o.publisherWorktree ==>
                 && |after| == |cleared| + 2 && after[|cleared|] == Publishing(Some(d), commit)
                 && after[|cleared| + 1] == if o.deployed then Published(Some(d), commit) else Failed(Some(d)))
  {
    hide Derive, Drop, Publish, OpenReview;
    var cleared := rows + [DataReset(Some(d))];
    DeriveSnoc(rows, DataReset(Some(d)));
    OwnRowsAside(rows, DataReset(Some(d)), d);
    PublishMeaning(cleared, d, false, Derive(rows).commit, o);
    PublishAdds(cleared, d, false, Derive(rows).commit, o);
    KeepsReset(cleared, Publish(cleared, d, false, Derive(rows).commit, o));
  }

  lemma {:induction false} KeepsReset(rows: seq<Row>, after: seq<Row>)
    requires Adds(rows, after) && Derive(rows).reset == None
    ensures Derive(after).reset == None
    decreases |after|
  {
    hide Derive, Step;
    if after != rows {
      var front, row := after[..|after| - 1], after[|after| - 1];
      assert after == front + [row];
      KeepsReset(rows, front);
      DeriveSnoc(front, row);
      ResetStep(Derive(front), |front|, row);
    }
  }
}
