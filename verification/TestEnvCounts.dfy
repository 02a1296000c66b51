/**
 * `testenv.py`: publications are paid for. One operation at a time holds the lock, but other processes append to the
 * log between the moment it reads the state and the moment it writes.
 */
module TestEnvCounts {
  import opened Prelude
  import opened TestEnv
  import opened TestEnvRuns

  /** The log, and the publication that has been decided on but not yet written. */
  datatype State = State(log: seq<Row>, decided: Option<string>)

  datatype Action =
    | Append(row: Row)
    | Decide(demand: string)
    | Erase(occupant: Option<string>, republish: bool)
    | Write(commit: Option<string>)
    | GiveUp

  const INITIAL := State([], None)

  predicate Enabled(s: State, a: Action) {
    match a
    case Append(row) => !row.Publishing? && !row.DataReset?
    case Decide(d) => s.decided.None? && Pending(Derive(s.log), d)
    case Erase(d, republish) => s.decided.None? && (republish ==> d.Some?)
    case Write(_) => s.decided.Some?
    case GiveUp => s.decided.Some?
  }

  /** One step; an action that is not enabled does nothing. */
  function Next(s: State, a: Action): State {
    if !Enabled(s, a) then s
    else
      match a
      case Append(row) => s.(log := s.log + [row])
      case Decide(d) => s.(decided := Some(d))
      case Erase(d, republish) => State(s.log + [DataReset(d)], if republish then d else None)
      case Write(commit) => State(s.log + [Publishing(s.decided, commit)], None)
      case GiveUp => s.(decided := None)
  }

  function Exec(s: State, actions: seq<Action>): State {
    if actions == [] then s else Next(Exec(s, actions[..|actions| - 1]), actions[|actions| - 1])
  }

  predicate IsPublication(row: Row, d: string) {
    row.Publishing? && row.demand == Some(d)
  }

  predicate IsPublishRequest(row: Row, d: string) {
    row.Request? && row.human && row.action == "publish" && row.demand == Some(d)
  }

  predicate IsReset(row: Row, d: string) {
    row.DataReset? && row.demand == Some(d)
  }

  /** Rows of the log that satisfy a predicate. */
  function Count(rows: seq<Row>, which: Row -> bool): nat {
    if rows == [] then 0
    else Count(rows[..|rows| - 1], which) + (if which(rows[|rows| - 1]) then 1 else 0)
  }

  function Publications(rows: seq<Row>, d: string): nat {
    Count(rows, row => IsPublication(row, d))
  }

  /** What a demand's publications are paid with: its publish requests and the data resets made for it. */
  function Paid(rows: seq<Row>, d: string): nat {
    Count(rows, row => IsPublishRequest(row, d) || IsReset(row, d))
  }

  lemma CountSnoc(rows: seq<Row>, row: Row, d: string)
    ensures Publications(rows + [row], d) == Publications(rows, d) + (if IsPublication(row, d) then 1 else 0)
    ensures Paid(rows + [row], d) == Paid(rows, d) + (if IsPublishRequest(row, d) || IsReset(row, d) then 1 else 0)
  {
    assert (rows + [row])[..|rows|] == rows;
  }

  lemma DropQueued(queue: seq<Waiting>, other: Option<string>, d: string)
    ensures Queued(Drop(queue, other), d) <==> Queued(queue, d) && other != Some(d)
  {
    hide Drop;
    forall q ensures q in Drop(queue, other) <==> q in queue && Some(q.demand) != other {
      DropMembers(queue, other, q);
    }
    if Queued(queue, d) && other != Some(d) {
      var q :| q in queue && q.demand == d;
      assert q in Drop(queue, other);
    }
  }

  /** Only a human's publish request makes a demand pending; its own publication ends that. */
  lemma PendingSnoc(rows: seq<Row>, row: Row, d: string)
    ensures Pending(Derive(rows + [row]), d) ==> Pending(Derive(rows), d) || IsPublishRequest(row, d)
    ensures IsPublication(row, d) ==> !Pending(Derive(rows + [row]), d)
  {
    hide Derive, Drop, Queued;
    var env := Derive(rows);
    DeriveSnoc(rows, row);
    match row {
      case Request(_, _, other, _) =>
        DropQueued(env.queue, other, d);
        if other.Some? {
          QueuedSnoc(env.queue, Waiting(other.value, |rows|), d);
        }
      case Publishing(other, _) => DropQueued(env.queue, other, d);
      case Released(other) => DropQueued(env.queue, other, d);
      case _ =>
    }
  }

  lemma QueuedSnoc(queue: seq<Waiting>, q: Waiting, d: string)
    ensures Queued(queue + [q], d) <==> Queued(queue, d) || q.demand == d
  {
    assert forall x :: x in queue + [q] <==> x in queue || x == q;
  }

  /** A pending or decided publication of a demand has been paid for and not yet used. */
  predicate Covered(s: State, d: string) {
    Publications(s.log, d) + (if Pending(Derive(s.log), d) || s.decided == Some(d) then 1 else 0) <= Paid(s.log, d)
  }

  lemma NextKeepsCovered(s: State, a: Action, d: string)
    requires Covered(s, d)
    ensures Covered(Next(s, a), d)
  {
    hide Derive, Pending, Publications, Paid;
    if Enabled(s, a) {
      var row := match a
        case Append(row) => row
        case Erase(e, _) => DataReset(e)
        case Write(commit) => Publishing(s.decided, commit)
        case _ => Unrelated;
      CountSnoc(s.log, row, d);
      PendingSnoc(s.log, row, d);
    }
  }

  /**
   * Over every run, a demand is published at most as many times as a human asked for it plus the data resets made
   * for it, whatever else is appended in between.
   */
  lemma {:induction false} PublicationsArePaid(actions: seq<Action>, d: string)
    ensures Publications(Exec(INITIAL, actions).log, d) <= Paid(Exec(INITIAL, actions).log, d)
    ensures Covered(Exec(INITIAL, actions), d)
  {
    hide Next, Publications, Paid, Covered;
    if actions == [] {
      NothingPublished(d);
    } else {
      PublicationsArePaid(actions[..|actions| - 1], d);
      NextKeepsCovered(Exec(INITIAL, actions[..|actions| - 1]), actions[|actions| - 1], d);
      CoveredMeans(Exec(INITIAL, actions), d);
    }
  }

  lemma NothingPublished(d: string)
    ensures Covered(INITIAL, d) && Publications([], d) <= Paid([], d)
  {
  }

  lemma CoveredMeans(s: State, d: string)
    requires Covered(s, d)
    ensures Publications(s.log, d) <= Paid(s.log, d)
  {
    hide Publications, Paid;
  }

  // ---------------------------------------------------------------- the operations are such runs

  /** The row with which a publication that does not start ends, if any. */
  lemma PublishRefuses(rows: seq<Row>, d: string, requireRequest: bool, commit: Option<string>, o: Outside)
    requires !Starts(rows, d, requireRequest, o)
    ensures Publish(rows, d, requireRequest, commit, o) == rows
            || Publish(rows, d, requireRequest, commit, o) == rows + [Failed(Some(d))]
            || Publish(rows, d, requireRequest, commit, o) == rows + [Released(Some(d))]
  {
    hide Derive, OpenReview, Pending;
  }

  /** `publish` for a request keeps every publication paid. */
  lemma PublishIsCovered(rows: seq<Row>, d: string, o: Outside, e: string)
    requires Covered(State(rows, None), e)
    ensures Covered(State(Publish(rows, d, true, None, o), None), e)
  {
    hide Derive, OpenReview, Covered, Pending;
    var s := State(rows, None);
    if Starts(rows, d, true, o) {
      var sha := Some(o.pr.head);
      var middle := Next(Next(s, Decide(d)), Write(sha));
      NextKeepsCovered(s, Decide(d), e);
      NextKeepsCovered(Next(s, Decide(d)), Write(sha), e);
      NextKeepsCovered(middle, Append(if o.deployed then Published(Some(d), sha) else Failed(Some(d))), e);
      assert middle == State(rows + [Publishing(Some(d), sha)], None);
    } else {
      PublishRefuses(rows, d, true, None, o);
      NextKeepsCovered(s, Append(Failed(Some(d))), e);
      NextKeepsCovered(s, Append(Released(Some(d))), e);
    }
  }

  /** `do_reset` pays for the republication it makes. */
  lemma ResetIsCovered(rows: seq<Row>, o: Outside, e: string)
    requires Covered(State(rows, None), e)
    ensures Covered(State(ResetData(rows, o), None), e)
  {
    hide Derive, OpenReview, Covered, Pending;
    var env, s := Derive(rows), State(rows, None);
    var cleared := rows + [DataReset(env.demand)];
    NextKeepsCovered(s, Erase(env.demand, false), e);
    if env.reset.Some? {
      NextKeepsCovered(s, Append(Failed(env.demand)), e);
      NextKeepsCovered(s, Append(Failed(env.reset.value)), e);
      if env.demand.Some? && env.commit.Some? {
        RepublicationIsCovered(rows, env.demand.value, env.commit, o, e);
      }
    }
  }

  lemma RepublicationIsCovered(rows: seq<Row>, d: string, commit: Option<string>, o: Outside, e: string)
    requires Covered(State(rows, None), e) && commit.Some?
    ensures Covered(State(Publish(rows + [DataReset(Some(d))], d, false, commit, o), None), e)
  {
    hide Derive, OpenReview, Covered, Pending;
    var cleared := rows + [DataReset(Some(d))];
    var erased := Next(State(rows, None), Erase(Some(d), true));
    NextKeepsCovered(State(rows, None), Erase(Some(d), true), e);
    if Starts(cleared, d, false, o) {
      NextKeepsCovered(erased, Write(commit), e);
      var middle := State(cleared + [Publishing(Some(d), commit)], None);
      NextKeepsCovered(middle, Append(if o.deployed then Published(Some(d), commit) else Failed(Some(d))), e);
    } else {
      PublishRefuses(cleared, d, false, commit, o);
      NextKeepsCovered(erased, GiveUp, e);
      NextKeepsCovered(State(cleared, None), Append(Failed(Some(d))), e);
      NextKeepsCovered(State(cleared, None), Append(Released(Some(d))), e);
    }
  }
}
