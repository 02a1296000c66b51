/**
 * `testenv.py`: one shared test environment, its occupant and its queue, derived from an append-only log only; and
 * `reconcile`, which acts on that state. Docker, git and GitHub answers are parameters.
 */
module TestEnv {
  import opened Prelude

  datatype Closing = DELIVERED | REVIEW_REJECTED

  /** Rows of the log, as far as the environment reads them. */
  datatype Row =
    | Request(human: bool, action: string, demand: Option<string>, confirmed: bool)
    | Publishing(demand: Option<string>, commit: Option<string>)
    | Published(demand: Option<string>, commit: Option<string>)
    | Failed(demand: Option<string>)
    | Released(demand: Option<string>)
    | DataReset(demand: Option<string>)
    | Review(demand: Option<string>, pr: Option<int>, url: Option<string>)
    | Closed(how: Closing, demand: Option<string>, pr: Option<int>, url: Option<string>)
    | Canceled(demand: Option<string>)
    | Unrelated

  datatype Phase = LIVRE | PUBLICANDO | OCUPADO | FALHOU

  /** A publish request waiting its turn, and its position in the log. */
  datatype Waiting = Waiting(demand: string, at: nat)

  /** `reset` holds the demand, if any, of an unserved request to erase the data. */
  datatype Env = Env(
    state: Phase, demand: Option<string>, commit: Option<string>, stopped: bool, queue: seq<Waiting>,
    republish: Option<string>, reset: Option<Option<string>>)

  const EMPTY := Env(LIVRE, None, None, false, [], None, None)

  predicate Queued(queue: seq<Waiting>, d: string) {
    exists q <- queue :: q.demand == d
  }

  /** The queue without the entries of a demand. */
  function Drop(queue: seq<Waiting>, d: Option<string>): seq<Waiting> {
    if queue == [] then []
    else
      var front, last := Drop(queue[..|queue| - 1], d), queue[|queue| - 1];
      if Some(last.demand) == d then front else front + [last]
  }

  /** A human's request. */
  function OnRequest(env: Env, at: nat, row: Row): Env
    requires row.Request?
  {
    var action, demand := row.action, row.demand;
    if action == "publish" && demand.Some? then
      if env.demand == demand && (env.state == OCUPADO || env.state == FALHOU) then env.(republish := demand)
      else if env.demand == demand && env.state == PUBLICANDO then env
      else if Queued(env.queue, demand.value) then env
      else env.(queue := env.queue + [Waiting(demand.value, at)])
    else if action == "cancel" && demand.Some? then
      env.(queue := Drop(env.queue, demand), republish := if env.republish == demand then None else env.republish)
    else if action == "reset-data" && row.confirmed then env.(reset := Some(demand))
    else if action == "down" && (env.state == OCUPADO || env.state == FALHOU) then env.(stopped := true)
    else env
  }

  /** One row of the loop of `derive`. */
  function Step(env: Env, at: nat, row: Row): Env {
    match row
    case Request(human, _, _, _) => if human then OnRequest(env, at, row) else env
    case Publishing(d, commit) =>
      env.(state := PUBLICANDO, demand := d, commit := commit, stopped := false, queue := Drop(env.queue, d),
           republish := None)
    case Published(d, commit) =>
      if d != env.demand then env
      else env.(state := OCUPADO, commit := if commit.Some? then commit else env.commit)
    case Failed(d) => if d == env.demand && env.state == PUBLICANDO then env.(state := FALHOU) else env
    case Released(d) =>
      var left := env.(queue := Drop(env.queue, d));
      if d.None? || d != env.demand then left
      else
        left.(state := LIVRE, demand := None, commit := None, stopped := false,
              republish := if left.republish == d then None else left.republish)
    case DataReset(_) => env.(reset := None)
    case _ => env
  }

  /** `derive`. */
  function Derive(rows: seq<Row>): Env {
    if rows == [] then EMPTY else Step(Derive(rows[..|rows| - 1]), |rows| - 1, rows[|rows| - 1])
  }

  /** A publication names the demand it is for. */
  predicate NamesDemand(row: Row) {
    (row.Publishing? || row.Published?) ==> row.demand.Some?
  }

  /** A publication that would occupy the environment with nobody; a nameless completion is ignored when it is taken. */
  predicate Nameless(env: Env, row: Row) {
    (row.Publishing? && row.demand.None?) || (row.Published? && row.demand.None? && env.state == LIVRE)
  }

  /** No publication of the log occupies the environment with nobody. */
  predicate Named(rows: seq<Row>) {
    forall i :: 0 <= i < |rows| ==> !Nameless(Derive(rows[..i]), rows[i])
  }

  // ---------------------------------------------------------------- the queue

  /** Requests of different demands, in the order of the log. */
  ghost predicate InOrder(queue: seq<Waiting>) {
    forall i, j :: 0 <= i < j < |queue| ==> queue[i].demand != queue[j].demand && queue[i].at < queue[j].at
  }

  ghost predicate Requested(queue: seq<Waiting>, rows: seq<Row>) {
    forall q <- queue :: q.at < |rows| && rows[q.at].Request? && rows[q.at].human && rows[q.at].action == "publish"
                         && rows[q.at].demand == Some(q.demand)
  }

  lemma {:induction false} DropMembers(queue: seq<Waiting>, d: Option<string>, q: Waiting)
    ensures q in Drop(queue, d) <==> q in queue && Some(q.demand) != d
  {
    if queue != [] {
      DropMembers(queue[..|queue| - 1], d, q);
      assert queue == queue[..|queue| - 1] + [queue[|queue| - 1]];
    }
  }

  lemma {:induction false} DropKeepsOrder(queue: seq<Waiting>, d: Option<string>)
    requires InOrder(queue)
    ensures InOrder(Drop(queue, d)) && |Drop(queue, d)| <= |queue|
    ensures (exists q <- queue :: Some(q.demand) == d) ==> |Drop(queue, d)| < |queue|
  {
    if queue != [] {
      var front, last := queue[..|queue| - 1], queue[|queue| - 1];
      DropKeepsOrder(front, d);
      assert queue == front + [last];
      forall q | q in Drop(front, d) ensures q.demand != last.demand && q.at < last.at {
        DropMembers(front, d, q);
      }
    }
  }

  lemma {:induction false} DropNothing(queue: seq<Waiting>, d: Option<string>)
    requires forall q <- queue :: Some(q.demand) != d
    ensures Drop(queue, d) == queue
  {
    if queue != [] {
      assert queue == queue[..|queue| - 1] + [queue[|queue| - 1]];
      DropNothing(queue[..|queue| - 1], d);
    }
  }

  // ---------------------------------------------------------------- the state

  /** What the environment's state always satisfies. */
  ghost predicate Coherent(env: Env) {
    && (env.state == LIVRE <==> env.demand.None?)
    && InOrder(env.queue)
    && (forall q <- env.queue :: Some(q.demand) != env.demand)
    && (env.republish.Some? ==> env.republish == env.demand && (env.state == OCUPADO || env.state == FALHOU))
  }

  lemma InOrderSnoc(queue: seq<Waiting>, q: Waiting, rows: seq<Row>)
    requires InOrder(queue) && Requested(queue, rows) && !Queued(queue, q.demand) && q.at == |rows|
    ensures InOrder(queue + [q])
  {
    forall i | 0 <= i < |queue| ensures queue[i].demand != q.demand && queue[i].at < q.at {
      assert queue[i] in queue;
    }
  }

  lemma Dropped(queue: seq<Waiting>, d: Option<string>)
    requires InOrder(queue)
    ensures InOrder(Drop(queue, d)) && forall q :: q in Drop(queue, d) <==> q in queue && Some(q.demand) != d
  {
    hide Drop, InOrder;
    DropKeepsOrder(queue, d);
    forall q ensures q in Drop(queue, d) <==> q in queue && Some(q.demand) != d {
      DropMembers(queue, d, q);
    }
  }

  lemma RequestKeepsCoherent(env: Env, rows: seq<Row>, row: Row)
    requires Coherent(env) && Requested(env.queue, rows) && row.Request?
    ensures Coherent(OnRequest(env, |rows|, row))
  {
    hide Drop, InOrder, Requested, Queued;
    var action, demand := row.action, row.demand;
    if action == "publish" && demand.Some? {
      if !Queued(env.queue, demand.value) {
        InOrderSnoc(env.queue, Waiting(demand.value, |rows|), rows);
      }
    } else if action == "cancel" && demand.Some? {
      Dropped(env.queue, demand);
    }
  }

  lemma StepKeepsCoherent(env: Env, rows: seq<Row>, row: Row)
    requires Coherent(env) && Requested(env.queue, rows) && !Nameless(env, row)
    ensures Coherent(Step(env, |rows|, row))
  {
    hide Drop, OnRequest, InOrder, Requested;
    match row
    case Request(_, _, _, _) => RequestKeepsCoherent(env, rows, row);
    case Publishing(d, _) => Dropped(env.queue, d);
    case Released(d) => Dropped(env.queue, d);
    case _ =>
  }

  lemma StepKeepsRequested(env: Env, rows: seq<Row>, row: Row)
    requires Requested(env.queue, rows)
    ensures Requested(Step(env, |rows|, row).queue, rows + [row])
  {
    hide Drop;
    forall d, q ensures q in Drop(env.queue, d) ==> q in env.queue {
      DropMembers(env.queue, d, q);
    }
  }

  lemma DeriveSnoc(rows: seq<Row>, row: Row)
    ensures Derive(rows + [row]) == Step(Derive(rows), |rows|, row)
  {
    hide Step;
    assert (rows + [row])[..|rows|] == rows;
  }

  lemma NamedPrefix(rows: seq<Row>, n: nat)
    requires Named(rows) && n <= |rows|
    ensures Named(rows[..n])
  {
    hide Derive, Nameless;
    forall i | 0 <= i < n ensures !Nameless(Derive(rows[..n][..i]), rows[..n][i]) {
      assert rows[..n][..i] == rows[..i];
    }
  }

  /**
   * In every log in which no publication is nameless: the environment is free exactly when it has no occupant; the
   * queue holds each demand once, in request order, and never the occupant; a pending republication is the occupant's.
   */
  lemma {:induction false} DeriveIsCoherent(rows: seq<Row>)
    requires Named(rows)
    ensures Coherent(Derive(rows)) && Requested(Derive(rows).queue, rows)
  {
    hide Step, Coherent, Requested, Nameless;
    if rows == [] {
      assert Coherent(EMPTY) && Requested([], []) by { EmptyIsCoherent(); }
    } else {
      var front, row := rows[..|rows| - 1], rows[|rows| - 1];
      assert rows == front + [row];
      NamedPrefix(rows, |front|);
      DeriveIsCoherent(front);
      assert !Nameless(Derive(rows[..|front|]), rows[|front|]);
      StepKeepsCoherent(Derive(front), front, row);
      StepKeepsRequested(Derive(front), front, row);
    }
  }

  lemma EmptyIsCoherent()
    ensures Coherent(EMPTY) && Requested([], [])
  {
  }

  lemma NamelessIsIncoherent(env: Env, at: nat, row: Row)
    requires Coherent(env) && Nameless(env, row)
    ensures !Coherent(Step(env, at, row))
  {
    hide Drop, InOrder;
  }

  /** Exactly then: the state is coherent after every prefix if and only if no publication is nameless. */
  lemma CoherentIff(rows: seq<Row>)
    ensures (forall n :: 0 <= n <= |rows| ==> Coherent(Derive(rows[..n]))) <==> Named(rows)
  {
    hide Derive, Step, Coherent, Nameless;
    if Named(rows) {
      forall n | 0 <= n <= |rows| ensures Coherent(Derive(rows[..n])) {
        NamedPrefix(rows, n);
        DeriveIsCoherent(rows[..n]);
      }
    } else {
      var i :| 0 <= i < |rows| && Nameless(Derive(rows[..i]), rows[i]);
      DeriveSnoc(rows[..i], rows[i]);
      assert rows[..i] + [rows[i]] == rows[..i + 1];
      if Coherent(Derive(rows[..i])) {
        NamelessIsIncoherent(Derive(rows[..i]), i, rows[i]);
      }
    }
  }

  /** A publication without a demand occupies the environment with nobody. */
  lemma NamelessPublicationOccupies()
    ensures Derive([Publishing(None, None)]).state == PUBLICANDO && Derive([Publishing(None, None)]).demand.None?
  {
    assert [Publishing(None, None)][..0] == [];
  }

  // ---------------------------------------------------------------- queries

  function LastReview(rows: seq<Row>, d: string): Option<Row> {
    if rows == [] then None
    else if rows[|rows| - 1].Review? && rows[|rows| - 1].demand == Some(d) then Some(rows[|rows| - 1])
    else LastReview(rows[..|rows| - 1], d)
  }

  /** `open_review`: the last review, unless some row closes its pull request or its address. */
  function OpenReview(rows: seq<Row>, d: string): Option<Row> {
    match LastReview(rows, d)
    case None => None
    case Some(rv) =>
      if rv.Review? && exists e <- rows :: e.Closed? && e.demand == Some(d) && (e.pr == rv.pr || e.url == rv.url)
      then None else Some(rv)
  }

  /** `closed_reason`: whether the last row that could close the demand exists. */
  predicate IsClosed(rows: seq<Row>, d: string) {
    exists e <- rows :: (e.Closed? || e.Canceled?) && e.demand == Some(d)
  }

  /** A queue entry `reconcile` keeps: not closed, and with an open review. */
  predicate Live(rows: seq<Row>, d: string) {
    !IsClosed(rows, d) && OpenReview(rows, d).Some?
  }

  function LiveQueue(rows: seq<Row>, queue: seq<Waiting>): seq<Waiting> {
    if queue == [] then []
    else
      var front, last := LiveQueue(rows, queue[..|queue| - 1]), queue[|queue| - 1];
      if Live(rows, last.demand) then front + [last] else front
  }

  /** Rows written by the environment itself: they decide nothing about reviews. */
  predicate Own(row: Row) {
    row.Publishing? || row.Published? || row.Failed? || row.Released? || row.DataReset?
  }

  lemma OwnRowsAside(rows: seq<Row>, row: Row, d: string)
    requires Own(row)
    ensures OpenReview(rows + [row], d) == OpenReview(rows, d)
    ensures IsClosed(rows + [row], d) == IsClosed(rows, d)
  {
    assert (rows + [row])[..|rows|] == rows;
    assert forall e :: e in rows + [row] <==> e in rows || e == row;
  }
}
