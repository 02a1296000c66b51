/**
 * What the open alerts that are not about gates say about the log: reviews, conflicts, change requests and triage, in
 * terms of the rows alone.
 */
module AlertKinds {
  import opened Prelude
  import opened AlertRules
  import opened AlertMeaning

  // ---------------------------------------------------------------- the log, read as it stands

  predicate ClosesPr(e: Event, d: Demand, pr: Option<int>) {
    e.demand == d && (e.what == Delivered(pr) || e.what == ReviewRejected(pr))
  }

  /** Says that the pull request has a conflict, or no longer has one. */
  predicate Conflicts(e: Event, d: Demand, pr: Option<int>) {
    e.demand == d && d.Some? && (e.what == PrConflict(pr) || e.what == PrConflictCleared(pr))
  }

  predicate Reviews(e: Event, d: Demand, pr: Option<int>) {
    e.demand == d && e.what == Review(pr)
  }

  predicate Canceled(rows: seq<Event>, d: Demand) {
    d.Some? && exists e <- rows :: Cancels(e, d)
  }

  predicate PrClosed(rows: seq<Event>, d: Demand, pr: Option<int>) {
    exists e <- rows :: ClosesPr(e, d, pr)
  }

  /** The row at `p` is the last word on the conflict of its pull request. */
  predicate LastConflict(rows: seq<Event>, p: nat, d: Demand, pr: Option<int>) {
    p < |rows| && Conflicts(rows[p], d, pr) && forall k :: p < k < |rows| ==> !Conflicts(rows[k], d, pr)
  }

  predicate Validates(e: Event, d: Demand) {
    e.demand == d && d.Some? && e.what.Validation?
  }

  predicate LastValidation(rows: seq<Event>, p: nat, d: Demand) {
    p < |rows| && Validates(rows[p], d) && forall k :: p < k < |rows| ==> !Validates(rows[k], d)
  }

  /** Questions of triage without answer, and no start that overrides them. */
  predicate Asks(rows: seq<Event>, p: nat, d: Demand) {
    && LastValidation(rows, p, d) && rows[p].what == Validation("perguntas")
    && (forall e <- rows :: e.what != Clarification(Some(rows[p].id)))
    && (forall e <- rows :: e.demand == d ==> e.what != Start(true))
  }

  // ---------------------------------------------------------------- the engine's tables hold the log

  lemma PrStep(t: PrTable, e: Event, d: Demand, pr: Option<int>)
    ensures var u := ApplyPr(t, e);
            && Get(u.reviews, d) == Get(t.reviews, d) + (if e.demand == d && e.what.Review? then [e] else [])
            && (PrKey(d, pr) in u.closed <==> PrKey(d, pr) in t.closed || ClosesPr(e, d, pr))
            && (if Conflicts(e, d, pr) then PrKey(d, pr) in u.conflict && u.conflict[PrKey(d, pr)] == e
                else (PrKey(d, pr) in u.conflict <==> PrKey(d, pr) in t.conflict)
                     && (PrKey(d, pr) in t.conflict ==> u.conflict[PrKey(d, pr)] == t.conflict[PrKey(d, pr)]))
  {
  }

  lemma {:induction false} PrTableHolds(rows: seq<Event>, files: Files, d: Demand, pr: Option<int>)
    ensures var t := Run(rows, files).tables.prs;
            && (forall rv :: rv in Get(t.reviews, d) <==> rv in rows && rv.demand == d && rv.what.Review?)
            && (PrKey(d, pr) in t.closed <==> PrClosed(rows, d, pr))
            && (PrKey(d, pr) in t.conflict ==>
                 exists p: nat :: p < |rows| && LastConflict(rows, p, d, pr) && t.conflict[PrKey(d, pr)] == rows[p])
            && (PrKey(d, pr) !in t.conflict ==> forall k :: 0 <= k < |rows| ==> !Conflicts(rows[k], d, pr))
  {
    hide Step, ApplyGate, ApplyTriage, ApplyEnd, ApplyPr, ApplyRequest, ClosesPr, Conflicts, Get;
    if rows == [] {
      NoReviews(d);
    } else {
      var front, last := rows[..|rows| - 1], rows[|rows| - 1];
      PrTableHolds(front, files, d, pr);
      TablesOfRun(rows, files);
      PrStep(Run(front, files).tables.prs, last, d, pr);
      assert rows == front + [last];
      assert forall e :: e in rows <==> e in front || e == last;
      if Conflicts(last, d, pr) {
        assert LastConflict(rows, |front|, d, pr);
      } else if PrKey(d, pr) in Run(front, files).tables.prs.conflict {
        var p: nat :| && p < |front| && LastConflict(front, p, d, pr)
                      && Run(front, files).tables.prs.conflict[PrKey(d, pr)] == front[p];
        assert LastConflict(rows, p, d, pr) && rows[p] == front[p];
      }
    }
  }

  lemma NoReviews(d: Demand)
    ensures Get(NO_TABLES.prs.reviews, d) == []
  {
  }

  lemma RequestStep(t: RequestTable, e: Event, cr: string)
    ensures var u := ApplyRequest(t, e);
            && (cr in u.closed <==> cr in t.closed || e.what == Decision(Some(cr)))
            && (cr in u.order <==> cr in t.order || (e.what.ChangeRequest? && e.id == cr))
            && (if e.what.ChangeRequest? && e.id == cr then cr in u.requests && u.requests[cr] == e
                else (cr in u.requests <==> cr in t.requests)
                     && (cr in t.requests ==> u.requests[cr] == t.requests[cr]))
  {
  }

  lemma {:induction false} RequestTableHolds(rows: seq<Event>, files: Files, cr: string)
    ensures var t := Run(rows, files).tables.requests;
            && (cr in t.closed <==> exists e <- rows :: e.what == Decision(Some(cr)))
            && (cr in t.requests ==>
                 t.requests[cr] in rows && t.requests[cr].id == cr && t.requests[cr].what.ChangeRequest?)
            && ((exists e <- rows :: e.what.ChangeRequest? && e.id == cr) ==> cr in t.order && cr in t.requests)
  {
    hide Step, ApplyGate, ApplyTriage, ApplyEnd, ApplyPr, ApplyRequest;
    if rows != [] {
      var front, last := rows[..|rows| - 1], rows[|rows| - 1];
      RequestTableHolds(front, files, cr);
      TablesOfRun(rows, files);
      RequestStep(Run(front, files).tables.requests, last, cr);
      assert rows == front + [last];
      assert forall e :: e in rows <==> e in front || e == last;
    }
  }

  lemma TriageStep(t: TriageTable, e: Event, d: Demand, v: string)
    ensures var u := ApplyTriage(t, e);
            && Get(u.validations, d) == Get(t.validations, d) + (if Validates(e, d) then [e] else [])
            && (v in u.answered <==> v in t.answered || e.what == Clarification(Some(v)))
            && (d.Some? ==> (d in u.overridden <==> d in t.overridden || (e.demand == d && e.what == Start(true))))
  {
  }

  lemma {:induction false} TriageTableHolds(rows: seq<Event>, files: Files, d: Demand, v: string)
    requires d.Some?
    ensures var t := Run(rows, files).tables.triage;
            var vals := Get(t.validations, d);
            && (vals == [] ==> forall k :: 0 <= k < |rows| ==> !Validates(rows[k], d))
            && (vals != [] ==> exists p: nat :: LastValidation(rows, p, d) && vals[|vals| - 1] == rows[p])
            && (v in t.answered <==> exists e <- rows :: e.what == Clarification(Some(v)))
            && (d in t.overridden <==> exists e <- rows :: e.demand == d && e.what == Start(true))
  {
    hide Step, ApplyGate, ApplyTriage, ApplyEnd, ApplyPr, ApplyRequest, Validates, Get;
    if rows == [] {
      NoValidations(d);
    } else {
      var front, last := rows[..|rows| - 1], rows[|rows| - 1];
      TriageTableHolds(front, files, d, v);
      TablesOfRun(rows, files);
      var t := Run(front, files).tables.triage;
      TriageStep(t, last, d, v);
      assert rows == front + [last];
      assert forall e :: e in rows <==> e in front || e == last;
      var vals := Get(t.validations, d);
      if Validates(last, d) {
        assert LastValidation(rows, |front|, d);
      } else if vals != [] {
        var p: nat :| LastValidation(front, p, d) && vals[|vals| - 1] == front[p];
        assert vals + [] == vals && LastValidation(rows, p, d) && rows[p] == front[p];
      }
    }
  }

  lemma NoValidations(d: Demand)
    ensures Get(NO_TABLES.triage.validations, d) == []
  {
  }

  // ---------------------------------------------------------------- parts of a demand's evaluation

  /** The review's pull request is open and in the conflict of this event. */
  predicate Shows(t: PrTable, d: Demand, rv: Event, event: string)
    requires rv.what.Review?
  {
    PrKey(d, rv.what.pr) !in t.closed && Conflict(t, PrKey(d, rv.what.pr)) == Some(event)
  }

  lemma {:induction false} WaitingMembers(t: PrTable, d: Demand, reviews: seq<Event>, event: string)
    requires forall rv <- reviews :: rv.what.Review?
    ensures AlertId(PR_WAITING, event) in ReviewAlerts(t, d, reviews) <==>
            exists rv <- reviews :: rv.id == event && PrKey(d, rv.what.pr) !in t.closed
  {
    hide Conflict;
    if reviews != [] {
      var front, last := reviews[..|reviews| - 1], reviews[|reviews| - 1];
      WaitingMembers(t, d, front, event);
      assert forall e :: e in front + [last] <==> e in front || e == last;
      assert reviews == front + [last];
    }
  }

  lemma {:induction false} ConflictMembers(t: PrTable, d: Demand, reviews: seq<Event>, event: string)
    requires forall rv <- reviews :: rv.what.Review?
    ensures AlertId(PR_CONFLICT, event) in ReviewAlerts(t, d, reviews) <==>
            exists rv <- reviews :: Shows(t, d, rv, event)
  {
    hide Conflict;
    if reviews != [] {
      var front, last := reviews[..|reviews| - 1], reviews[|reviews| - 1];
      ConflictMembers(t, d, front, event);
      assert AlertId(PR_CONFLICT, event) in ReviewAlerts(t, d, reviews) <==>
             AlertId(PR_CONFLICT, event) in ReviewAlerts(t, d, front) || Shows(t, d, last, event);
      assert forall e :: e in front + [last] <==> e in front || e == last;
      assert reviews == front + [last];
    }
  }

  lemma {:induction false} RequestMembers(d: Demand, requests: seq<string>, event: string)
    ensures AlertId(CHANGE_REQUEST_OPEN, event) in RequestAlerts(d, requests) <==> event in requests
  {
    if requests != [] {
      RequestMembers(d, requests[..|requests| - 1], event);
    }
  }

  lemma {:induction false} OpenRequestMembers(t: RequestTable, d: Demand, order: seq<string>, cr: string)
    ensures cr in OpenRequests(t, d, order) <==>
            && cr in order && cr in t.requests && t.requests[cr].demand == d && cr !in t.closed
            && t.requests[cr].what.ChangeRequest? && t.requests[cr].what.to.Some?
  {
    if order != [] {
      OpenRequestMembers(t, d, order[..|order| - 1], cr);
    }
  }

  /** Alerts of each kind come from one part of the evaluation. */
  lemma ReviewPart(t: Tables, d: Demand, files: Files, aid: AlertId)
    requires aid.kind == PR_WAITING || aid.kind == PR_CONFLICT
    ensures aid in EvalDemand(t, d, files) <==>
            !(d.Some? && d in t.ends.canceled) && aid in ReviewAlerts(t.prs, d, Get(t.prs.reviews, d))
  {
    hide GateAlerts, ReviewAlerts, RequestAlerts, OpenRequests, KeysOf, HardClosed, Closed, OpenTriage, Get;
    NotOfGates(t, d, files, aid);
    NotRequested(d, OpenRequests(t.requests, d, t.requests.order), aid.event);
  }

  lemma RequestPart(t: Tables, d: Demand, files: Files, event: string)
    ensures AlertId(CHANGE_REQUEST_OPEN, event) in EvalDemand(t, d, files) <==>
            !Closed(t, d) && d.Some? && event in OpenRequests(t.requests, d, t.requests.order)
  {
    hide GateAlerts, ReviewAlerts, RequestAlerts, OpenRequests, KeysOf, HardClosed, Closed, OpenTriage, Get;
    NotOfGates(t, d, files, AlertId(CHANGE_REQUEST_OPEN, event));
    RequestMembers(d, OpenRequests(t.requests, d, t.requests.order), event);
    NotReviewed(t.prs, d, Get(t.prs.reviews, d), event);
  }

  lemma TriagePart(t: Tables, d: Demand, files: Files, event: string)
    ensures AlertId(TRIAGE_OPEN, event) in EvalDemand(t, d, files) <==>
            !Closed(t, d) && OpenTriage(t.triage, d) == Some(event)
  {
    hide GateAlerts, ReviewAlerts, RequestAlerts, OpenRequests, KeysOf, HardClosed, Closed, OpenTriage, Get;
    OnlyTriageAlerts(t, d, files, AlertId(TRIAGE_OPEN, event));
  }

  lemma NotOfGates(t: Tables, d: Demand, files: Files, aid: AlertId)
    requires !OfGates(aid.kind)
    ensures aid !in GateAlerts(t.gates, KeysOf(t.gates.order, d), Closed(t, d), files)
  {
    if aid in GateAlerts(t.gates, KeysOf(t.gates.order, d), Closed(t, d), files) {
      var key := GateAlertFrom(t.gates, KeysOf(t.gates.order, d), Closed(t, d), files, aid);
    }
  }

  lemma {:induction false} NotRequested(d: Demand, requests: seq<string>, event: string)
    ensures AlertId(PR_WAITING, event) !in RequestAlerts(d, requests)
    ensures AlertId(PR_CONFLICT, event) !in RequestAlerts(d, requests)
  {
    if requests != [] {
      NotRequested(d, requests[..|requests| - 1], event);
    }
  }

  lemma {:induction false} NotReviewed(t: PrTable, d: Demand, reviews: seq<Event>, event: string)
    ensures AlertId(CHANGE_REQUEST_OPEN, event) !in ReviewAlerts(t, d, reviews)
  {
    if reviews != [] {
      NotReviewed(t, d, reviews[..|reviews| - 1], event);
    }
  }

  /** An alert about a row is called for in the row's own demand, or in none. */
  lemma OwnDemand(rows: seq<Event>, files: Files, p: nat, aid: AlertId)
    requires UniqueIds(rows) && p < |rows| && aid.event == rows[p].id && aid.kind != TRIAGE_OPEN
    ensures aid in Run(rows, files).open <==> aid in EvalDemand(Run(rows, files).tables, rows[p].demand, files)
  {
    hide Run, UniqueIds, EvalDemand, Filed;
    OthersAreFromScratch(rows, files, aid);
    RunIsFiled(rows, files);
    var t := Run(rows, files).tables;
    if d: Demand :| aid in EvalDemand(t, d, files) {
      EvalDemandOwned(t, d, files, rows);
      assert Owns(rows, rows[p].id, rows[p].demand);
      OneOwner(rows, rows[p].id, d, rows[p].demand);
    }
  }

  // ---------------------------------------------------------------- what an open alert means

  /** A review waits if and only if its pull request is neither closed nor its demand canceled. */
  lemma WaitingIff(rows: seq<Event>, files: Files, p: nat)
    requires UniqueIds(rows) && p < |rows| && rows[p].what.Review?
    ensures AlertId(PR_WAITING, rows[p].id) in Run(rows, files).open <==>
            !Canceled(rows, rows[p].demand) && !PrClosed(rows, rows[p].demand, rows[p].what.pr)
  {
    hide Run, UniqueIds, EvalDemand, ReviewAlerts, Get;
    var t, d, e := Run(rows, files).tables, rows[p].demand, rows[p];
    assert e in rows;
    OwnDemand(rows, files, p, AlertId(PR_WAITING, e.id));
    ReviewPart(t, d, files, AlertId(PR_WAITING, e.id));
    EndTableHolds(rows, files, d);
    PrTableHolds(rows, files, d, e.what.pr);
    WaitingMembers(t.prs, d, Get(t.prs.reviews, d), e.id);
    assert e in Get(t.prs.reviews, d);
    forall rv | rv in Get(t.prs.reviews, d) && rv.id == e.id ensures rv == e {
      SameRow(rows, p, rv);
    }
    assert Canceled(rows, d) <==> d.Some? && d in t.ends.canceled;
  }

  lemma SameRow(rows: seq<Event>, p: nat, e: Event)
    requires UniqueIds(rows) && p < |rows| && e in rows && e.id == rows[p].id
    ensures e == rows[p]
  {
    var q :| 0 <= q < |rows| && rows[q] == e;
  }

  /**
   * A conflict is shown if and only if it is the last word on a pull request that was under review and is not closed,
   * of a demand that is not canceled.
   */
  lemma ConflictIff(rows: seq<Event>, files: Files, p: nat)
    requires UniqueIds(rows) && p < |rows| && rows[p].what.PrConflict?
    ensures var d, pr := rows[p].demand, rows[p].what.pr;
            AlertId(PR_CONFLICT, rows[p].id) in Run(rows, files).open <==>
            && LastConflict(rows, p, d, pr) && (exists e <- rows :: Reviews(e, d, pr))
            && !PrClosed(rows, d, pr) && !Canceled(rows, d)
  {
    hide Run, UniqueIds, EvalDemand, ReviewAlerts, Get, LastConflict, PrClosed;
    var t, d, e := Run(rows, files).tables, rows[p].demand, rows[p];
    OwnDemand(rows, files, p, AlertId(PR_CONFLICT, e.id));
    ReviewPart(t, d, files, AlertId(PR_CONFLICT, e.id));
    EndTableHolds(rows, files, d);
    PrTableHolds(rows, files, d, e.what.pr);
    ConflictMembers(t.prs, d, Get(t.prs.reviews, d), e.id);
    if rv :| rv in Get(t.prs.reviews, d) && Shows(t.prs, d, rv, e.id) {
      PrTableHolds(rows, files, d, rv.what.pr);
      var q: nat :| && q < |rows| && LastConflict(rows, q, d, rv.what.pr)
                    && t.prs.conflict[PrKey(d, rv.what.pr)] == rows[q];
      SameConflict(rows, p, q, d, rv.what.pr);
      assert Reviews(rv, d, e.what.pr);
    }
    if LastConflict(rows, p, d, e.what.pr) {
      HasConflict(rows, files, p, d, e.what.pr);
      if rv :| rv in rows && Reviews(rv, d, e.what.pr) {
        assert rv in Get(t.prs.reviews, d);
      }
    }
  }

  lemma SameConflict(rows: seq<Event>, p: nat, q: nat, d: Demand, pr: Option<int>)
    requires UniqueIds(rows) && p < |rows| && LastConflict(rows, q, d, pr) && rows[p].id == rows[q].id
    requires rows[p].what.PrConflict?
    ensures p == q && rows[p].what.pr == pr
  {
  }

  lemma HasConflict(rows: seq<Event>, files: Files, p: nat, d: Demand, pr: Option<int>)
    requires LastConflict(rows, p, d, pr) && rows[p].what.PrConflict?
    ensures Conflict(Run(rows, files).tables.prs, PrKey(d, pr)) == Some(rows[p].id)
  {
    hide Run;
    PrTableHolds(rows, files, d, pr);
    var t := Run(rows, files).tables.prs;
    assert Conflicts(rows[p], d, pr);
    var q: nat :| LastConflict(rows, q, d, pr) && t.conflict[PrKey(d, pr)] == rows[q];
    SameLast(rows, p, q, d, pr);
  }

  lemma SameLast(rows: seq<Event>, p: nat, q: nat, d: Demand, pr: Option<int>)
    requires LastConflict(rows, p, d, pr) && LastConflict(rows, q, d, pr)
    ensures p == q
  {
  }

  /** A change request is open if and only if it is addressed, undecided, and its demand goes on. */
  lemma RequestIff(rows: seq<Event>, files: Files, p: nat)
    requires UniqueIds(rows) && p < |rows| && rows[p].what.ChangeRequest?
    ensures var d := rows[p].demand;
            AlertId(CHANGE_REQUEST_OPEN, rows[p].id) in Run(rows, files).open <==>
            && d.Some? && rows[p].what.to.Some? && !Over(rows, d) && !Finished(rows, d)
            && forall e <- rows :: e.what != Decision(Some(rows[p].id))
  {
    hide Run, UniqueIds, EvalDemand, OpenRequests, Over, Finished, Closed, HardClosed;
    var t, d, e := Run(rows, files).tables, rows[p].demand, rows[p];
    OwnDemand(rows, files, p, AlertId(CHANGE_REQUEST_OPEN, e.id));
    RequestPart(t, d, files, e.id);
    EndTableHolds(rows, files, d);
    RequestTableHolds(rows, files, e.id);
    OpenRequestMembers(t.requests, d, t.requests.order, e.id);
    assert e in rows;
    SameRow(rows, p, t.requests.requests[e.id]);
  }

  /**
   * Questions of triage are shown if and only if they are unanswered in a demand that goes on, or were answered by a
   * clarification filed elsewhere since the demand was last evaluated.
   */
  lemma TriageIff(rows: seq<Event>, files: Files, p: nat)
    requires UniqueIds(rows) && p < |rows| && rows[p].what.Validation?
    ensures var d := rows[p].demand;
            AlertId(TRIAGE_OPEN, rows[p].id) in Run(rows, files).open <==>
            (Asks(rows, p, d) && !Over(rows, d) && !Finished(rows, d)) || Stale(rows, files, d) == Some(rows[p].id)
  {
    hide Run, UniqueIds, EvalDemand, Stale, Over, Finished, Closed, HardClosed, OpenTriage, Asks;
    var s, d, id := Run(rows, files), rows[p].demand, AlertId(TRIAGE_OPEN, rows[p].id);
    OpenIsExact(rows, files, d);
    TriagePart(s.tables, d, files, rows[p].id);
    EndTableHolds(rows, files, d);
    OpenTriageMeans(rows, files, p);
    assert id in With(EvalDemand(s.tables, d, files), d, Stale(rows, files, d)) <==>
           id in EvalDemand(s.tables, d, files) || Stale(rows, files, d) == Some(rows[p].id);
    if id in s.open {
      TriageOwner(rows, files, p);
      assert id in OpenOf(s.open, d);
    }
  }

  lemma TriageOwner(rows: seq<Event>, files: Files, p: nat)
    requires UniqueIds(rows) && p < |rows| && AlertId(TRIAGE_OPEN, rows[p].id) in Run(rows, files).open
    ensures Run(rows, files).open[AlertId(TRIAGE_OPEN, rows[p].id)].demand == rows[p].demand
  {
    hide Run, UniqueIds, EvalDemand, Stale, Filed;
    var s, id := Run(rows, files), AlertId(TRIAGE_OPEN, rows[p].id);
    var d := s.open[id].demand;
    OpenIsExact(rows, files, d);
    RunIsFiled(rows, files);
    EvalDemandOwned(s.tables, d, files, rows);
    assert id in OpenOf(s.open, d);
    assert Owns(rows, rows[p].id, d);
    assert Owns(rows, rows[p].id, rows[p].demand);
    OneOwner(rows, rows[p].id, d, rows[p].demand);
  }

  /** A validation that is not its demand's last one asks nothing. */
  lemma OnlyTheLastAsks(rows: seq<Event>, p: nat, q: nat, d: Demand)
    requires p < |rows| && LastValidation(rows, q, d) && p != q && Validates(rows[p], d)
    ensures !Asks(rows, p, d)
  {
  }

  lemma OpenTriageMeans(rows: seq<Event>, files: Files, p: nat)
    requires UniqueIds(rows) && p < |rows| && rows[p].what.Validation?
    ensures OpenTriage(Run(rows, files).tables.triage, rows[p].demand) == Some(rows[p].id) <==>
            Asks(rows, p, rows[p].demand)
  {
    var t, d := Run(rows, files).tables.triage, rows[p].demand;
    var vals := Get(t.validations, d);
    if d.None? {
      return;
    }
    assert Validates(rows[p], d);
    hide Run, UniqueIds, Validates, Get, LastValidation;
    TriageTableHolds(rows, files, d, rows[p].id);
    var q: nat :| LastValidation(rows, q, d) && vals[|vals| - 1] == rows[q];
    InLog(rows, q, d);
    if q == p {
      assert OpenTriage(t, d) == Some(rows[p].id) <==> Asks(rows, p, d);
    } else {
      OnlyTheLastAsks(rows, p, q, d);
      if rows[q].id == rows[p].id {
        SamePosition(rows, p, q);
      }
    }
  }

  lemma InLog(rows: seq<Event>, q: nat, d: Demand)
    requires LastValidation(rows, q, d)
    ensures q < |rows|
  {
  }

  lemma SamePosition(rows: seq<Event>, p: nat, q: nat)
    requires UniqueIds(rows) && p < |rows| && q < |rows| && rows[p].id == rows[q].id
    ensures p == q
  {
  }
}
