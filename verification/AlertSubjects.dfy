/**
 * What the open alerts are about: each stands for a row of its demand that can raise its kind.
 */
module AlertSubjects {
  import opened Prelude
  import opened AlertRules
  import opened AlertMeaning
  import opened AlertKinds

  /** What a row says that an alert of this kind can be about. */
  predicate About(w: What, kind: Kind) {
    match kind
    case PR_WAITING => w.Review?
    case PR_CONFLICT => w.PrConflict?
    case CHANGE_REQUEST_OPEN => w.ChangeRequest?
    case TRIAGE_OPEN => w == Validation("perguntas")
    case _ => w.Gate?
  }

  /** The alert stands for a row of the demand, of its kind; outside the gates it has that one kind. */
  predicate Stands(a: Alert, aid: AlertId, rows: seq<Event>, d: Demand) {
    && a.id == aid && a.demand == d && aid.kind in a.kinds
    && (!OfGates(aid.kind) ==> a == Alert(aid, [aid.kind], d, 0))
    && exists e <- rows :: e.id == aid.event && e.demand == d && About(e.what, aid.kind)
  }

  predicate AllStand(alerts: map<AlertId, Alert>, rows: seq<Event>, d: Demand) {
    forall aid <- alerts :: Stands(alerts[aid], aid, rows, d)
  }

  lemma SumStands(a: map<AlertId, Alert>, b: map<AlertId, Alert>, rows: seq<Event>, d: Demand)
    requires AllStand(a, rows, d) && AllStand(b, rows, d)
    ensures AllStand(a + b, rows, d)
  {
    hide Stands;
  }

  lemma OneStands(a: Alert, e: Event, rows: seq<Event>, d: Demand)
    requires e in rows && e.id == a.id.event && e.demand == d && a.demand == d && About(e.what, a.id.kind)
    requires a.id.kind in a.kinds && (!OfGates(a.id.kind) ==> a.kinds == [a.id.kind] && a.returned == 0)
    ensures Stands(a, a.id, rows, d)
  {
  }

  lemma {:induction false} GateAlertsStand(
    t: GateTable, keys: seq<GateKey>, onlyG3: bool, files: Files, rows: seq<Event>, d: Demand)
    requires GatesFiled(t, rows) && forall key <- keys :: key.demand == d
    ensures AllStand(GateAlerts(t, keys, onlyG3, files), rows, d)
  {
    hide Stands, Returns, HumanAfter, IsLow, GateKinds;
    if keys != [] {
      var key := keys[|keys| - 1];
      GateAlertsStand(t, keys[..|keys| - 1], onlyG3, files, rows, d);
      assert key in keys;
      var here := EvalGate(key, Get(t.verdicts, key), Get(t.humans, key), onlyG3, files);
      if here.Some? {
        EvalGateShape(key, Get(t.verdicts, key), Get(t.humans, key), onlyG3, files);
        var g := Get(t.verdicts, key)[|Get(t.verdicts, key)| - 1];
        assert g in t.verdicts[key];
        OneStands(here.value, g.event, rows, d);
      }
    }
  }

  lemma {:induction false} ReviewAlertsStand(t: PrTable, d: Demand, reviews: seq<Event>, rows: seq<Event>)
    requires PrsFiled(t, rows) && forall rv <- reviews :: rv in rows && rv.demand == d
    ensures AllStand(ReviewAlerts(t, d, reviews), rows, d)
  {
    hide Stands;
    if reviews != [] {
      var rv := reviews[|reviews| - 1];
      assert rv in reviews;
      ReviewAlertsStand(t, d, reviews[..|reviews| - 1], rows);
      if rv.what.Review? {
        OneStands(Alert(AlertId(PR_WAITING, rv.id), [PR_WAITING], d, 0), rv, rows, d);
        var key := PrKey(d, rv.what.pr);
        if Conflict(t, key).Some? {
          OneStands(Alert(AlertId(PR_CONFLICT, t.conflict[key].id), [PR_CONFLICT], d, 0), t.conflict[key], rows, d);
        }
      }
    }
  }

  lemma {:induction false} RequestAlertsStand(t: RequestTable, d: Demand, requests: seq<string>, rows: seq<Event>)
    requires RequestsFiled(t, rows) && forall cr <- requests :: cr in OpenRequests(t, d, t.order)
    ensures AllStand(RequestAlerts(d, requests), rows, d)
  {
    hide Stands;
    if requests != [] {
      var cr := requests[|requests| - 1];
      assert cr in requests;
      OpenRequestMembers(t, d, t.order, cr);
      RequestAlertsStand(t, d, requests[..|requests| - 1], rows);
      OneStands(Alert(AlertId(CHANGE_REQUEST_OPEN, cr), [CHANGE_REQUEST_OPEN], d, 0), t.requests[cr], rows, d);
    }
  }

  lemma TriageStands(t: TriageTable, d: Demand, rows: seq<Event>)
    requires TriageFiled(t, rows)
    ensures AllStand(TriageAlerts(d, OpenTriage(t, d)), rows, d)
  {
    if OpenTriage(t, d).Some? {
      var vals := t.validations[d];
      var v := vals[|vals| - 1];
      assert v in vals;
      OneStands(Alert(AlertId(TRIAGE_OPEN, v.id), [TRIAGE_OPEN], d, 0), v, rows, d);
    }
  }

  lemma NoneStand(rows: seq<Event>, d: Demand)
    ensures AllStand(map[], rows, d)
  {
  }

  lemma EvalDemandStands(t: Tables, d: Demand, files: Files, rows: seq<Event>)
    requires Filed(t, rows)
    ensures AllStand(EvalDemand(t, d, files), rows, d)
  {
    hide GateAlerts, TriageAlerts, ReviewAlerts, RequestAlerts, OpenRequests, KeysOf, OpenTriage, Closed, HardClosed;
    hide AllStand, GatesFiled, TriageFiled, RequestsFiled;
    var closed := Closed(t, d);
    NoneStand(rows, d);
    forall key | key in KeysOf(t.gates.order, d) ensures key.demand == d {
      KeysOfMembers(t.gates.order, d, key);
    }
    GateAlertsStand(t.gates, KeysOf(t.gates.order, d), closed, files, rows, d);
    TriageStands(t.triage, d, rows);
    ReviewAlertsStand(t.prs, d, Get(t.prs.reviews, d), rows);
    RequestAlertsStand(t.requests, d, OpenRequests(t.requests, d, t.requests.order), rows);
    var gates := if HardClosed(t, d) then map[] else GateAlerts(t.gates, KeysOf(t.gates.order, d), closed, files);
    var triage := if closed then map[] else TriageAlerts(d, OpenTriage(t.triage, d));
    var prs := if d.Some? && d in t.ends.canceled then map[] else ReviewAlerts(t.prs, d, Get(t.prs.reviews, d));
    var requests :=
      if closed || d.None? then map[] else RequestAlerts(d, OpenRequests(t.requests, d, t.requests.order));
    SumStands(gates, triage, rows, d);
    SumStands(gates + triage, prs, rows, d);
    SumStands(gates + triage + prs, requests, rows, d);
  }

  /** A stale triage is about questions of the demand, too. */
  lemma {:induction false} StaleStands(rows: seq<Event>, files: Files, d: Demand)
    ensures AllStand(TriageAlerts(d, Stale(rows, files, d)), rows, d)
  {
    hide Run, Apply, Target, Closed, OpenTriage, GatesFiled, TriageFiled, PrsFiled, RequestsFiled;
    if rows != [] {
      var front, e := rows[..|rows| - 1], rows[|rows| - 1];
      assert rows == front + [e];
      StaleStands(front, files, d);
      RunIsFiled(front, files);
      TriageStands(Run(front, files).tables.triage, d, front);
    }
  }

  /**
   * Every open alert is about a row of its demand that can raise its kind: a verdict, a review, a conflict in force, a
   * change request or questions of triage; outside the gates it has that one kind and counts no returns.
   */
  lemma AlertsAreAbout(rows: seq<Event>, files: Files, aid: AlertId)
    requires UniqueIds(rows) && aid in Run(rows, files).open
    ensures var a := Run(rows, files).open[aid];
            && a.id == aid && aid.kind in a.kinds && (!OfGates(aid.kind) ==> a == Alert(aid, [aid.kind], a.demand, 0))
            && exists e <- rows :: e.id == aid.event && e.demand == a.demand && About(e.what, aid.kind)
  {
    hide Run, UniqueIds, EvalDemand, Stale, Filed, TriageAlerts, About;
    var s := Run(rows, files);
    var d := s.open[aid].demand;
    OpenIsExact(rows, files, d);
    RunIsFiled(rows, files);
    EvalDemandStands(s.tables, d, files, rows);
    StaleStands(rows, files, d);
    SumStands(EvalDemand(s.tables, d, files), TriageAlerts(d, Stale(rows, files, d)), rows, d);
    assert aid in OpenOf(s.open, d);
    assert Stands(s.open[aid], aid, rows, d);
  }
}
