/**
 * What the open alerts of a gate say about the log: when each kind is open, in terms of the rows alone, without the
 * tables, indices and incremental evaluation of the engine.
 */
module AlertMeaning {
  import opened Prelude
  import opened AlertRules

  // ---------------------------------------------------------------- the log, read as it stands

  predicate IsVerdict(e: Event, key: GateKey) {
    e.demand == key.demand && e.what.Gate? && e.what.gate == Some(key.gate)
  }

  predicate IsDecision(e: Event, key: GateKey) {
    e.demand == key.demand && e.what.Human? && e.what.gate == Some(key.gate)
  }

  /** The verdict at `p` is the gate's last one. */
  predicate IsLatest(rows: seq<Event>, p: nat, key: GateKey) {
    p < |rows| && IsVerdict(rows[p], key) && forall k :: p < k < |rows| ==> !IsVerdict(rows[k], key)
  }

  predicate Decided(rows: seq<Event>, p: nat, key: GateKey) {
    exists k :: p < k < |rows| && IsDecision(rows[k], key)
  }

  predicate DecidedAs(rows: seq<Event>, p: nat, key: GateKey, verdicts: set<string>) {
    exists k :: p < k < |rows| && IsDecision(rows[k], key) && rows[k].what.recommendation in verdicts
  }

  /** RETURN verdicts of the gate since its last human decision. */
  function ReturnsSince(rows: seq<Event>, key: GateKey): nat {
    if rows == [] then 0
    else
      var front, last := rows[..|rows| - 1], rows[|rows| - 1];
      if IsDecision(last, key) then 0
      else ReturnsSince(front, key) + (if IsVerdict(last, key) && last.what.recommendation == "RETURN" then 1 else 0)
  }

  function VerdictCount(rows: seq<Event>, key: GateKey): nat {
    if rows == [] then 0
    else VerdictCount(rows[..|rows| - 1], key) + (if IsVerdict(rows[|rows| - 1], key) then 1 else 0)
  }

  predicate Cancels(e: Event, d: Demand) {
    e.demand == d && e.what == Control("cancel")
  }

  predicate Delivers(e: Event, d: Demand) {
    e.demand == d && e.what.Delivered?
  }

  predicate Approves(e: Event, d: Demand) {
    IsVerdict(e, GateKey(d, "G3")) && e.what.recommendation == "APPROVE"
  }

  /** The demand was canceled or delivered. */
  predicate Over(rows: seq<Event>, d: Demand) {
    d.Some? && exists e <- rows :: Cancels(e, d) || Delivers(e, d)
  }

  /** The demand was approved at its last gate and never had a pull request under review. */
  predicate Finished(rows: seq<Event>, d: Demand) {
    && d.Some? && (exists e <- rows :: Approves(e, d))
    && forall e <- rows :: e.demand == d ==> !e.what.Review?
  }

  /** A reported confidence below 0.70, rounding aside. */
  predicate IsUnsure(g: What)
    requires g.Gate?
  {
    match g.confidence
    case Some(c) => c + 0.000000001 < 0.70
    case None => false
  }

  /** Whether the log calls for an alert of this kind about the verdict at `p`. */
  predicate Calls(rows: seq<Event>, files: Files, p: nat, key: GateKey, kind: Kind) {
    && IsLatest(rows, p, key) && !Over(rows, key.demand) && (Finished(rows, key.demand) ==> key.gate == "G3")
    && var g := rows[p].what;
    match kind
    case CYCLE_LIMIT => !Decided(rows, p, key) && ReturnsSince(rows, key) >= 3
    case HUMAN_REQUIRED =>
      && !Decided(rows, p, key) && ReturnsSince(rows, key) < 3
      && (files(key, rows[p], VerdictCount(rows, key)) || g.humanRequired || g.risk == "alto" || IsUnsure(g))
    case GATE_RETURN =>
      !Finished(rows, key.demand) && g.recommendation == "RETURN" && !DecidedAs(rows, p, key, {"OVERRIDE"})
    case LOW_CONFIDENCE =>
      !Finished(rows, key.demand) && IsUnsure(g) && DecidedAs(rows, p, key, {"APPROVE", "OVERRIDE"})
    case _ => false
  }

  predicate OfGates(kind: Kind) {
    kind == CYCLE_LIMIT || kind == HUMAN_REQUIRED || kind == GATE_RETURN || kind == LOW_CONFIDENCE
  }

  // ---------------------------------------------------------------- the engine's tables hold the log

  function Verdicts(rows: seq<Event>, key: GateKey): seq<Indexed> {
    if rows == [] then []
    else
      Verdicts(rows[..|rows| - 1], key)
      + (if IsVerdict(rows[|rows| - 1], key) then [Indexed(|rows| - 1, rows[|rows| - 1])] else [])
  }

  function Decisions(rows: seq<Event>, key: GateKey): seq<Indexed> {
    if rows == [] then []
    else
      Decisions(rows[..|rows| - 1], key)
      + (if IsDecision(rows[|rows| - 1], key) then [Indexed(|rows| - 1, rows[|rows| - 1])] else [])
  }

  lemma TablesOfRun(rows: seq<Event>, files: Files)
    requires rows != []
    ensures Run(rows, files).tables == Apply(Run(rows[..|rows| - 1], files).tables, |rows| - 1, rows[|rows| - 1])
  {
    hide Step;
    StepTables(Run(rows[..|rows| - 1], files), |rows| - 1, rows[|rows| - 1], files);
  }

  lemma GateStep(t: GateTable, i: nat, e: Event, key: GateKey)
    ensures var u := ApplyGate(t, i, e);
            && Get(u.verdicts, key) == Get(t.verdicts, key) + (if IsVerdict(e, key) then [Indexed(i, e)] else [])
            && Get(u.humans, key) == Get(t.humans, key) + (if IsDecision(e, key) then [Indexed(i, e)] else [])
            && (key in u.order <==> key in t.order || IsVerdict(e, key))
  {
  }

  lemma {:induction false} GateTableHolds(rows: seq<Event>, files: Files, key: GateKey)
    ensures var t := Run(rows, files).tables.gates;
            && Get(t.verdicts, key) == Verdicts(rows, key) && Get(t.humans, key) == Decisions(rows, key)
            && (key in t.order <==> Verdicts(rows, key) != [])
  {
    hide Step, ApplyGate, ApplyTriage, ApplyEnd, ApplyPr, ApplyRequest, IsVerdict, IsDecision, Get;
    if rows == [] {
      NothingFiled(key);
    } else {
      var front, last := rows[..|rows| - 1], rows[|rows| - 1];
      GateTableHolds(front, files, key);
      TablesOfRun(rows, files);
      GateStep(Run(front, files).tables.gates, |front|, last, key);
    }
  }

  lemma NothingFiled(key: GateKey)
    ensures Get(NO_TABLES.gates.verdicts, key) == [] && Get(NO_TABLES.gates.humans, key) == []
  {
  }

  lemma EndTableHolds(rows: seq<Event>, files: Files, d: Demand)
    ensures var t := Run(rows, files).tables;
            && (HardClosed(t, d) <==> Over(rows, d))
            && (d in t.ends.canceled <==> d.Some? && exists e <- rows :: Cancels(e, d))
            && (Closed(t, d) <==> Over(rows, d) || Finished(rows, d))
  {
    hide Run, IsVerdict;
    EndsHold(rows, files, d);
    ReviewsHold(rows, files, d);
  }

  lemma EndStep(t: EndTable, e: Event, d: Demand)
    ensures var u := ApplyEnd(t, e);
            && (d in u.canceled <==> d in t.canceled || (d.Some? && Cancels(e, d)))
            && (d in u.delivered <==> d in t.delivered || (d.Some? && Delivers(e, d)))
            && (d in u.g3Approved <==> d in t.g3Approved || (d.Some? && Approves(e, d)))
  {
  }

  lemma {:induction false} EndsHold(rows: seq<Event>, files: Files, d: Demand)
    ensures var t := Run(rows, files).tables.ends;
            && (d in t.canceled <==> d.Some? && exists e <- rows :: Cancels(e, d))
            && (d in t.delivered <==> d.Some? && exists e <- rows :: Delivers(e, d))
            && (d in t.g3Approved <==> d.Some? && exists e <- rows :: Approves(e, d))
  {
    hide Step, ApplyGate, ApplyTriage, ApplyEnd, ApplyPr, ApplyRequest, Cancels, Delivers, Approves;
    if rows != [] {
      var front, last := rows[..|rows| - 1], rows[|rows| - 1];
      EndsHold(front, files, d);
      TablesOfRun(rows, files);
      EndStep(Run(front, files).tables.ends, last, d);
      assert rows == front + [last];
      assert forall e :: e in rows <==> e in front || e == last;
    }
  }

  lemma ReviewStep(t: PrTable, e: Event, d: Demand)
    ensures Get(ApplyPr(t, e).reviews, d) == [] <==> Get(t.reviews, d) == [] && (e.demand == d ==> !e.what.Review?)
  {
  }

  lemma {:induction false} ReviewsHold(rows: seq<Event>, files: Files, d: Demand)
    ensures Get(Run(rows, files).tables.prs.reviews, d) == [] <==> forall e <- rows :: e.demand == d ==> !e.what.Review?
  {
    hide Step, ApplyGate, ApplyTriage, ApplyEnd, ApplyPr, ApplyRequest;
    if rows != [] {
      var front, last := rows[..|rows| - 1], rows[|rows| - 1];
      ReviewsHold(front, files, d);
      TablesOfRun(rows, files);
      ReviewStep(Run(front, files).tables.prs, last, d);
      assert rows == front + [last];
      assert forall e :: e in rows <==> e in front || e == last;
    }
  }

  // ---------------------------------------------------------------- indices and rows

  lemma {:induction false} LastVerdict(rows: seq<Event>, key: GateKey)
    ensures |Verdicts(rows, key)| == VerdictCount(rows, key)
    ensures Verdicts(rows, key) == [] ==> forall k :: 0 <= k < |rows| ==> !IsVerdict(rows[k], key)
    ensures var vs := Verdicts(rows, key);
            vs != [] ==>
              var last := vs[|vs| - 1]; IsLatest(rows, last.at, key) && last.event == rows[last.at]
  {
    hide IsVerdict;
    if rows != [] {
      LastVerdict(rows[..|rows| - 1], key);
    }
  }

  lemma {:induction false} DecisionMembers(rows: seq<Event>, key: GateKey)
    ensures forall h <- Decisions(rows, key) :: h.at < |rows| && h.event == rows[h.at] && IsDecision(h.event, key)
    ensures forall k :: 0 <= k < |rows| && IsDecision(rows[k], key) ==> Indexed(k, rows[k]) in Decisions(rows, key)
  {
    hide IsDecision;
    if rows != [] {
      DecisionMembers(rows[..|rows| - 1], key);
    }
  }

  lemma HumanAfterMeans(rows: seq<Event>, key: GateKey, p: nat, verdicts: set<string>)
    requires verdicts != {}
    ensures HumanAfter(Decisions(rows, key), p, {}) <==> Decided(rows, p, key)
    ensures HumanAfter(Decisions(rows, key), p, verdicts) <==> DecidedAs(rows, p, key, verdicts)
  {
    hide Decisions;
    DecisionMembers(rows, key);
    var hs := Decisions(rows, key);
    if k :| p < k < |rows| && IsDecision(rows[k], key) {
      assert Indexed(k, rows[k]) in hs;
    }
    if k :| p < k < |rows| && IsDecision(rows[k], key) && rows[k].what.recommendation in verdicts {
      assert Indexed(k, rows[k]) in hs;
    }
  }

  function LastAt(hs: seq<Indexed>): int {
    if hs == [] then -1 else hs[|hs| - 1].at
  }

  lemma {:induction false} NoneAfter(vs: seq<Indexed>, after: int)
    requires forall v <- vs :: v.at <= after
    ensures Returns(vs, after) == 0
  {
    if vs != [] {
      NoneAfter(vs[..|vs| - 1], after);
    }
  }

  lemma ReturnsSnoc(vs: seq<Indexed>, v: Indexed, after: int)
    ensures Returns(vs + [v], after) ==
            Returns(vs, after)
            + (if v.at > after && v.event.what.Gate? && v.event.what.recommendation == "RETURN" then 1 else 0)
  {
    assert (vs + [v])[..|vs|] == vs;
  }

  lemma {:induction false} VerdictsBefore(rows: seq<Event>, key: GateKey)
    ensures forall v <- Verdicts(rows, key) :: v.at < |rows|
  {
    if rows != [] {
      VerdictsBefore(rows[..|rows| - 1], key);
    }
  }

  lemma VerdictOrDecision(e: Event, key: GateKey)
    ensures IsVerdict(e, key) ==> e.what.Gate? && !IsDecision(e, key)
  {
  }

  /** Counting from the index of the last decision is counting back to it. */
  lemma {:induction false} ReturnsMeans(rows: seq<Event>, key: GateKey)
    ensures Returns(Verdicts(rows, key), LastAt(Decisions(rows, key))) == ReturnsSince(rows, key)
    ensures LastAt(Decisions(rows, key)) < |rows|
  {
    if rows != [] {
      hide Returns, IsVerdict, IsDecision;
      var front, last := rows[..|rows| - 1], rows[|rows| - 1];
      ReturnsMeans(front, key);
      VerdictsBefore(front, key);
      VerdictOrDecision(last, key);
      var vs, at := Verdicts(front, key), LastAt(Decisions(front, key));
      if IsDecision(last, key) {
        NoneAfter(vs, |front|);
        assert vs + [] == vs;
      } else if IsVerdict(last, key) {
        assert Decisions(rows, key) == Decisions(front, key);
        ReturnsSnoc(vs, Indexed(|front|, last), at);
      } else {
        assert vs + [] == vs && Decisions(rows, key) == Decisions(front, key);
      }
    }
  }

  // ---------------------------------------------------------------- alerts of gates among those of a demand

  lemma {:induction false} ReviewKinds(t: PrTable, d: Demand, reviews: seq<Event>, aid: AlertId)
    ensures aid in ReviewAlerts(t, d, reviews) ==>
              !OfGates(aid.kind) && forall k <- ReviewAlerts(t, d, reviews)[aid].kinds :: !OfGates(k)
  {
    if reviews != [] {
      ReviewKinds(t, d, reviews[..|reviews| - 1], aid);
    }
  }

  lemma {:induction false} RequestKinds(d: Demand, requests: seq<string>, aid: AlertId)
    ensures aid in RequestAlerts(d, requests) ==>
              !OfGates(aid.kind) && forall k <- RequestAlerts(d, requests)[aid].kinds :: !OfGates(k)
  {
    if requests != [] {
      RequestKinds(d, requests[..|requests| - 1], aid);
    }
  }

  lemma GateKindsAreOfGates(g: What, returned: nat, humans: seq<Indexed>, at: nat, asked: bool, closed: bool)
    requires g.Gate?
    ensures forall k <- GateKinds(g, returned, humans, at, asked, closed) :: OfGates(k)
  {
    hide HumanAfter, IsLow;
  }

  /** The gate an alert comes from. */
  lemma {:induction false} GateAlertFrom(t: GateTable, keys: seq<GateKey>, onlyG3: bool, files: Files, aid: AlertId)
    returns (key: GateKey)
    requires aid in GateAlerts(t, keys, onlyG3, files)
    ensures key in keys && (onlyG3 ==> key.gate == "G3")
    ensures EvalGate(key, Get(t.verdicts, key), Get(t.humans, key), onlyG3, files)
         == Some(GateAlerts(t, keys, onlyG3, files)[aid])
    ensures GateAlerts(t, keys, onlyG3, files)[aid].id == aid && OfGates(aid.kind)
  {
    hide GateKinds, Returns;
    var front, last := keys[..|keys| - 1], keys[|keys| - 1];
    var here := EvalGate(last, Get(t.verdicts, last), Get(t.humans, last), onlyG3, files);
    if (onlyG3 ==> last.gate == "G3") && here.Some? && here.value.id == aid {
      key := last;
      EvalGateShape(last, Get(t.verdicts, last), Get(t.humans, last), onlyG3, files);
    } else {
      key := GateAlertFrom(t, front, onlyG3, files, aid);
    }
  }

  lemma EvalGateShape(key: GateKey, verdicts: seq<Indexed>, humans: seq<Indexed>, closed: bool, files: Files)
    ensures var a := EvalGate(key, verdicts, humans, closed, files);
            a.Some? ==>
              && verdicts != [] && a.value.id.event == verdicts[|verdicts| - 1].event.id
              && a.value.kinds != [] && a.value.id.kind == a.value.kinds[0] && OfGates(a.value.id.kind)
  {
    hide GateKinds, Returns;
    if verdicts != [] && verdicts[|verdicts| - 1].event.what.Gate? {
      var g := verdicts[|verdicts| - 1];
      GateKindsAreOfGates(g.event.what, Returns(verdicts, LastAt(humans)), humans, g.at,
                          files(key, g.event, |verdicts|), closed);
    }
  }

  lemma {:induction false} GateAlertTo(t: GateTable, keys: seq<GateKey>, onlyG3: bool, files: Files, key: GateKey)
    requires key in keys && (onlyG3 ==> key.gate == "G3")
    ensures var a := EvalGate(key, Get(t.verdicts, key), Get(t.humans, key), onlyG3, files);
            a.Some? ==> a.value.id in GateAlerts(t, keys, onlyG3, files)
  {
    hide EvalGate;
    var front, last := keys[..|keys| - 1], keys[|keys| - 1];
    if key != last {
      assert keys == front + [last];
      GateAlertTo(t, front, onlyG3, files, key);
    }
  }

  /** An alert of a demand that is about a gate comes from the gates, and only such an alert has a gate's kind. */
  lemma DemandGates(t: Tables, d: Demand, files: Files, aid: AlertId)
    ensures var all, gates := EvalDemand(t, d, files),
                GateAlerts(t.gates, KeysOf(t.gates.order, d), Closed(t, d), files);
            && (aid in all && (exists k <- all[aid].kinds :: OfGates(k)) ==>
                 !HardClosed(t, d) && aid in gates && all[aid] == gates[aid])
            && (!HardClosed(t, d) && aid in gates ==> aid in all && all[aid] == gates[aid])
  {
    hide GateAlerts, ReviewAlerts, RequestAlerts, OpenRequests, KeysOf, HardClosed, Closed, OpenTriage;
    ReviewKinds(t.prs, d, Get(t.prs.reviews, d), aid);
    RequestKinds(d, OpenRequests(t.requests, d, t.requests.order), aid);
    var gates := GateAlerts(t.gates, KeysOf(t.gates.order, d), Closed(t, d), files);
    if aid in gates {
      var key := GateAlertFrom(t.gates, KeysOf(t.gates.order, d), Closed(t, d), files, aid);
    }
  }

  // ---------------------------------------------------------------- what an open alert means

  /** The kinds of the gate's alert are those the log calls for. */
  lemma KindsAreCalled(rows: seq<Event>, files: Files, p: nat, key: GateKey, kind: Kind)
    requires IsLatest(rows, p, key) && !Over(rows, key.demand) && (Finished(rows, key.demand) ==> key.gate == "G3")
    requires OfGates(kind)
    ensures var vs, hs := Verdicts(rows, key), Decisions(rows, key);
            var kinds := GateKinds(rows[p].what, Returns(vs, LastAt(hs)), hs, p,
                           files(key, rows[p], |vs|), Finished(rows, key.demand));
            kind in kinds <==> Calls(rows, files, p, key, kind)
  {
    assert forall g: What :: g.Gate? ==> IsUnsure(g) == IsLow(g.confidence);
    hide Verdicts, Decisions, Returns, ReturnsSince, IsLatest, Over, Finished, HumanAfter, Decided, DecidedAs, IsLow;
    hide IsUnsure;
    ReturnsMeans(rows, key);
    LastVerdict(rows, key);
    HumanAfterMeans(rows, key, p, {"OVERRIDE"});
    HumanAfterMeans(rows, key, p, {"APPROVE", "OVERRIDE"});
    assert IsVerdict(rows[p], key) by { LatestIsVerdict(rows, p, key); }
  }

  lemma LatestIsVerdict(rows: seq<Event>, p: nat, key: GateKey)
    requires IsLatest(rows, p, key)
    ensures p < |rows| && IsVerdict(rows[p], key) && Verdicts(rows, key) != []
    ensures var vs := Verdicts(rows, key); vs[|vs| - 1] == Indexed(p, rows[p])
  {
    LastVerdict(rows, key);
  }

  predicate Shown(open: map<AlertId, Alert>, event: string, kind: Kind) {
    exists aid <- open :: aid.event == event && kind in open[aid].kinds
  }

  /**
   * After every log with unique ids, an alert of a gate's kind about a verdict is open if
   * and only if the rows of the log call for it.
   */
  lemma OpenIffCalled(rows: seq<Event>, files: Files, p: nat, key: GateKey, kind: Kind)
    requires UniqueIds(rows) && p < |rows| && IsVerdict(rows[p], key) && OfGates(kind)
    ensures Shown(Run(rows, files).open, rows[p].id, kind) <==> Calls(rows, files, p, key, kind)
  {
    hide Run, Calls, UniqueIds, EvalDemand, IsVerdict;
    var open := Run(rows, files).open;
    if aid :| aid in open && aid.event == rows[p].id && kind in open[aid].kinds {
      ShownIsCalled(rows, files, p, key, kind, aid);
    }
    if Calls(rows, files, p, key, kind) {
      CalledIsShown(rows, files, p, key, kind);
    }
  }

  /** The one gate of a verdict. */
  lemma OneGate(rows: seq<Event>, p: nat, q: nat, a: GateKey, b: GateKey)
    requires UniqueIds(rows) && p < |rows| && q < |rows| && rows[p].id == rows[q].id
    requires IsVerdict(rows[p], a) && IsVerdict(rows[q], b)
    ensures p == q && a == b
  {
  }

  /** An alert of open triage has that one kind. */
  lemma TriageIsAlone(rows: seq<Event>, files: Files, aid: AlertId)
    requires UniqueIds(rows) && aid in Run(rows, files).open && aid.kind == TRIAGE_OPEN
    ensures Run(rows, files).open[aid].kinds == [TRIAGE_OPEN]
  {
    hide Run, UniqueIds, EvalDemand, Stale;
    var s := Run(rows, files);
    var d := s.open[aid].demand;
    OpenIsExact(rows, files, d);
    assert aid in OpenOf(s.open, d);
    if aid in EvalDemand(s.tables, d, files) {
      TriageOfDemand(s.tables, d, files, aid);
    }
  }

  lemma TriageOfDemand(t: Tables, d: Demand, files: Files, aid: AlertId)
    requires aid in EvalDemand(t, d, files) && aid.kind == TRIAGE_OPEN
    ensures EvalDemand(t, d, files)[aid].kinds == [TRIAGE_OPEN]
  {
    hide GateAlerts, ReviewAlerts, RequestAlerts, OpenRequests, KeysOf, OpenTriage, Get, Closed, HardClosed;
    OnlyTriageAlerts(t, d, files, aid);
  }

  lemma ShownIsCalled(rows: seq<Event>, files: Files, p: nat, key: GateKey, kind: Kind, aid: AlertId)
    requires UniqueIds(rows) && p < |rows| && IsVerdict(rows[p], key) && OfGates(kind)
    requires var open := Run(rows, files).open; aid in open && aid.event == rows[p].id && kind in open[aid].kinds
    ensures Calls(rows, files, p, key, kind)
  {
    hide Run, Calls, UniqueIds, EvalDemand, IsVerdict, IsLatest, HardClosed, Closed, Over, Finished;
    hide GateAlerts, GateKinds, Returns, Verdicts, Decisions, KeysOf;
    if aid.kind == TRIAGE_OPEN {
      TriageIsAlone(rows, files, aid);
    }
    OthersAreFromScratch(rows, files, aid);
    var t := Run(rows, files).tables;
    var d: Demand :| aid in EvalDemand(t, d, files);
    DemandGates(t, d, files, aid);
    var from := GateAlertFrom(t.gates, KeysOf(t.gates.order, d), Closed(t, d), files, aid);
    KeysOfMembers(t.gates.order, d, from);
    GateTableHolds(rows, files, from);
    EndTableHolds(rows, files, d);
    var vs, hs := Verdicts(rows, from), Decisions(rows, from);
    EvalGateShape(from, vs, hs, Closed(t, d), files);
    LastVerdict(rows, from);
    var q := vs[|vs| - 1].at;
    LatestIsVerdict(rows, q, from);
    assert rows[q].id == rows[p].id;
    OneGate(rows, p, q, key, from);
    KindsAreCalled(rows, files, p, key, kind);
  }

  lemma CalledIsShown(rows: seq<Event>, files: Files, p: nat, key: GateKey, kind: Kind)
    requires UniqueIds(rows) && p < |rows| && IsVerdict(rows[p], key) && OfGates(kind)
    requires Calls(rows, files, p, key, kind)
    ensures Shown(Run(rows, files).open, rows[p].id, kind)
  {
    hide Run, UniqueIds, EvalDemand, IsVerdict, IsLatest, HardClosed, Closed, Over, Finished;
    hide GateAlerts, GateKinds, Returns, Verdicts, Decisions, KeysOf;
    var t, d := Run(rows, files).tables, key.demand;
    GateTableHolds(rows, files, key);
    EndTableHolds(rows, files, d);
    LatestIsVerdict(rows, p, key);
    KindsAreCalled(rows, files, p, key, kind);
    var vs, hs := Verdicts(rows, key), Decisions(rows, key);
    var here := EvalGate(key, vs, hs, Closed(t, d), files);
    assert rows[p].what.Gate? by { VerdictIsGate(rows[p], key); }
    assert here.Some? && kind in here.value.kinds;
    var aid := here.value.id;
    KeysOfMembers(t.gates.order, d, key);
    GateAlertTo(t.gates, KeysOf(t.gates.order, d), Closed(t, d), files, key);
    var from := GateAlertFrom(t.gates, KeysOf(t.gates.order, d), Closed(t, d), files, aid);
    GateTableHolds(rows, files, from);
    SameGate(rows, files, p, key, from, Closed(t, d), aid);
    DemandGates(t, d, files, aid);
    OthersAreFromScratch(rows, files, aid);
  }

  lemma VerdictIsGate(e: Event, key: GateKey)
    requires IsVerdict(e, key)
    ensures e.what.Gate?
  {
  }

  /** Two gates with an alert of the same id are one. */
  lemma SameGate(rows: seq<Event>, files: Files, p: nat, key: GateKey, from: GateKey, closed: bool, aid: AlertId)
    requires UniqueIds(rows) && IsLatest(rows, p, key) && aid.event == rows[p].id
    requires var a := EvalGate(from, Verdicts(rows, from), Decisions(rows, from), closed, files);
             a.Some? && a.value.id == aid
    ensures from == key
  {
    hide EvalGate, IsVerdict, UniqueIds, IsLatest, Verdicts, Decisions;
    EvalGateShape(from, Verdicts(rows, from), Decisions(rows, from), closed, files);
    LastVerdict(rows, from);
    var vs := Verdicts(rows, from);
    var q := vs[|vs| - 1].at;
    LatestIsVerdict(rows, q, from);
    LatestIsVerdict(rows, p, key);
    OneGate(rows, p, q, key, from);
  }

  /** The kinds in their order of precedence. */
  function InOrder(called: Kind -> bool): seq<Kind> {
    Chosen(called(CYCLE_LIMIT), called(HUMAN_REQUIRED), called(GATE_RETURN), called(LOW_CONFIDENCE))
  }

  /**
   * The one open alert of a gate: filed under the first kind that is called for, with all of them in order, the gate's
   * demand and the number of returns since the last decision.
   */
  lemma GateAlertIsExact(rows: seq<Event>, files: Files, p: nat, key: GateKey, aid: AlertId)
    requires UniqueIds(rows) && p < |rows| && IsVerdict(rows[p], key)
    requires aid in Run(rows, files).open && aid.event == rows[p].id && OfGates(aid.kind)
    ensures var a, kinds := Run(rows, files).open[aid], InOrder(kind => Calls(rows, files, p, key, kind));
            kinds != [] && aid.kind == kinds[0] && a == Alert(aid, kinds, key.demand, ReturnsSince(rows, key))
  {
    hide Run, Calls, UniqueIds, EvalDemand, IsVerdict, IsLatest, Over, Finished;
    hide GateKinds, Returns, Verdicts, Decisions;
    GateOfAlert(rows, files, p, key, aid);
    LatestIsVerdict(rows, p, key);
    ReturnsMeans(rows, key);
    KindsInOrder(rows, files, p, key);
  }

  /** An open alert about a verdict, of a gate's kind, is what the gate's rows evaluate to. */
  lemma GateOfAlert(rows: seq<Event>, files: Files, p: nat, key: GateKey, aid: AlertId)
    requires UniqueIds(rows) && p < |rows| && IsVerdict(rows[p], key)
    requires aid in Run(rows, files).open && aid.event == rows[p].id && OfGates(aid.kind)
    ensures IsLatest(rows, p, key) && !Over(rows, key.demand) && (Finished(rows, key.demand) ==> key.gate == "G3")
    ensures EvalGate(key, Verdicts(rows, key), Decisions(rows, key), Finished(rows, key.demand), files)
         == Some(Run(rows, files).open[aid])
    ensures Run(rows, files).open[aid].id == aid
  {
    hide Run, Calls, UniqueIds, EvalDemand, IsVerdict, IsLatest, HardClosed, Closed, Over, Finished, EvalGate;
    hide GateAlerts, Verdicts, Decisions, KeysOf;
    OthersAreFromScratch(rows, files, aid);
    var t := Run(rows, files).tables;
    var d: Demand :| aid in EvalDemand(t, d, files);
    GateKindFromGates(t, d, files, aid);
    var from := GateAlertFrom(t.gates, KeysOf(t.gates.order, d), Closed(t, d), files, aid);
    KeysOfMembers(t.gates.order, d, from);
    GateTableHolds(rows, files, from);
    EndTableHolds(rows, files, d);
    var vs, hs := Verdicts(rows, from), Decisions(rows, from);
    EvalGateShape(from, vs, hs, Closed(t, d), files);
    LastVerdict(rows, from);
    var q := vs[|vs| - 1].at;
    LatestIsVerdict(rows, q, from);
    OneGate(rows, p, q, key, from);
  }

  lemma GateKindFromGates(t: Tables, d: Demand, files: Files, aid: AlertId)
    requires aid in EvalDemand(t, d, files) && OfGates(aid.kind)
    ensures var gates := GateAlerts(t.gates, KeysOf(t.gates.order, d), Closed(t, d), files);
            !HardClosed(t, d) && aid in gates && EvalDemand(t, d, files)[aid] == gates[aid]
  {
    hide GateAlerts, ReviewAlerts, RequestAlerts, OpenRequests, KeysOf, HardClosed, Closed, OpenTriage;
    ReviewKinds(t.prs, d, Get(t.prs.reviews, d), aid);
    RequestKinds(d, OpenRequests(t.requests, d, t.requests.order), aid);
  }

  lemma KindsInOrder(rows: seq<Event>, files: Files, p: nat, key: GateKey)
    requires IsLatest(rows, p, key) && !Over(rows, key.demand) && (Finished(rows, key.demand) ==> key.gate == "G3")
    ensures var vs, hs := Verdicts(rows, key), Decisions(rows, key);
            && rows[p].what.Gate?
            && GateKinds(rows[p].what, Returns(vs, LastAt(hs)), hs, p, files(key, rows[p], |vs|),
                         Finished(rows, key.demand))
            == InOrder(kind => Calls(rows, files, p, key, kind))
  {
    hide Verdicts, Decisions, Returns, IsLatest, Over, Finished, Calls, GateKinds;
    LatestIsVerdict(rows, p, key);
    VerdictIsGate(rows[p], key);
    var vs, hs := Verdicts(rows, key), Decisions(rows, key);
    KindsAreCalled(rows, files, p, key, CYCLE_LIMIT);
    KindsAreCalled(rows, files, p, key, HUMAN_REQUIRED);
    KindsAreCalled(rows, files, p, key, GATE_RETURN);
    KindsAreCalled(rows, files, p, key, LOW_CONFIDENCE);
    OrderOfKinds(rows[p].what, Returns(vs, LastAt(hs)), hs, p, files(key, rows[p], |vs|), Finished(rows, key.demand));
  }

  lemma OrderOfKinds(g: What, returned: nat, humans: seq<Indexed>, at: nat, asked: bool, closed: bool)
    requires g.Gate?
    ensures var kinds := GateKinds(g, returned, humans, at, asked, closed); kinds == InOrder(kind => kind in kinds)
  {
    hide HumanAfter, IsLow;
    hide Chosen;
    var kinds := GateKinds(g, returned, humans, at, asked, closed);
    Selected(CYCLE_LIMIT in kinds, HUMAN_REQUIRED in kinds, GATE_RETURN in kinds, LOW_CONFIDENCE in kinds);
    var low := IsLow(g.confidence);
    var decided := HumanAfter(humans, at, {});
    var a := returned > MAX_AUTO_CYCLES && !decided;
    var b := !a && !decided && (asked || g.humanRequired || low || g.risk == "alto");
    var c := !closed && g.recommendation == "RETURN" && !HumanAfter(humans, at, {"OVERRIDE"});
    var e := !closed && low && HumanAfter(humans, at, {"APPROVE", "OVERRIDE"});
    Selected(a, b, c, e);
    KindsChosen(g, returned, humans, at, asked, closed);
  }

  lemma KindsChosen(g: What, returned: nat, humans: seq<Indexed>, at: nat, asked: bool, closed: bool)
    requires g.Gate?
    ensures var low, decided := IsLow(g.confidence), HumanAfter(humans, at, {});
            var cycle := returned > MAX_AUTO_CYCLES && !decided;
            GateKinds(g, returned, humans, at, asked, closed) ==
            Chosen(cycle, !cycle && !decided && (asked || g.humanRequired || low || g.risk == "alto"),
                   !closed && g.recommendation == "RETURN" && !HumanAfter(humans, at, {"OVERRIDE"}),
                   !closed && low && HumanAfter(humans, at, {"APPROVE", "OVERRIDE"}))
  {
    hide HumanAfter, IsLow;
  }

  function Chosen(a: bool, b: bool, c: bool, d: bool): seq<Kind> {
    (if a then [CYCLE_LIMIT] else []) + (if b then [HUMAN_REQUIRED] else [])
    + (if c then [GATE_RETURN] else []) + (if d then [LOW_CONFIDENCE] else [])
  }

  lemma Selected(a: bool, b: bool, c: bool, d: bool)
    ensures var kinds := Chosen(a, b, c, d);
            && (CYCLE_LIMIT in kinds <==> a) && (HUMAN_REQUIRED in kinds <==> b)
            && (GATE_RETURN in kinds <==> c) && (LOW_CONFIDENCE in kinds <==> d)
  {
  }

  // ---------------------------------------------------------------- consequences

  /** Once a human has decided a gate after its last verdict, no open alert asks for a decision on it. */
  lemma DecisionIsEnough(rows: seq<Event>, files: Files, p: nat, key: GateKey)
    requires UniqueIds(rows) && p < |rows| && IsVerdict(rows[p], key)
    requires Decided(rows, p, key)
    ensures !Shown(Run(rows, files).open, rows[p].id, CYCLE_LIMIT)
    ensures !Shown(Run(rows, files).open, rows[p].id, HUMAN_REQUIRED)
  {
    hide Run, UniqueIds, IsVerdict, Shown, Decided;
    OpenIffCalled(rows, files, p, key, CYCLE_LIMIT);
    OpenIffCalled(rows, files, p, key, HUMAN_REQUIRED);
  }

  /** A canceled demand has no open alert, whatever happens to it before or after. */
  lemma CanceledIsQuiet(rows: seq<Event>, files: Files, d: Demand)
    requires UniqueIds(rows) && d.Some?
    requires exists e <- rows :: Cancels(e, d)
    ensures forall aid <- Run(rows, files).open :: Run(rows, files).open[aid].demand != d
  {
    hide Run, UniqueIds, EvalDemand, Stale;
    var s := Run(rows, files);
    CancelEndsStale(rows, files, d);
    NothingIsCalled(rows, files, d);
    OpenIsExact(rows, files, d);
    forall aid | aid in s.open ensures s.open[aid].demand != d {
      assert aid !in OpenOf(s.open, d);
    }
  }

  lemma NothingIsCalled(rows: seq<Event>, files: Files, d: Demand)
    requires d.Some? && exists e <- rows :: Cancels(e, d)
    ensures EvalDemand(Run(rows, files).tables, d, files) == map[] && Closed(Run(rows, files).tables, d)
  {
    hide Run;
    EndTableHolds(rows, files, d);
  }

  /** Canceling re-evaluates the demand, and nothing strays from a closed one. */
  lemma {:induction false} CancelEndsStale(rows: seq<Event>, files: Files, d: Demand)
    requires d.Some? && exists e <- rows :: Cancels(e, d)
    ensures Stale(rows, files, d).None?
  {
    hide Run, Apply, EvalDemand, OpenTriage;
    var front, last := rows[..|rows| - 1], rows[|rows| - 1];
    if !Cancels(last, d) {
      assert rows == front + [last];
      CancelEndsStale(front, files, d);
      NothingIsCalled(front, files, d);
    }
  }
}
