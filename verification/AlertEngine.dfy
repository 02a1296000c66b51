/** `alerts.py`, class `Rules`, as it updates its dictionaries row by row. */
module AlertEngine {
  import opened Prelude
  import opened AlertRules

  class Rules {
    var verdicts: map<GateKey, seq<Indexed>>
    var gateOrder: seq<GateKey>
    var humans: map<GateKey, seq<Indexed>>
    var validations: map<Demand, seq<Event>>
    var answered: set<string>
    var overridden: set<Demand>
    var canceled: set<Demand>
    var delivered: set<Demand>
    var g3Approved: set<Demand>
    var reviews: map<Demand, seq<Event>>
    var prClosed: set<PrKey>
    var prConflict: map<PrKey, Event>
    var requests: map<string, Event>
    var requestOrder: seq<string>
    var requestClosed: set<string>
    var open: map<AlertId, Alert>
    var history: seq<Closing>
    const files: Files

    function View(): Tables
      reads this
    {
      Tables(GateTable(verdicts, gateOrder, humans), TriageTable(validations, answered, overridden),
             EndTable(canceled, delivered, g3Approved), PrTable(reviews, prClosed, prConflict),
             RequestTable(requests, requestOrder, requestClosed))
    }

    ghost predicate Shows(s: State)
      reads this
    {
      View() == s.tables && open == s.open && multiset(history) == s.history
    }

    /** The engine replays the whole log when it is made. */
    constructor (rows: seq<Event>, files: Files)
      ensures Shows(AlertRules.Run(rows, files)) && this.files == files
    {
      verdicts, gateOrder, humans, validations, answered, overridden := map[], [], map[], map[], {}, {};
      canceled, delivered, g3Approved, reviews, prClosed, prConflict := {}, {}, {}, map[], {}, map[];
      requests, requestOrder, requestClosed, open, history := map[], [], {}, map[], [];
      this.files := files;
      new;
      hide Step;
      for i := 0 to |rows|
        invariant Shows(AlertRules.Run(rows[..i], files)) && this.files == files
      {
        assert rows[..i + 1][..i] == rows[..i];
        Row(i, rows[i], AlertRules.Run(rows[..i], files));
      }
      assert rows[..|rows|] == rows;
    }

    /** `_apply` of a verdict. */
    method ApplyVerdict(i: nat, e: Event)
      requires e.what.Gate? && e.what.gate.Some?
      modifies this`verdicts, this`gateOrder, this`g3Approved
      ensures View() == AlertRules.Apply(old(View()), i, e)
    {
      hide Push, Queue;
      var key := GateKey(e.demand, e.what.gate.value);
      verdicts := Push(verdicts, key, Indexed(i, e));
      gateOrder := Queue(gateOrder, key);
      if key.gate == "G3" && e.what.recommendation == "APPROVE" && e.demand.Some? {
        g3Approved := g3Approved + {e.demand};
      }
    }

    /** `_apply` of a human decision on a gate. */
    method ApplyHuman(i: nat, e: Event)
      requires e.what.Human? && e.what.gate.Some?
      modifies this`humans
      ensures View() == AlertRules.Apply(old(View()), i, e)
    {
      hide Push, Queue;
      humans := Push(humans, GateKey(e.demand, e.what.gate.value), Indexed(i, e));
    }

    /** `_apply` of what happens to a demand as a whole. */
    method ApplyDemand(e: Event)
      requires e.demand.Some? && (e.what.Validation? || e.what.Start? || e.what.Control?)
      modifies this`validations, this`overridden, this`canceled
      ensures forall i :: View() == AlertRules.Apply(old(View()), i, e)
    {
      if e.what.Validation? {
        validations := Push(validations, e.demand, e);
      } else if e.what.Start? && e.what.overridden {
        overridden := overridden + {e.demand};
      } else if e.what == Control("cancel") {
        canceled := canceled + {e.demand};
      }
    }

    /** `_apply` of a pull request's events. */
    method ApplyPr(e: Event)
      requires e.what.Review? || e.what.Delivered? || e.what.ReviewRejected?
               || e.what.PrConflict? || e.what.PrConflictCleared?
      modifies this`reviews, this`prClosed, this`delivered, this`prConflict
      ensures forall i :: View() == AlertRules.Apply(old(View()), i, e)
    {
      var key := PrKey(e.demand, e.what.pr);
      if e.what.Review? {
        reviews := Push(reviews, e.demand, e);
      } else if e.what.Delivered? || e.what.ReviewRejected? {
        prClosed := prClosed + {key};
        if e.what.Delivered? && e.demand.Some? {
          delivered := delivered + {e.demand};
        }
      } else if e.demand.Some? {
        prConflict := prConflict[key := e];
      }
    }

    /** `_apply` of an answer, a change request or the decision that closes one. */
    method ApplyReference(e: Event)
      requires e.what.Clarification? || e.what.ChangeRequest? || e.what.Decision?
      modifies this`answered, this`requests, this`requestOrder, this`requestClosed
      ensures forall i :: View() == AlertRules.Apply(old(View()), i, e)
    {
      match e.what {
        case Clarification(Some(v)) => answered := answered + {v};
        case ChangeRequest(_) => requests, requestOrder := requests[e.id := e], Queue(requestOrder, e.id);
        case Decision(Some(cr)) => requestClosed := requestClosed + {cr};
        case _ =>
      }
    }

    /** `_apply`: what the row leaves in the engine's fields. */
    method Apply(i: nat, e: Event)
      modifies this
      ensures View() == AlertRules.Apply(old(View()), i, e) && open == old(open) && history == old(history)
    {
      hide AlertRules.Apply;
      if e.what.Gate? || e.what.Human? {
        if e.what.gate.None? {
          NoEffect(View(), i, e);
        } else if e.what.Gate? {
          ApplyVerdict(i, e);
        } else {
          ApplyHuman(i, e);
        }
      } else if e.what.Validation? || e.what.Start? || e.what.Control? {
        if e.demand.Some? {
          ApplyDemand(e);
        } else {
          NoEffect(View(), i, e);
        }
      } else if e.what.Clarification? || e.what.ChangeRequest? || e.what.Decision? {
        ApplyReference(e);
      } else if e.what.Other? {
        NoEffect(View(), i, e);
      } else {
        ApplyPr(e);
      }
    }

    /** The loop over the gates of a demand. */
    method EvalGates(d: Demand, onlyG3: bool) returns (out: map<AlertId, Alert>)
      ensures out == GateAlerts(View().gates, KeysOf(gateOrder, d), onlyG3, files)
    {
      hide EvalGate;
      out := map[];
      ghost var keys := [];
      assert gateOrder[..0] == [];
      for i := 0 to |gateOrder|
        invariant keys == KeysOf(gateOrder[..i], d) && out == GateAlerts(View().gates, keys, onlyG3, files)
      {
        var key := gateOrder[i];
        assert gateOrder[..i + 1][..i] == gateOrder[..i];
        if key.demand == d {
          assert (keys + [key])[..|keys|] == keys;
          keys := keys + [key];
          if !(onlyG3 && key.gate != "G3") {
            var a := EvalGate(key, Get(verdicts, key), Get(humans, key), onlyG3, files);
            if a.Some? {
              out := out[a.value.id := a.value];
            }
          }
        }
      }
      assert gateOrder[..|gateOrder|] == gateOrder;
    }

    /** The loop over the pull requests under review. */
    method EvalReviews(d: Demand) returns (out: map<AlertId, Alert>)
      ensures out == ReviewAlerts(View().prs, d, Get(reviews, d))
    {
      hide Conflict;
      out := map[];
      var list := Get(reviews, d);
      assert list[..0] == [];
      for i := 0 to |list|
        invariant out == ReviewAlerts(View().prs, d, list[..i])
      {
        var rv := list[i];
        assert list[..i + 1][..i] == list[..i];
        if rv.what.Review? && PrKey(d, rv.what.pr) !in prClosed {
          var waiting := AlertId(PR_WAITING, rv.id);
          out := out[waiting := Alert(waiting, [PR_WAITING], d, 0)];
          var conflict := Conflict(View().prs, PrKey(d, rv.what.pr));
          if conflict.Some? {
            var aid := AlertId(PR_CONFLICT, conflict.value);
            out := out[aid := Alert(aid, [PR_CONFLICT], d, 0)];
          }
        }
      }
      assert list[..|list|] == list;
    }

    /** The loop over the change requests. */
    method EvalRequests(d: Demand) returns (out: map<AlertId, Alert>)
      ensures out == RequestAlerts(d, OpenRequests(View().requests, d, requestOrder))
    {
      out := map[];
      ghost var pending := [];
      assert requestOrder[..0] == [];
      for i := 0 to |requestOrder|
        invariant pending == OpenRequests(View().requests, d, requestOrder[..i]) && out == RequestAlerts(d, pending)
      {
        var cr := requestOrder[i];
        assert requestOrder[..i + 1][..i] == requestOrder[..i];
        if cr in requests && requests[cr].demand == d && cr !in requestClosed
           && requests[cr].what.ChangeRequest? && requests[cr].what.to.Some?
        {
          assert (pending + [cr])[..|pending|] == pending;
          pending := pending + [cr];
          var aid := AlertId(CHANGE_REQUEST_OPEN, cr);
          out := out[aid := Alert(aid, [CHANGE_REQUEST_OPEN], d, 0)];
        }
      }
      assert requestOrder[..|requestOrder|] == requestOrder;
    }

    /** `_eval_demand`. */
    method EvalDemand(d: Demand) returns (out: map<AlertId, Alert>)
      ensures out == AlertRules.EvalDemand(View(), d, files)
    {
      hide GateAlerts, ReviewAlerts, RequestAlerts, OpenRequests, KeysOf, OpenTriage;
      var closed := Closed(View(), d);
      out := map[];
      if !HardClosed(View(), d) {
        out := EvalGates(d, closed);
      }
      if !closed {
        out := out + TriageAlerts(d, OpenTriage(View().triage, d));
      }
      if !(d.Some? && d in canceled) {
        var prs := EvalReviews(d);
        out := out + prs;
      }
      if !closed && d.Some? {
        var crs := EvalRequests(d);
        out := out + crs;
      }
    }

    /** Alerts no longer called for move from the open ones to the history, one by one. */
    method CloseAlerts(ids: set<AlertId>, closedBy: string)
      modifies this`open, this`history
      ensures open == old(open) - ids
      ensures multiset(history) == old(multiset(history)) + multiset(Closings(ids, closedBy))
    {
      var todo := ids;
      assert Closings({}, closedBy) == {};
      while todo != {}
        invariant todo <= ids && open == old(open) - (ids - todo)
        invariant multiset(history) == old(multiset(history)) + multiset(Closings(ids - todo, closedBy))
        decreases todo
      {
        var aid :| aid in todo;
        OneMoreClosing(ids, todo, aid, closedBy);
        open := open - {aid};
        history := history + [Closing(aid, closedBy)];
        todo := todo - {aid};
      }
      assert ids - todo == ids;
    }

    /** One round of `_run`. */
    method Row(i: nat, e: Event, ghost s: State)
      requires Shows(s)
      modifies this
      ensures Shows(Step(s, i, e, files))
    {
      hide AlertRules.Apply, AlertRules.EvalDemand;
      Apply(i, e);
      var target := Target(View().requests, e);
      if target.Some? {
        var d := target.value;
        var desired := EvalDemand(d);
        var closing := set aid | aid in open && open[aid].demand == d && aid !in desired;
        CloseAlerts(closing, e.id);
        open := open + desired;
      }
    }
  }

  /** Rows without the gate or demand they would be filed under, and rows of other types. */
  lemma NoEffect(t: Tables, i: nat, e: Event)
    requires match e.what
             case Gate(gate, _, _, _, _) => gate.None?
             case Human(gate, _) => gate.None?
             case Validation(_) => e.demand.None?
             case Start(_) => e.demand.None?
             case Control(_) => e.demand.None?
             case Other => true
             case _ => false
    ensures AlertRules.Apply(t, i, e) == t
  {
  }

  lemma OneMoreClosing(ids: set<AlertId>, todo: set<AlertId>, aid: AlertId, closedBy: string)
    requires todo <= ids && aid in todo
    ensures ids - (todo - {aid}) == (ids - todo) + {aid}
    ensures multiset(Closings(ids - (todo - {aid}), closedBy)) ==
            multiset(Closings(ids - todo, closedBy)) + multiset{Closing(aid, closedBy)}
  {
    var done := ids - todo;
    assert ids - (todo - {aid}) == done + {aid};
    assert Closings(done + {aid}, closedBy) == Closings(done, closedBy) + {Closing(aid, closedBy)};
    assert Closing(aid, closedBy) !in Closings(done, closedBy);
  }
}
