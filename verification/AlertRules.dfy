/**
 * `alerts.py`, class `Rules`: alerts kept open and closed event by event. An event re-evaluates one demand only; the
 * module proves that this equals evaluating every demand from scratch after every prefix of the log.
 */
module AlertRules {
  import opened Prelude

  type Demand = Option<string>

  /** What a row of the log says, as far as the rules read it. */
  datatype What =
    | Gate(gate: Option<string>, recommendation: string, confidence: Option<real>, risk: string, humanRequired: bool)
    | Human(gate: Option<string>, recommendation: string)
    | Validation(status: string)
    | Clarification(validation: Option<string>)
    | Start(overridden: bool)
    | Control(action: string)
    | Review(pr: Option<int>)
    | Delivered(pr: Option<int>)
    | ReviewRejected(pr: Option<int>)
    | PrConflict(pr: Option<int>)
    | PrConflictCleared(pr: Option<int>)
    | ChangeRequest(to: Option<string>)
    | Decision(changeRequest: Option<string>)
    | Other

  /** One row of the log; an empty demand, gate or reference is read as none. */
  datatype Event = Event(id: string, demand: Demand, what: What)

  datatype Kind =
    | CYCLE_LIMIT
    | HUMAN_REQUIRED
    | GATE_RETURN
    | LOW_CONFIDENCE
    | TRIAGE_OPEN
    | PR_WAITING
    | PR_CONFLICT
    | CHANGE_REQUEST_OPEN

  /** `kind:event`. */
  datatype AlertId = AlertId(kind: Kind, event: string)

  datatype Alert = Alert(id: AlertId, kinds: seq<Kind>, demand: Demand, returned: nat)

  datatype GateKey = GateKey(demand: Demand, gate: string)

  datatype PrKey = PrKey(demand: Demand, pr: Option<int>)

  datatype Indexed = Indexed(at: nat, event: Event)

  /** Verdicts and human decisions per gate; `order` is that of the dictionary's keys. */
  datatype GateTable = GateTable(
    verdicts: map<GateKey, seq<Indexed>>, order: seq<GateKey>, humans: map<GateKey, seq<Indexed>>)

  datatype TriageTable = TriageTable(
    validations: map<Demand, seq<Event>>, answered: set<string>, overridden: set<Demand>)

  datatype EndTable = EndTable(canceled: set<Demand>, delivered: set<Demand>, g3Approved: set<Demand>)

  datatype PrTable = PrTable(reviews: map<Demand, seq<Event>>, closed: set<PrKey>, conflict: map<PrKey, Event>)

  datatype RequestTable = RequestTable(requests: map<string, Event>, order: seq<string>, closed: set<string>)

  /** What the replayed prefix left in the engine's fields. */
  datatype Tables = Tables(gates: GateTable, triage: TriageTable, ends: EndTable, prs: PrTable, requests: RequestTable)

  const NO_TABLES := Tables(
    GateTable(map[], [], map[]), TriageTable(map[], {}, {}), EndTable({}, {}, {}), PrTable(map[], {}, map[]),
    RequestTable(map[], [], {}))

  const LOW_LIMIT := 0.70 - 0.000000001
  const MAX_AUTO_CYCLES := 2

  /** Whether the gate's file, chosen by key, verdict and position, asks for a human. */
  type Files = (GateKey, Event, nat) -> bool

  function Get<K, V>(m: map<K, seq<V>>, k: K): seq<V> {
    if k in m then m[k] else []
  }

  function Push<K, V>(m: map<K, seq<V>>, k: K, v: V): map<K, seq<V>> {
    m[k := Get(m, k) + [v]]
  }

  function Queue<T(==)>(order: seq<T>, x: T): seq<T> {
    if x in order then order else order + [x]
  }

  // ---------------------------------------------------------------- evaluating one gate

  predicate IsLow(confidence: Option<real>) {
    confidence.Some? && confidence.value < LOW_LIMIT
  }

  /** Some human decision after position `at` has one of `verdicts`; any decision counts when `verdicts` is empty. */
  predicate HumanAfter(humans: seq<Indexed>, at: nat, verdicts: set<string>) {
    exists h <- humans ::
      h.at > at && h.event.what.Human? && (verdicts == {} || h.event.what.recommendation in verdicts)
  }

  /** RETURN verdicts after position `after`. */
  function Returns(verdicts: seq<Indexed>, after: int): nat {
    if verdicts == [] then 0
    else
      var last := verdicts[|verdicts| - 1];
      Returns(verdicts[..|verdicts| - 1], after)
      + (if last.at > after && last.event.what.Gate? && last.event.what.recommendation == "RETURN" then 1 else 0)
  }

  /** The kinds of a gate's alert in the order of `GATE_KIND_ORDER`; a closed demand keeps only human decisions. */
  function GateKinds(g: What, returned: nat, humans: seq<Indexed>, at: nat, asked: bool, closed: bool): seq<Kind>
    requires g.Gate?
  {
    var decided := HumanAfter(humans, at, {});
    var low := IsLow(g.confidence);
    (if returned > MAX_AUTO_CYCLES && !decided then [CYCLE_LIMIT]
     else if !decided && (asked || g.humanRequired || low || g.risk == "alto") then [HUMAN_REQUIRED]
     else [])
    + (if !closed && g.recommendation == "RETURN" && !HumanAfter(humans, at, {"OVERRIDE"}) then [GATE_RETURN] else [])
    + (if !closed && low && HumanAfter(humans, at, {"APPROVE", "OVERRIDE"}) then [LOW_CONFIDENCE] else [])
  }

  /** `_eval_gate` on a gate's verdicts and human decisions. */
  function EvalGate(key: GateKey, verdicts: seq<Indexed>, humans: seq<Indexed>, closed: bool, files: Files)
    : Option<Alert>
  {
    if verdicts == [] || !verdicts[|verdicts| - 1].event.what.Gate? then None
    else
      var g := verdicts[|verdicts| - 1];
      var returned := Returns(verdicts, if humans == [] then -1 else humans[|humans| - 1].at);
      var kinds := GateKinds(g.event.what, returned, humans, g.at, files(key, g.event, |verdicts|), closed);
      if kinds == [] then None else Some(Alert(AlertId(kinds[0], g.event.id), kinds, key.demand, returned))
  }

  // ---------------------------------------------------------------- evaluating one demand

  predicate HardClosed(t: Tables, d: Demand) {
    d.Some? && (d in t.ends.canceled || d in t.ends.delivered)
  }

  /** `_closed`. */
  predicate Closed(t: Tables, d: Demand) {
    HardClosed(t, d) || (d.Some? && d in t.ends.g3Approved && Get(t.prs.reviews, d) == [])
  }

  function KeysOf(order: seq<GateKey>, d: Demand): seq<GateKey> {
    if order == [] then []
    else KeysOf(order[..|order| - 1], d) + (if order[|order| - 1].demand == d then [order[|order| - 1]] else [])
  }

  function Out(alerts: map<AlertId, Alert>, a: Alert): map<AlertId, Alert> {
    alerts[a.id := a]
  }

  /** Alerts of gates; `onlyG3` when the demand is closed by its last gate. */
  function GateAlerts(t: GateTable, keys: seq<GateKey>, onlyG3: bool, files: Files): map<AlertId, Alert> {
    if keys == [] then map[]
    else
      var front, key := GateAlerts(t, keys[..|keys| - 1], onlyG3, files), keys[|keys| - 1];
      if onlyG3 && key.gate != "G3" then front
      else
        match EvalGate(key, Get(t.verdicts, key), Get(t.humans, key), onlyG3, files)
        case None => front
        case Some(a) => Out(front, a)
  }

  /** The validation whose questions are still unanswered. */
  function OpenTriage(t: TriageTable, d: Demand): Option<string> {
    var vals := Get(t.validations, d);
    if d.None? || vals == [] then None
    else
      var v := vals[|vals| - 1];
      if v.what == Validation("perguntas") && v.id !in t.answered && d !in t.overridden then Some(v.id) else None
  }

  function TriageAlerts(d: Demand, open: Option<string>): map<AlertId, Alert> {
    match open
    case None => map[]
    case Some(v) => map[AlertId(TRIAGE_OPEN, v) := Alert(AlertId(TRIAGE_OPEN, v), [TRIAGE_OPEN], d, 0)]
  }

  /** The event of a conflict in force for a pull request. */
  function Conflict(t: PrTable, key: PrKey): Option<string> {
    if key in t.conflict && t.conflict[key].what.PrConflict? then Some(t.conflict[key].id) else None
  }

  function ReviewAlerts(t: PrTable, d: Demand, reviews: seq<Event>): map<AlertId, Alert> {
    if reviews == [] then map[]
    else
      var front, rv := ReviewAlerts(t, d, reviews[..|reviews| - 1]), reviews[|reviews| - 1];
      if !rv.what.Review? || PrKey(d, rv.what.pr) in t.closed then front
      else
        var out := Out(front, Alert(AlertId(PR_WAITING, rv.id), [PR_WAITING], d, 0));
        match Conflict(t, PrKey(d, rv.what.pr))
        case None => out
        case Some(c) => Out(out, Alert(AlertId(PR_CONFLICT, c), [PR_CONFLICT], d, 0))
  }

  /** Change requests of a demand, addressed to a role and not yet decided. */
  function OpenRequests(t: RequestTable, d: Demand, order: seq<string>): seq<string> {
    if order == [] then []
    else
      var front, cr := OpenRequests(t, d, order[..|order| - 1]), order[|order| - 1];
      if cr in t.requests && t.requests[cr].demand == d && cr !in t.closed
         && t.requests[cr].what.ChangeRequest? && t.requests[cr].what.to.Some?
      then front + [cr] else front
  }

  function RequestAlerts(d: Demand, requests: seq<string>): map<AlertId, Alert> {
    if requests == [] then map[]
    else
      var cr := AlertId(CHANGE_REQUEST_OPEN, requests[|requests| - 1]);
      Out(RequestAlerts(d, requests[..|requests| - 1]), Alert(cr, [CHANGE_REQUEST_OPEN], d, 0))
  }

  /** `_eval_demand`: every alert the tables call for in one demand. */
  function EvalDemand(t: Tables, d: Demand, files: Files): map<AlertId, Alert> {
    var closed := Closed(t, d);
    (if HardClosed(t, d) then map[] else GateAlerts(t.gates, KeysOf(t.gates.order, d), closed, files))
    + (if closed then map[] else TriageAlerts(d, OpenTriage(t.triage, d)))
    + (if d.Some? && d in t.ends.canceled then map[] else ReviewAlerts(t.prs, d, Get(t.prs.reviews, d)))
    + (if closed || d.None? then map[] else RequestAlerts(d, OpenRequests(t.requests, d, t.requests.order)))
  }

  // ---------------------------------------------------------------- replaying the log

  function ApplyGate(t: GateTable, i: nat, e: Event): GateTable {
    match e.what
    case Gate(Some(gate), _, _, _, _) =>
      t.(verdicts := Push(t.verdicts, GateKey(e.demand, gate), Indexed(i, e)),
         order := Queue(t.order, GateKey(e.demand, gate)))
    case Human(Some(gate), _) => t.(humans := Push(t.humans, GateKey(e.demand, gate), Indexed(i, e)))
    case _ => t
  }

  function ApplyTriage(t: TriageTable, e: Event): TriageTable {
    match e.what
    case Validation(_) => if e.demand.Some? then t.(validations := Push(t.validations, e.demand, e)) else t
    case Clarification(Some(v)) => t.(answered := t.answered + {v})
    case Start(true) => if e.demand.Some? then t.(overridden := t.overridden + {e.demand}) else t
    case _ => t
  }

  function ApplyEnd(t: EndTable, e: Event): EndTable {
    if e.demand.None? then t
    else if e.what == Control("cancel") then t.(canceled := t.canceled + {e.demand})
    else if e.what.Delivered? then t.(delivered := t.delivered + {e.demand})
    else if e.what.Gate? && e.what.gate == Some("G3") && e.what.recommendation == "APPROVE" then
      t.(g3Approved := t.g3Approved + {e.demand})
    else t
  }

  function ApplyPr(t: PrTable, e: Event): PrTable {
    match e.what
    case Review(_) => t.(reviews := Push(t.reviews, e.demand, e))
    case Delivered(pr) => t.(closed := t.closed + {PrKey(e.demand, pr)})
    case ReviewRejected(pr) => t.(closed := t.closed + {PrKey(e.demand, pr)})
    case PrConflict(pr) => if e.demand.Some? then t.(conflict := t.conflict[PrKey(e.demand, pr) := e]) else t
    case PrConflictCleared(pr) => if e.demand.Some? then t.(conflict := t.conflict[PrKey(e.demand, pr) := e]) else t
    case _ => t
  }

  function ApplyRequest(t: RequestTable, e: Event): RequestTable {
    match e.what
    case ChangeRequest(_) => t.(requests := t.requests[e.id := e], order := Queue(t.order, e.id))
    case Decision(Some(cr)) => t.(closed := t.closed + {cr})
    case _ => t
  }

  /** `_apply`, table by table. */
  function Apply(t: Tables, i: nat, e: Event): Tables {
    Tables(ApplyGate(t.gates, i, e), ApplyTriage(t.triage, e), ApplyEnd(t.ends, e), ApplyPr(t.prs, e),
           ApplyRequest(t.requests, e))
  }

  /** The demand an event re-evaluates, if any: that of the change request for a decision that closes one. */
  function Target(t: RequestTable, e: Event): Option<Demand> {
    match e.what
    case Other => None
    case Decision(None) => None
    case Decision(Some(cr)) => Some(if cr in t.requests then t.requests[cr].demand else e.demand)
    case _ => Some(e.demand)
  }

  /** An alert leaving the open ones, and the event that closed it. */
  datatype Closing = Closing(alert: AlertId, closedBy: string)

  datatype State = State(tables: Tables, open: map<AlertId, Alert>, history: multiset<Closing>)

  const FRESH := State(NO_TABLES, map[], multiset{})

  /** Open alerts of the demand that it no longer calls for. */
  function ToClose(open: map<AlertId, Alert>, d: Demand, desired: map<AlertId, Alert>): set<AlertId> {
    set aid | aid in open && open[aid].demand == d && aid !in desired
  }

  function Closings(ids: set<AlertId>, closedBy: string): set<Closing> {
    set aid | aid in ids :: Closing(aid, closedBy)
  }

  function Refresh(open: map<AlertId, Alert>, d: Demand, desired: map<AlertId, Alert>): map<AlertId, Alert> {
    (open - ToClose(open, d, desired)) + desired
  }

  /** One round of `_run`. */
  function Step(s: State, i: nat, e: Event, files: Files): State {
    var t := Apply(s.tables, i, e);
    match Target(t.requests, e)
    case None => s.(tables := t)
    case Some(d) =>
      var desired := EvalDemand(t, d, files);
      State(t, Refresh(s.open, d, desired), s.history + multiset(Closings(ToClose(s.open, d, desired), e.id)))
  }

  function Run(rows: seq<Event>, files: Files): State {
    if rows == [] then FRESH
    else Step(Run(rows[..|rows| - 1], files), |rows| - 1, rows[|rows| - 1], files)
  }

  /** The open alerts that belong to a demand. */
  function OpenOf(open: map<AlertId, Alert>, d: Demand): map<AlertId, Alert> {
    map aid | aid in open && open[aid].demand == d :: open[aid]
  }

  // ---------------------------------------------------------------- logs

  predicate UniqueIds(rows: seq<Event>) {
    forall i, j :: 0 <= i < j < |rows| ==> rows[i].id != rows[j].id
  }

  /** A clarification carries the demand of the validation it answers. */
  predicate ClarificationsMatch(rows: seq<Event>) {
    forall i, j :: 0 <= i < |rows| && 0 <= j < |rows| && rows[i].what == Clarification(Some(rows[j].id))
                   && rows[j].what.Validation?
      ==> rows[i].demand == rows[j].demand
  }

  predicate GatesFiled(t: GateTable, rows: seq<Event>) {
    && (forall key <- t.verdicts :: forall x <- t.verdicts[key] :: x.event in rows && x.event.demand == key.demand)
    && (forall key <- t.order :: key in t.verdicts)
  }

  predicate TriageFiled(t: TriageTable, rows: seq<Event>) {
    forall d <- t.validations :: forall v <- t.validations[d] :: v in rows && v.what.Validation? && v.demand == d
  }

  predicate PrsFiled(t: PrTable, rows: seq<Event>) {
    && (forall d <- t.reviews :: forall rv <- t.reviews[d] :: rv in rows && rv.demand == d)
    && (forall key <- t.conflict :: t.conflict[key] in rows && t.conflict[key].demand == key.demand)
  }

  predicate RequestsFiled(t: RequestTable, rows: seq<Event>) {
    && (forall cr <- t.requests :: t.requests[cr] in rows && t.requests[cr].id == cr)
    && (forall cr <- t.order :: cr in t.requests)
  }

  /** Every event in the tables is a row filed under its own demand. */
  predicate Filed(t: Tables, rows: seq<Event>) {
    GatesFiled(t.gates, rows) && TriageFiled(t.triage, rows) && PrsFiled(t.prs, rows) && RequestsFiled(t.requests, rows)
  }

  lemma GatesStayFiled(t: GateTable, rows: seq<Event>, i: nat, e: Event)
    requires GatesFiled(t, rows)
    ensures GatesFiled(ApplyGate(t, i, e), rows + [e])
  {
  }

  lemma TriageStaysFiled(t: TriageTable, rows: seq<Event>, e: Event)
    requires TriageFiled(t, rows)
    ensures TriageFiled(ApplyTriage(t, e), rows + [e])
  {
  }

  lemma PrsStayFiled(t: PrTable, rows: seq<Event>, e: Event)
    requires PrsFiled(t, rows)
    ensures PrsFiled(ApplyPr(t, e), rows + [e])
  {
  }

  lemma RequestsStayFiled(t: RequestTable, rows: seq<Event>, e: Event)
    requires RequestsFiled(t, rows)
    ensures RequestsFiled(ApplyRequest(t, e), rows + [e])
  {
  }

  lemma StaysFiled(t: Tables, rows: seq<Event>, i: nat, e: Event)
    requires Filed(t, rows)
    ensures Filed(Apply(t, i, e), rows + [e])
  {
    hide GatesFiled, TriageFiled, PrsFiled, RequestsFiled, ApplyGate, ApplyTriage, ApplyPr, ApplyRequest, ApplyEnd;
    GatesStayFiled(t.gates, rows, i, e);
    TriageStaysFiled(t.triage, rows, e);
    PrsStayFiled(t.prs, rows, e);
    RequestsStayFiled(t.requests, rows, e);
  }

  // ---------------------------------------------------------------- alerts belong to their demand

  /** Some row with this id carries this demand. */
  predicate Owns(rows: seq<Event>, id: string, d: Demand) {
    exists e <- rows :: e.id == id && e.demand == d
  }

  predicate AllOwned(alerts: map<AlertId, Alert>, rows: seq<Event>, d: Demand) {
    forall aid <- alerts :: alerts[aid].demand == d && Owns(rows, aid.event, d)
  }

  lemma OutOwned(alerts: map<AlertId, Alert>, a: Alert, rows: seq<Event>, d: Demand)
    requires AllOwned(alerts, rows, d) && a.demand == d && Owns(rows, a.id.event, d)
    ensures AllOwned(Out(alerts, a), rows, d)
  {
    hide Owns;
  }

  lemma EvalGateOwned(t: GateTable, key: GateKey, closed: bool, files: Files, rows: seq<Event>)
    requires GatesFiled(t, rows)
    ensures match EvalGate(key, Get(t.verdicts, key), Get(t.humans, key), closed, files)
            case None => true
            case Some(a) => a.demand == key.demand && Owns(rows, a.id.event, key.demand)
  {
    hide GateKinds, Returns;
    if key in t.verdicts && t.verdicts[key] != [] {
      assert t.verdicts[key][|t.verdicts[key]| - 1] in t.verdicts[key];
    }
  }

  lemma {:induction false} GateAlertsOwned(
    t: GateTable, keys: seq<GateKey>, onlyG3: bool, files: Files, rows: seq<Event>, d: Demand)
    requires GatesFiled(t, rows) && forall key <- keys :: key.demand == d
    ensures AllOwned(GateAlerts(t, keys, onlyG3, files), rows, d)
  {
    hide GatesFiled, EvalGate, Owns, Out, AllOwned, Get;
    if keys == [] {
      assert AllOwned(map[], rows, d) by { NoneOwned(rows, d); }
    } else {
      var key := keys[|keys| - 1];
      assert key in keys;
      GateAlertsOwned(t, keys[..|keys| - 1], onlyG3, files, rows, d);
      EvalGateOwned(t, key, onlyG3, files, rows);
      match EvalGate(key, Get(t.verdicts, key), Get(t.humans, key), onlyG3, files)
      case None =>
      case Some(a) => OutOwned(GateAlerts(t, keys[..|keys| - 1], onlyG3, files), a, rows, d);
    }
  }

  lemma NoneOwned(rows: seq<Event>, d: Demand)
    ensures AllOwned(map[], rows, d)
  {
  }

  lemma {:induction false} ReviewAlertsOwned(t: PrTable, d: Demand, reviews: seq<Event>, rows: seq<Event>)
    requires PrsFiled(t, rows) && forall rv <- reviews :: rv in rows && rv.demand == d
    ensures AllOwned(ReviewAlerts(t, d, reviews), rows, d)
  {
    if reviews != [] {
      var rv := reviews[|reviews| - 1];
      assert rv in reviews;
      ReviewAlertsOwned(t, d, reviews[..|reviews| - 1], rows);
    }
  }

  lemma {:induction false} OpenRequestsOwned(t: RequestTable, d: Demand, order: seq<string>, rows: seq<Event>)
    requires RequestsFiled(t, rows)
    ensures forall cr <- OpenRequests(t, d, order) :: Owns(rows, cr, d)
  {
    if order != [] {
      OpenRequestsOwned(t, d, order[..|order| - 1], rows);
    }
  }

  lemma {:induction false} RequestAlertsOwned(d: Demand, requests: seq<string>, rows: seq<Event>)
    requires forall cr <- requests :: Owns(rows, cr, d)
    ensures AllOwned(RequestAlerts(d, requests), rows, d)
  {
    hide Owns;
    if requests != [] {
      RequestAlertsOwned(d, requests[..|requests| - 1], rows);
      assert requests[|requests| - 1] in requests;
    }
  }

  lemma TriageOwned(t: TriageTable, d: Demand, rows: seq<Event>)
    requires TriageFiled(t, rows)
    ensures AllOwned(TriageAlerts(d, OpenTriage(t, d)), rows, d)
  {
    if OpenTriage(t, d).Some? {
      var vals := t.validations[d];
      assert vals[|vals| - 1] in vals;
    }
  }

  lemma {:induction false} KeysOfMembers(order: seq<GateKey>, d: Demand, key: GateKey)
    ensures key in KeysOf(order, d) <==> key in order && key.demand == d
  {
    if order != [] {
      KeysOfMembers(order[..|order| - 1], d, key);
      assert order == order[..|order| - 1] + [order[|order| - 1]];
    }
  }

  lemma BothOwned(a: map<AlertId, Alert>, b: map<AlertId, Alert>, rows: seq<Event>, d: Demand)
    requires AllOwned(a, rows, d) && AllOwned(b, rows, d)
    ensures AllOwned(a + b, rows, d)
  {
    hide Owns;
  }

  /** Alerts of a demand are about that demand's events. */
  lemma EvalDemandOwned(t: Tables, d: Demand, files: Files, rows: seq<Event>)
    requires Filed(t, rows)
    ensures AllOwned(EvalDemand(t, d, files), rows, d)
  {
    hide GateAlerts, TriageAlerts, ReviewAlerts, RequestAlerts, OpenRequests, KeysOf, OpenTriage, Closed, HardClosed;
    hide AllOwned, GatesFiled, TriageFiled, PrsFiled, RequestsFiled, Owns, Get;
    var closed := Closed(t, d);
    NoneOwned(rows, d);
    forall key | key in KeysOf(t.gates.order, d) ensures key.demand == d {
      KeysOfMembers(t.gates.order, d, key);
    }
    GateAlertsOwned(t.gates, KeysOf(t.gates.order, d), closed, files, rows, d);
    TriageOwned(t.triage, d, rows);
    ReviewsOwned(t.prs, d, rows);
    OpenRequestsOwned(t.requests, d, t.requests.order, rows);
    RequestAlertsOwned(d, OpenRequests(t.requests, d, t.requests.order), rows);
    var gates := if HardClosed(t, d) then map[] else GateAlerts(t.gates, KeysOf(t.gates.order, d), closed, files);
    var triage := if closed then map[] else TriageAlerts(d, OpenTriage(t.triage, d));
    var prs := if d.Some? && d in t.ends.canceled then map[] else ReviewAlerts(t.prs, d, Get(t.prs.reviews, d));
    var requests :=
      if closed || d.None? then map[] else RequestAlerts(d, OpenRequests(t.requests, d, t.requests.order));
    BothOwned(gates, triage, rows, d);
    BothOwned(gates + triage, prs, rows, d);
    BothOwned(gates + triage + prs, requests, rows, d);
  }

  lemma ReviewsOwned(t: PrTable, d: Demand, rows: seq<Event>)
    requires PrsFiled(t, rows)
    ensures AllOwned(ReviewAlerts(t, d, Get(t.reviews, d)), rows, d)
  {
    hide ReviewAlerts, AllOwned;
    ReviewAlertsOwned(t, d, Get(t.reviews, d), rows);
  }

  // ---------------------------------------------------------------- what an event leaves alone

  /** The row's id is not yet in the log. */
  predicate IsNew(rows: seq<Event>, e: Event) {
    forall r <- rows :: r.id != e.id
  }

  /**
   * A clarification filed elsewhere that answers the open triage of `d`: `_run` does not look at `d` again, although
   * it no longer calls for the alert. Decidable before the row is appended.
   */
  predicate Strays(t: Tables, e: Event, d: Demand) {
    && e.what.Clarification? && e.what.validation.Some? && e.demand != d
    && !Closed(t, d) && OpenTriage(t.triage, d) == e.what.validation
  }

  lemma {:induction false} SameGateAlerts(t: GateTable, u: GateTable, keys: seq<GateKey>, onlyG3: bool, files: Files)
    requires forall key <- keys ::
               Get(t.verdicts, key) == Get(u.verdicts, key) && Get(t.humans, key) == Get(u.humans, key)
    ensures GateAlerts(t, keys, onlyG3, files) == GateAlerts(u, keys, onlyG3, files)
  {
    hide EvalGate, Get;
    if keys != [] {
      assert keys[|keys| - 1] in keys;
      SameGateAlerts(t, u, keys[..|keys| - 1], onlyG3, files);
    }
  }

  lemma OtherGates(t: GateTable, i: nat, e: Event, d: Demand, onlyG3: bool, files: Files)
    requires e.demand != d
    ensures var u := ApplyGate(t, i, e);
            GateAlerts(u, KeysOf(u.order, d), onlyG3, files) == GateAlerts(t, KeysOf(t.order, d), onlyG3, files)
  {
    hide GateAlerts;
    var u := ApplyGate(t, i, e);
    if u.order != t.order {
      assert u.order[..|u.order| - 1] == t.order;
    }
    assert KeysOf(u.order, d) == KeysOf(t.order, d);
    forall key | key in KeysOf(t.order, d)
      ensures Get(t.verdicts, key) == Get(u.verdicts, key) && Get(t.humans, key) == Get(u.humans, key)
    {
      KeysOfMembers(t.order, d, key);
    }
    SameGateAlerts(t, u, KeysOf(t.order, d), onlyG3, files);
  }

  /** Another demand's event ends the open triage of `d` only by answering it. */
  lemma OtherTriage(t: TriageTable, e: Event, d: Demand)
    requires e.demand != d
    ensures OpenTriage(ApplyTriage(t, e), d) ==
            if e.what.Clarification? && OpenTriage(t, d).Some? && e.what.validation == OpenTriage(t, d) then None
            else OpenTriage(t, d)
  {
  }

  lemma {:induction false} SameReviewAlerts(t: PrTable, u: PrTable, d: Demand, reviews: seq<Event>)
    requires forall pr ::
               (PrKey(d, pr) in t.closed <==> PrKey(d, pr) in u.closed)
               && Conflict(t, PrKey(d, pr)) == Conflict(u, PrKey(d, pr))
    ensures ReviewAlerts(t, d, reviews) == ReviewAlerts(u, d, reviews)
  {
    hide Conflict;
    if reviews != [] {
      SameReviewAlerts(t, u, d, reviews[..|reviews| - 1]);
    }
  }

  lemma OtherPrs(t: PrTable, e: Event, d: Demand)
    requires e.demand != d
    ensures var u := ApplyPr(t, e);
            && Get(u.reviews, d) == Get(t.reviews, d)
            && ReviewAlerts(u, d, Get(u.reviews, d)) == ReviewAlerts(t, d, Get(t.reviews, d))
  {
    hide ReviewAlerts;
    SameReviewAlerts(t, ApplyPr(t, e), d, Get(t.reviews, d));
  }

  lemma {:induction false} SameRequests(t: RequestTable, u: RequestTable, d: Demand, order: seq<string>)
    requires forall cr <- order :: cr in t.requests && cr in u.requests && t.requests[cr] == u.requests[cr]
    requires forall cr <- order :: t.requests[cr].demand == d ==> (cr in t.closed <==> cr in u.closed)
    ensures OpenRequests(t, d, order) == OpenRequests(u, d, order)
  {
    if order != [] {
      SameRequests(t, u, d, order[..|order| - 1]);
      assert order[|order| - 1] in order;
    }
  }

  lemma OtherRequests(t: RequestTable, rows: seq<Event>, e: Event, d: Demand)
    requires RequestsFiled(t, rows) && IsNew(rows, e) && Target(ApplyRequest(t, e), e) != Some(d)
    ensures var u := ApplyRequest(t, e);
            OpenRequests(u, d, u.order) == OpenRequests(t, d, t.order)
  {
    var u := ApplyRequest(t, e);
    if e.what.ChangeRequest? {
      assert e.id !in t.order;
      assert u.order[..|u.order| - 1] == t.order;
    }
    SameRequests(t, u, d, t.order);
  }

  lemma OtherEnds(t: Tables, i: nat, e: Event, d: Demand)
    requires e.demand != d
    ensures var u := Apply(t, i, e);
            && HardClosed(u, d) == HardClosed(t, d) && Closed(u, d) == Closed(t, d)
            && (d in u.ends.canceled <==> d in t.ends.canceled)
  {
    hide ApplyGate, ApplyTriage, ApplyPr, ApplyRequest, ReviewAlerts;
    OtherPrs(t.prs, e, d);
  }

  /** A decision touches the request table only; an event that re-evaluates nothing touches nothing else either. */
  lemma OnlyRequests(t: Tables, i: nat, e: Event)
    requires e.what.Decision? || e.what.Other?
    ensures Apply(t, i, e) == t.(requests := ApplyRequest(t.requests, e))
  {
    hide ApplyRequest;
  }

  /** The parts of a demand's evaluation other than triage. */
  lemma SameParts(t: Tables, rows: seq<Event>, i: nat, e: Event, d: Demand, files: Files)
    requires Filed(t, rows) && IsNew(rows, e) && Target(Apply(t, i, e).requests, e) != Some(d)
    ensures var u := Apply(t, i, e);
            && HardClosed(u, d) == HardClosed(t, d) && Closed(u, d) == Closed(t, d)
            && (d in u.ends.canceled <==> d in t.ends.canceled)
            && GateAlerts(u.gates, KeysOf(u.gates.order, d), Closed(t, d), files)
               == GateAlerts(t.gates, KeysOf(t.gates.order, d), Closed(t, d), files)
            && ReviewAlerts(u.prs, d, Get(u.prs.reviews, d)) == ReviewAlerts(t.prs, d, Get(t.prs.reviews, d))
            && OpenRequests(u.requests, d, u.requests.order) == OpenRequests(t.requests, d, t.requests.order)
  {
    hide GateAlerts, ReviewAlerts, OpenRequests, KeysOf, Get;
    hide GatesFiled, TriageFiled, PrsFiled, RequestsFiled, IsNew;
    hide ApplyGate, ApplyTriage, ApplyEnd, ApplyPr, ApplyRequest;
    OtherRequests(t.requests, rows, e, d);
    if e.what.Decision? || e.what.Other? {
      OnlyRequests(t, i, e);
    } else {
      hide Closed, HardClosed;
      OtherEnds(t, i, e, d);
      OtherGates(t.gates, i, e, d, Closed(t, d), files);
      OtherPrs(t.prs, e, d);
    }
  }

  lemma OtherOpenTriage(t: Tables, i: nat, e: Event, d: Demand)
    requires Target(Apply(t, i, e).requests, e) != Some(d)
    ensures OpenTriage(Apply(t, i, e).triage, d) ==
            if e.what.Clarification? && OpenTriage(t.triage, d).Some?
               && e.what.validation == OpenTriage(t.triage, d) then None
            else OpenTriage(t.triage, d)
    ensures e.what.Clarification? ==> e.demand != d
  {
    hide ApplyGate, ApplyTriage, ApplyEnd, ApplyPr, ApplyRequest, OpenTriage;
    if e.what.Decision? || e.what.Other? {
      OnlyRequests(t, i, e);
    } else {
      OtherTriage(t.triage, e, d);
    }
  }

  /** An event changes nothing in a demand it does not re-evaluate, but for the triage a stray clarification ends. */
  lemma OthersAreUntouched(t: Tables, rows: seq<Event>, i: nat, e: Event, d: Demand, files: Files)
    requires Filed(t, rows) && IsNew(rows, e) && Target(Apply(t, i, e).requests, e) != Some(d)
    ensures EvalDemand(Apply(t, i, e), d, files) ==
            if Strays(t, e, d) then EvalDemand(t, d, files) - {AlertId(TRIAGE_OPEN, e.what.validation.value)}
            else EvalDemand(t, d, files)
  {
    hide GateAlerts, ReviewAlerts, RequestAlerts, OpenRequests, KeysOf, OpenTriage, Get;
    hide Filed, IsNew, Closed, HardClosed, Apply, Target;
    SameParts(t, rows, i, e, d, files);
    OtherOpenTriage(t, i, e, d);
    if Strays(t, e, d) {
      var id := AlertId(TRIAGE_OPEN, e.what.validation.value);
      OnlyTriageAlerts(t, d, files, id);
      var gates :=
        if HardClosed(t, d) then map[] else GateAlerts(t.gates, KeysOf(t.gates.order, d), Closed(t, d), files);
      var prs := if d.Some? && d in t.ends.canceled then map[] else ReviewAlerts(t.prs, d, Get(t.prs.reviews, d));
      var requests := if d.None? then map[] else RequestAlerts(d, OpenRequests(t.requests, d, t.requests.order));
      var a := Alert(id, [TRIAGE_OPEN], d, 0);
      assert EvalDemand(t, d, files) == gates + map[id := a] + prs + requests;
      assert EvalDemand(Apply(t, i, e), d, files) == gates + map[] + prs + requests;
      DropFromSum(gates, prs, requests, id, a);
    }
  }

  lemma DropFromSum<K, V>(a: map<K, V>, b: map<K, V>, c: map<K, V>, k: K, v: V)
    requires k !in a && k !in b && k !in c
    ensures (a + map[k := v] + b + c) - {k} == a + map[] + b + c
  {
  }

  /** Alerts of open triage come from the triage alone. */
  lemma OnlyTriageAlerts(t: Tables, d: Demand, files: Files, id: AlertId)
    requires id.kind == TRIAGE_OPEN
    ensures id !in GateAlerts(t.gates, KeysOf(t.gates.order, d), Closed(t, d), files)
    ensures id !in ReviewAlerts(t.prs, d, Get(t.prs.reviews, d))
    ensures id !in RequestAlerts(d, OpenRequests(t.requests, d, t.requests.order))
  {
    NoGateTriage(t.gates, KeysOf(t.gates.order, d), Closed(t, d), files, id);
    NoReviewTriage(t.prs, d, Get(t.prs.reviews, d), id);
    NoRequestTriage(d, OpenRequests(t.requests, d, t.requests.order), id);
  }

  lemma {:induction false} NoGateTriage(t: GateTable, keys: seq<GateKey>, onlyG3: bool, files: Files, id: AlertId)
    requires id.kind == TRIAGE_OPEN
    ensures id !in GateAlerts(t, keys, onlyG3, files)
  {
    hide Returns, HumanAfter, IsLow;
    if keys != [] {
      NoGateTriage(t, keys[..|keys| - 1], onlyG3, files, id);
    }
  }

  lemma {:induction false} NoReviewTriage(t: PrTable, d: Demand, reviews: seq<Event>, id: AlertId)
    requires id.kind == TRIAGE_OPEN
    ensures id !in ReviewAlerts(t, d, reviews)
  {
    if reviews != [] {
      NoReviewTriage(t, d, reviews[..|reviews| - 1], id);
    }
  }

  lemma {:induction false} NoRequestTriage(d: Demand, requests: seq<string>, id: AlertId)
    requires id.kind == TRIAGE_OPEN
    ensures id !in RequestAlerts(d, requests)
  {
    if requests != [] {
      NoRequestTriage(d, requests[..|requests| - 1], id);
    }
  }

  // ---------------------------------------------------------------- incremental equals from scratch

  /** The open alerts are those every demand calls for. */
  ghost predicate UpToDate(s: State, files: Files) {
    forall d: Demand :: OpenOf(s.open, d) == EvalDemand(s.tables, d, files)
  }

  lemma OneOwner(rows: seq<Event>, id: string, d: Demand, d2: Demand)
    requires UniqueIds(rows) && Owns(rows, id, d) && Owns(rows, id, d2)
    ensures d == d2
  {
    var a :| a in rows && a.id == id && a.demand == d;
    var b :| b in rows && b.id == id && b.demand == d2;
    var i :| 0 <= i < |rows| && rows[i] == a;
    var j :| 0 <= j < |rows| && rows[j] == b;
  }

  /** The re-evaluated demand gets exactly what it calls for. */
  lemma RefreshedDemand(open: map<AlertId, Alert>, d: Demand, desired: map<AlertId, Alert>, rows: seq<Event>)
    requires AllOwned(desired, rows, d)
    ensures OpenOf(Refresh(open, d, desired), d) == desired
  {
    hide Owns;
  }

  /** Alerts of another demand are neither closed nor replaced. */
  lemma OtherDemand(open: map<AlertId, Alert>, d: Demand, desired: map<AlertId, Alert>, d2: Demand, rows: seq<Event>)
    requires UniqueIds(rows) && d2 != d && AllOwned(desired, rows, d) && AllOwned(OpenOf(open, d2), rows, d2)
    ensures OpenOf(Refresh(open, d, desired), d2) == OpenOf(open, d2)
  {
    hide UniqueIds, Owns;
    forall aid | aid in OpenOf(open, d2) ensures aid !in desired {
      if aid in desired {
        OneOwner(rows, aid.event, d, d2);
      }
    }
  }

  /** The triage of `d` that a stray clarification answered since `d` was last re-evaluated, if any. */
  function Stale(rows: seq<Event>, files: Files, d: Demand): Option<string> {
    if rows == [] then None
    else
      var front, e := rows[..|rows| - 1], rows[|rows| - 1];
      var t := Run(front, files).tables;
      if Target(Apply(t, |front|, e).requests, e) == Some(d) then None
      else if Strays(t, e, d) then e.what.validation
      else Stale(front, files, d)
  }

  /** Alerts with the one of a stale triage. */
  function With(alerts: map<AlertId, Alert>, d: Demand, stale: Option<string>): map<AlertId, Alert> {
    alerts + TriageAlerts(d, stale)
  }

  /** The open alerts of a demand are what it calls for and its stale triage, which it does not call for. */
  ghost predicate ExactFor(s: State, rows: seq<Event>, files: Files, d: Demand) {
    var stale := Stale(rows, files, d);
    && OpenOf(s.open, d) == With(EvalDemand(s.tables, d, files), d, stale)
    && (stale.Some? ==>
         && Owns(rows, stale.value, d) && OpenTriage(s.tables.triage, d).None?
         && AlertId(TRIAGE_OPEN, stale.value) !in EvalDemand(s.tables, d, files))
  }

  lemma StepTables(s: State, i: nat, e: Event, files: Files)
    ensures Step(s, i, e, files).tables == Apply(s.tables, i, e)
  {
    hide Apply, EvalDemand, Refresh, ToClose, Target;
  }

  lemma OpenTriageOwned(t: TriageTable, d: Demand, rows: seq<Event>)
    requires TriageFiled(t, rows) && OpenTriage(t, d).Some?
    ensures Owns(rows, OpenTriage(t, d).value, d)
  {
    var vals := Get(t.validations, d);
    assert vals[|vals| - 1] in t.validations[d];
  }

  lemma TriageIsShown(t: Tables, d: Demand, files: Files)
    requires !Closed(t, d) && OpenTriage(t.triage, d).Some?
    ensures var id := AlertId(TRIAGE_OPEN, OpenTriage(t.triage, d).value);
            id in EvalDemand(t, d, files) && EvalDemand(t, d, files)[id] == Alert(id, [TRIAGE_OPEN], d, 0)
  {
    hide GateAlerts, ReviewAlerts, RequestAlerts, OpenRequests, KeysOf, OpenTriage, Get, Closed, HardClosed;
    OnlyTriageAlerts(t, d, files, AlertId(TRIAGE_OPEN, OpenTriage(t.triage, d).value));
  }

  lemma OwnsMore(rows: seq<Event>, e: Event, id: string, d: Demand)
    requires Owns(rows, id, d)
    ensures Owns(rows + [e], id, d)
  {
    var r :| r in rows && r.id == id && r.demand == d;
    assert r in rows + [e];
  }

  lemma ExactIsOwned(s: State, rows: seq<Event>, e: Event, files: Files, d: Demand)
    requires Filed(s.tables, rows) && ExactFor(s, rows, files, d)
    ensures AllOwned(OpenOf(s.open, d), rows + [e], d)
  {
    hide Filed, EvalDemand, OpenOf, Owns, Stale;
    EvalDemandOwned(s.tables, d, files, rows);
    forall aid | aid in OpenOf(s.open, d)
      ensures OpenOf(s.open, d)[aid].demand == d && Owns(rows + [e], aid.event, d)
    {
      OwnsMore(rows, e, aid.event, d);
    }
  }

  /** What is open in a demand the event does not re-evaluate stays open. */
  lemma OpenStays(s: State, rows: seq<Event>, e: Event, files: Files, d: Demand)
    requires Filed(s.tables, rows) && UniqueIds(rows + [e]) && ExactFor(s, rows, files, d)
    requires Target(Apply(s.tables, |rows|, e).requests, e) != Some(d)
    ensures OpenOf(Step(s, |rows|, e, files).open, d) == OpenOf(s.open, d)
  {
    hide Filed, EvalDemand, Apply, Target, OpenOf, ToClose, Refresh, UniqueIds, AllOwned, ExactFor;
    var t, more := Apply(s.tables, |rows|, e), rows + [e];
    if Target(t.requests, e).Some? {
      var target := Target(t.requests, e).value;
      StaysFiled(s.tables, rows, |rows|, e);
      EvalDemandOwned(t, target, files, more);
      ExactIsOwned(s, rows, e, files, d);
      OtherDemand(s.open, target, EvalDemand(t, target, files), d, more);
    }
  }

  lemma RefreshedIsExact(s: State, rows: seq<Event>, e: Event, files: Files, d: Demand)
    requires Filed(s.tables, rows) && s == Run(rows, files)
    requires Target(Apply(s.tables, |rows|, e).requests, e) == Some(d)
    ensures ExactFor(Step(s, |rows|, e, files), rows + [e], files, d)
  {
    hide Filed, EvalDemand, Apply, Target, OpenOf, ToClose, Refresh, AllOwned, Strays, Stale, Owns, Run, OpenTriage;
    var t := Apply(s.tables, |rows|, e);
    StaysFiled(s.tables, rows, |rows|, e);
    EvalDemandOwned(t, d, files, rows + [e]);
    RefreshedDemand(s.open, d, EvalDemand(t, d, files), rows + [e]);
    NotStale(rows, e, files, d);
    assert EvalDemand(t, d, files) + map[] == EvalDemand(t, d, files);
  }

  lemma NotStale(rows: seq<Event>, e: Event, files: Files, d: Demand)
    requires Target(Apply(Run(rows, files).tables, |rows|, e).requests, e) == Some(d)
    ensures Stale(rows + [e], files, d).None?
  {
    hide Apply, Target, Strays, Run;
    assert (rows + [e])[..|rows|] == rows;
  }

  lemma StepKeepsExact(s: State, rows: seq<Event>, e: Event, files: Files, d: Demand)
    requires Filed(s.tables, rows) && IsNew(rows, e) && UniqueIds(rows + [e]) && s == Run(rows, files)
    requires ExactFor(s, rows, files, d)
    ensures ExactFor(Step(s, |rows|, e, files), rows + [e], files, d)
  {
    hide Filed, EvalDemand, Apply, Target, OpenOf, UniqueIds, OpenTriage, Closed, IsNew, Owns, Step, Run;
    var t, more, after := Apply(s.tables, |rows|, e), rows + [e], Step(s, |rows|, e, files);
    if Target(t.requests, e) == Some(d) {
      RefreshedIsExact(s, rows, e, files, d);
    } else {
      StepTables(s, |rows|, e, files);
      OpenStays(s, rows, e, files, d);
      OthersAreUntouched(s.tables, rows, |rows|, e, d, files);
      OtherOpenTriage(s.tables, |rows|, e, d);
      assert more[..|rows|] == rows;
      if Strays(s.tables, e, d) {
        StrayIsStale(s, rows, e, files, d);
      } else if Stale(rows, files, d).Some? {
        OwnsMore(rows, e, Stale(rows, files, d).value, d);
      }
    }
  }

  lemma StrayIsStale(s: State, rows: seq<Event>, e: Event, files: Files, d: Demand)
    requires Filed(s.tables, rows) && s == Run(rows, files) && ExactFor(s, rows, files, d) && Strays(s.tables, e, d)
    requires Target(Apply(s.tables, |rows|, e).requests, e) != Some(d)
    requires var after, id := Step(s, |rows|, e, files), AlertId(TRIAGE_OPEN, e.what.validation.value);
             && OpenOf(after.open, d) == OpenOf(s.open, d) && OpenTriage(after.tables.triage, d).None?
             && EvalDemand(after.tables, d, files) == EvalDemand(s.tables, d, files) - {id}
    ensures ExactFor(Step(s, |rows|, e, files), rows + [e], files, d)
  {
    hide Filed, EvalDemand, Apply, Target, OpenOf, Owns, Step, Run, Closed, OpenTriage;
    var v := e.what.validation.value;
    var id := AlertId(TRIAGE_OPEN, v);
    assert Stale(rows, files, d).None?;
    TriageIsShown(s.tables, d, files);
    assert TriageFiled(s.tables.triage, rows) by { FiledTriage(s.tables, rows); }
    OpenTriageOwned(s.tables.triage, d, rows);
    OwnsMore(rows, e, v, d);
    assert (rows + [e])[..|rows|] == rows;
    assert Stale(rows + [e], files, d) == Some(v);
    var all := EvalDemand(s.tables, d, files);
    assert all == (all - {id}) + map[id := Alert(id, [TRIAGE_OPEN], d, 0)];
  }

  lemma FiledTriage(t: Tables, rows: seq<Event>)
    requires Filed(t, rows)
    ensures TriageFiled(t.triage, rows)
  {
  }

  lemma PrefixIsNew(rows: seq<Event>)
    requires UniqueIds(rows) && rows != []
    ensures UniqueIds(rows[..|rows| - 1]) && IsNew(rows[..|rows| - 1], rows[|rows| - 1])
  {
    var front := rows[..|rows| - 1];
    assert forall i :: 0 <= i < |front| ==> front[i] == rows[i];
  }

  lemma NothingYet(files: Files, d: Demand)
    ensures Filed(NO_TABLES, []) && ExactFor(FRESH, [], files, d)
  {
  }

  lemma {:induction false} RunIsFiled(rows: seq<Event>, files: Files)
    ensures Filed(Run(rows, files).tables, rows)
  {
    hide Filed, Apply, Target, Step;
    if rows == [] {
      NothingYet(files, None);
    } else {
      var front, e := rows[..|rows| - 1], rows[|rows| - 1];
      RunIsFiled(front, files);
      assert rows == front + [e];
      StaysFiled(Run(front, files).tables, front, |front|, e);
      StepTables(Run(front, files), |front|, e, files);
    }
  }

  /**
   * After every log with unique ids, the alerts kept open event by event are those that evaluating the demand from
   * scratch calls for, and the one of its stale triage, if any.
   */
  lemma {:induction false} OpenIsExact(rows: seq<Event>, files: Files, d: Demand)
    requires UniqueIds(rows)
    ensures ExactFor(Run(rows, files), rows, files, d)
  {
    hide Filed, IsNew, UniqueIds, ExactFor, Step;
    if rows == [] {
      NothingYet(files, d);
    } else {
      var front, e := rows[..|rows| - 1], rows[|rows| - 1];
      PrefixIsNew(rows);
      OpenIsExact(front, files, d);
      RunIsFiled(front, files);
      assert rows == front + [e];
      StepKeepsExact(Run(front, files), front, e, files, d);
    }
  }

  /** So they are exactly what evaluation from scratch calls for if and only if no demand has a stale triage. */
  lemma UpToDateIff(rows: seq<Event>, files: Files)
    requires UniqueIds(rows)
    ensures UpToDate(Run(rows, files), files) <==> forall d: Demand :: Stale(rows, files, d).None?
  {
    hide Run, UniqueIds, EvalDemand, OpenOf, Stale, Owns;
    var s := Run(rows, files);
    forall d: Demand ensures ExactFor(s, rows, files, d) {
      OpenIsExact(rows, files, d);
    }
    if d: Demand :| Stale(rows, files, d).Some? {
      assert ExactFor(s, rows, files, d);
      assert AlertId(TRIAGE_OPEN, Stale(rows, files, d).value) in OpenOf(s.open, d);
      assert OpenOf(s.open, d) != EvalDemand(s.tables, d, files);
    } else {
      forall d: Demand ensures OpenOf(s.open, d) == EvalDemand(s.tables, d, files) {
        assert ExactFor(s, rows, files, d) && Stale(rows, files, d).None?;
        assert EvalDemand(s.tables, d, files) + map[] == EvalDemand(s.tables, d, files);
      }
    }
  }

  /** Some demand's open triage is answered by a clarification filed elsewhere. */
  ghost predicate StraysAt(rows: seq<Event>, files: Files, i: nat)
    requires i < |rows|
  {
    exists d: Demand :: Strays(Run(rows[..i], files).tables, rows[i], d)
  }

  /** After every prefix of a log the alerts are exact if and only if no row of it is a stray clarification. */
  lemma AlwaysUpToDateIff(rows: seq<Event>, files: Files)
    requires UniqueIds(rows)
    ensures (forall n :: 0 <= n <= |rows| ==> UpToDate(Run(rows[..n], files), files))
       <==> forall i :: 0 <= i < |rows| ==> !StraysAt(rows, files, i)
  {
    hide Run, UpToDate, UniqueIds, Strays;
    forall n | 0 <= n <= |rows| ensures UniqueIds(rows[..n]) {
      PrefixIsUnique(rows, n);
    }
    if i :| 0 <= i < |rows| && StraysAt(rows, files, i) {
      var d: Demand :| Strays(Run(rows[..i], files).tables, rows[i], d);
      StrayShows(rows, files, i, d);
      UpToDateIff(rows[..i + 1], files);
    }
    if forall i :: 0 <= i < |rows| ==> !StraysAt(rows, files, i) {
      forall n | 0 <= n <= |rows| ensures UpToDate(Run(rows[..n], files), files) {
        forall d: Demand ensures Stale(rows[..n], files, d).None? {
          NoStrayNoStale(rows, files, n, d);
        }
        UpToDateIff(rows[..n], files);
      }
    }
  }

  lemma PrefixIsUnique(rows: seq<Event>, n: nat)
    requires UniqueIds(rows) && n <= |rows|
    ensures UniqueIds(rows[..n])
  {
  }

  lemma StrayShows(rows: seq<Event>, files: Files, i: nat, d: Demand)
    requires i < |rows| && Strays(Run(rows[..i], files).tables, rows[i], d)
    ensures Stale(rows[..i + 1], files, d).Some?
  {
    hide Run, Apply, Closed, OpenTriage;
    assert rows[..i + 1][..i] == rows[..i];
  }

  lemma {:induction false} NoStrayNoStale(rows: seq<Event>, files: Files, n: nat, d: Demand)
    requires n <= |rows| && forall i :: 0 <= i < |rows| ==> !StraysAt(rows, files, i)
    ensures Stale(rows[..n], files, d).None?
  {
    hide Run, Apply, Target, Strays;
    if n > 0 {
      NoStrayNoStale(rows, files, n - 1, d);
      assert rows[..n][..n - 1] == rows[..n - 1];
      assert !StraysAt(rows, files, n - 1);
    }
  }

  lemma LastValidation(t: TriageTable, rows: seq<Event>, d: Demand)
    requires TriageFiled(t, rows) && OpenTriage(t, d).Some?
    ensures exists j :: 0 <= j < |rows| && rows[j].what.Validation? && rows[j].demand == d
                        && rows[j].id == OpenTriage(t, d).value
  {
    var vals := Get(t.validations, d);
    var v := vals[|vals| - 1];
    assert v in t.validations[d];
    var j :| 0 <= j < |rows| && rows[j] == v;
  }

  /** A clarification that carries the demand of the validation it answers never strays. */
  lemma MatchingNeverStrays(rows: seq<Event>, files: Files, i: nat)
    requires ClarificationsMatch(rows) && i < |rows|
    ensures !StraysAt(rows, files, i)
  {
    hide Run;
    var t, e := Run(rows[..i], files).tables, rows[i];
    RunIsFiled(rows[..i], files);
    if d: Demand :| Strays(t, e, d) {
      LastValidation(t.triage, rows[..i], d);
    }
  }

  /**
   * After every log with unique ids in which each clarification carries its validation's demand, the alerts kept open
   * event by event are exactly those that evaluating every demand from scratch calls for, with the same kinds.
   */
  lemma IncrementalIsFromScratch(rows: seq<Event>, files: Files, aid: AlertId)
    requires UniqueIds(rows) && ClarificationsMatch(rows)
    ensures var s := Run(rows, files);
            && (aid in s.open <==> exists d: Demand :: aid in EvalDemand(s.tables, d, files))
            && (forall d: Demand :: aid in EvalDemand(s.tables, d, files) ==>
                  s.open[aid] == EvalDemand(s.tables, d, files)[aid] && s.open[aid].demand == d)
  {
    hide UniqueIds, ClarificationsMatch, EvalDemand, StraysAt, Run, UpToDate;
    forall i | 0 <= i < |rows| ensures !StraysAt(rows, files, i) {
      MatchingNeverStrays(rows, files, i);
    }
    AlwaysUpToDateIff(rows, files);
    assert rows[..|rows|] == rows;
    assert UpToDate(Run(rows[..|rows|], files), files);
    UpToDateMeans(Run(rows, files), files, aid);
  }

  lemma UpToDateMeans(s: State, files: Files, aid: AlertId)
    requires UpToDate(s, files)
    ensures aid in s.open <==> exists d: Demand :: aid in EvalDemand(s.tables, d, files)
    ensures forall d: Demand :: aid in EvalDemand(s.tables, d, files) ==>
              aid in s.open && s.open[aid] == EvalDemand(s.tables, d, files)[aid] && s.open[aid].demand == d
  {
    hide EvalDemand;
    if aid in s.open {
      assert aid in OpenOf(s.open, s.open[aid].demand);
      assert aid in EvalDemand(s.tables, s.open[aid].demand, files);
    }
    forall d: Demand | aid in EvalDemand(s.tables, d, files)
      ensures aid in s.open && s.open[aid] == EvalDemand(s.tables, d, files)[aid] && s.open[aid].demand == d
    {
      assert aid in OpenOf(s.open, d);
    }
  }

  /** Alerts other than triage are exact after every log with unique ids, whatever its clarifications. */
  lemma OthersAreFromScratch(rows: seq<Event>, files: Files, aid: AlertId)
    requires UniqueIds(rows) && aid.kind != TRIAGE_OPEN
    ensures var s := Run(rows, files);
            && (aid in s.open <==> exists d: Demand :: aid in EvalDemand(s.tables, d, files))
            && (forall d: Demand :: aid in EvalDemand(s.tables, d, files) ==>
                  s.open[aid] == EvalDemand(s.tables, d, files)[aid] && s.open[aid].demand == d)
  {
    hide UniqueIds, EvalDemand, Run, Stale, Owns;
    var s := Run(rows, files);
    if aid in s.open {
      OpenIsExact(rows, files, s.open[aid].demand);
      assert aid in OpenOf(s.open, s.open[aid].demand);
      assert aid in EvalDemand(s.tables, s.open[aid].demand, files);
    }
    forall d: Demand | aid in EvalDemand(s.tables, d, files)
      ensures aid in s.open && s.open[aid] == EvalDemand(s.tables, d, files)[aid] && s.open[aid].demand == d
    {
      OpenIsExact(rows, files, d);
      assert aid in OpenOf(s.open, d);
    }
  }

  // ---------------------------------------------------------------- history

  /** Alerts open before an event and not after it. */
  function Left(before: map<AlertId, Alert>, after: map<AlertId, Alert>): set<AlertId> {
    before.Keys - after.Keys
  }

  /** Each alert that leaves the open ones adds exactly one entry, naming the event that closed it. */
  lemma ClosingAddsOneEntry(s: State, i: nat, e: Event, files: Files)
    ensures var after := Step(s, i, e, files);
            after.history == s.history + multiset(Closings(Left(s.open, after.open), e.id))
  {
    hide Apply, EvalDemand;
    var t := Apply(s.tables, i, e);
    match Target(t.requests, e)
    case None =>
      assert Left(s.open, s.open) == {};
      assert Closings({}, e.id) == {};
    case Some(d) =>
      var desired := EvalDemand(t, d, files);
      assert Left(s.open, Refresh(s.open, d, desired)) == ToClose(s.open, d, desired);
  }

  /** The closing is that of an alert by the i-th event of the log. */
  predicate LeftAt(rows: seq<Event>, files: Files, i: int, c: Closing) {
    0 <= i < |rows| && rows[i].id == c.closedBy
    && c.alert in Left(Run(rows[..i], files).open, Run(rows[..i + 1], files).open)
  }

  lemma LeftAtPrefix(rows: seq<Event>, files: Files, i: nat, c: Closing)
    requires i < |rows| - 1
    ensures LeftAt(rows[..|rows| - 1], files, i, c) <==> LeftAt(rows, files, i, c)
  {
    hide Run;
    assert rows[..|rows| - 1][..i] == rows[..i] && rows[..|rows| - 1][..i + 1] == rows[..i + 1];
  }

  lemma LastStep(rows: seq<Event>, files: Files, c: Closing)
    requires rows != []
    ensures var front, n := rows[..|rows| - 1], |rows| - 1;
            && Run(rows, files).history ==
               Run(front, files).history +
               multiset(Closings(Left(Run(front, files).open, Run(rows, files).open), rows[n].id))
            && (LeftAt(rows, files, n, c) <==>
                c in Closings(Left(Run(front, files).open, Run(rows, files).open), rows[n].id))
  {
    hide Step;
    var n := |rows| - 1;
    ClosingAddsOneEntry(Run(rows[..n], files), n, rows[n], files);
    assert rows[..n + 1] == rows;
  }

  /** Over a whole log: one entry for each alert and each event at which it left the open ones, and no other. */
  lemma {:induction false} HistoryIsClosings(rows: seq<Event>, files: Files, c: Closing)
    requires UniqueIds(rows)
    ensures Run(rows, files).history[c] <= 1
    ensures c in Run(rows, files).history <==> exists i :: LeftAt(rows, files, i, c)
  {
    if rows == [] {
      assert Run([], files) == FRESH;
    } else {
      hide Run, Left, Closings;
      var n := |rows| - 1;
      var front := rows[..n];
      HistoryIsClosings(front, files, c);
      LastStep(rows, files, c);
      forall i | 0 <= i < n ensures LeftAt(front, files, i, c) <==> LeftAt(rows, files, i, c) {
        LeftAtPrefix(rows, files, i, c);
      }
      if exists i :: LeftAt(rows, files, i, c) {
        var i :| LeftAt(rows, files, i, c);
        assert i == n || LeftAt(front, files, i, c);
      }
    }
  }

  /** A clarification filed under another demand leaves the triage alert open although nothing calls for it. */
  lemma StrayClarificationLeavesAlert(files: Files)
    ensures var asked := Event("v", Some("d1"), Validation("perguntas"));
            var answer := Event("c", Some("d2"), Clarification(Some("v")));
            var s := Run([asked, answer], files);
            && UniqueIds([asked, answer]) && AlertId(TRIAGE_OPEN, "v") in s.open
            && AlertId(TRIAGE_OPEN, "v") !in EvalDemand(s.tables, Some("d1"), files)
  {
    hide EvalDemand, Refresh, ToClose, Closings;
    var asked, answer := Event("v", Some("d1"), Validation("perguntas")),
        Event("c", Some("d2"), Clarification(Some("v")));
    assert [asked, answer][..1] == [asked] && [asked][..0] == [];
    var first, last := Run([asked], files), Run([asked, answer], files);
    assert first == Step(FRESH, 0, asked, files) && last == Step(first, 1, answer, files);
    var t := NO_TABLES.(triage := TriageTable(map[Some("d1") := [asked]], {}, {}));
    assert [] + [asked] == [asked];
    assert first.tables == t;
    assert last.tables == t.(triage := t.triage.(answered := {"v"}));
    OnlyTriage(t, Some("d1"), files);
    OnlyTriage(last.tables, Some("d1"), files);
    OnlyTriage(last.tables, Some("d2"), files);
    var id := AlertId(TRIAGE_OPEN, "v");
    assert OpenTriage(t.triage, Some("d1")) == Some("v");
    RefreshWith(map[], Some("d1"), id, Alert(id, [TRIAGE_OPEN], Some("d1"), 0));
    assert first.open == map[id := Alert(id, [TRIAGE_OPEN], Some("d1"), 0)];
    RefreshNone(first.open, Some("d2"), id);
  }

  lemma OnlyTriage(t: Tables, d: Demand, files: Files)
    requires t == NO_TABLES.(triage := t.triage)
    ensures EvalDemand(t, d, files) == TriageAlerts(d, OpenTriage(t.triage, d))
  {
    assert KeysOf([], d) == [] && OpenRequests(t.requests, d, []) == [];
    assert GateAlerts(t.gates, [], false, files) == map[] && ReviewAlerts(t.prs, d, []) == map[];
    assert RequestAlerts(d, []) == map[];
  }

  lemma RefreshWith(open: map<AlertId, Alert>, d: Demand, id: AlertId, a: Alert)
    requires open == map[]
    ensures Refresh(open, d, map[id := a]) == map[id := a]
  {
  }

  lemma RefreshNone(open: map<AlertId, Alert>, d: Demand, id: AlertId)
    requires id in open && open[id].demand != d
    ensures id in Refresh(open, d, map[])
  {
  }
}
