/**
 * `conversa.py`, `alerts.py`, `server.py`: delegations proposed in a conversation, revalidated and recorded when a
 * human confirms them. Other rows may be appended to the log at any point, also while a confirmation is under way.
 */
module Delegations {
  import opened Prelude
  import opened Blanks

  datatype Category =
    | CONFLITO_DEVELOP
    | GATE_TRAVADO
    | TESTE_QUEBRADO
    | AMBIENTE_TESTE
    | PENDENCIA_HANDOFF
    | PENDENCIA_CHANGE_REQUEST
    | PENDENCIA_AGENTE_PARADO
    | AJUSTE_PONTUAL

  datatype Risk = BAIXO | MODERADO | ALTO

  /** What the attempts of a key are about; `Whole` is the key without a target. */
  datatype Scope = Pr(pr: string) | Target(target: string) | Owner(owner: string, step: string) | Whole

  datatype Key = Key(demand: string, category: Category, scope: Scope)

  /** Rows of the log, as far as delegations read them. */
  datatype Row =
    | Delegation(id: string, demand: string, category: Category, target: Option<string>, owner: string, risk: Risk,
                 attempt: nat, key: Key, task: string, proposal: string)
    | Started(delegation: string)
    | Outcome(delegation: string, status: string)
    | Handoff(delegation: string, toAuditor: bool)
    | Verdict(delegation: string)
    | Unrelated

  // ---------------------------------------------------------------- delegations_of

  datatype Progress = PEDIDA | EM_EXECUCAO | AGUARDANDO_GATE | CONCLUIDA | FALHOU | OBSOLETA | RECUSADA | CANCELADA

  datatype Item = Item(id: string, progress: Progress, result: Option<string>)

  function Done(status: string): Progress {
    match status
    case "ok" => CONCLUIDA
    case "obsoleta" => OBSOLETA
    case "recusada" => RECUSADA
    case "cancelada" => CANCELADA
    case _ => FALHOU
  }

  /** What a row that names a delegation does to it; after its result, nothing. */
  function Moved(item: Item, row: Row): Item {
    if item.result.Some? then item
    else
      match row
      case Started(_) => item.(progress := EM_EXECUCAO)
      case Outcome(_, status) => item.(progress := Done(status), result := Some(status))
      case Handoff(_, true) =>
        if item.progress == EM_EXECUCAO || item.progress == PEDIDA then item.(progress := AGUARDANDO_GATE) else item
      case Verdict(_) => if item.progress == AGUARDANDO_GATE then item.(progress := EM_EXECUCAO) else item
      case _ => item
  }

  /** The row acts on the latest delegation with the id it names. */
  function Touch(items: seq<Item>, id: string, row: Row): seq<Item> {
    if items == [] then []
    else
      var front, last := items[..|items| - 1], items[|items| - 1];
      if last.id == id then front + [Moved(last, row)] else Touch(front, id, row) + [last]
  }

  function Refers(row: Row): Option<string> {
    match row
    case Started(id) => Some(id)
    case Outcome(id, _) => Some(id)
    case Handoff(id, _) => Some(id)
    case Verdict(id) => Some(id)
    case _ => None
  }

  /** `delegations_of` a demand, oldest first. */
  function Items(rows: seq<Row>, d: string): seq<Item> {
    if rows == [] then []
    else
      var items, row := Items(rows[..|rows| - 1], d), rows[|rows| - 1];
      if row.Delegation? && row.demand == d then items + [Item(row.id, PEDIDA, None)]
      else if Refers(row).Some? then Touch(items, Refers(row).value, row)
      else items
  }

  /** Delegations without a result. */
  function Active(items: seq<Item>): nat {
    if items == [] then 0 else Active(items[..|items| - 1]) + (if items[|items| - 1].result.None? then 1 else 0)
  }

  // ---------------------------------------------------------------- attempts

  predicate Keyless(key: Key) {
    key.scope.Whole?
  }

  /** Only these categories have keys without a target. */
  predicate KeyShape(key: Key) {
    Keyless(key) ==> key.category == AJUSTE_PONTUAL || key.category == TESTE_QUEBRADO
  }

  function MaxAttempts(key: Key): nat {
    if key.category == PENDENCIA_AGENTE_PARADO then 1 else 2
  }

  predicate Of(row: Row, key: Key) {
    row.Delegation? && row.key == key
  }

  /** Delegations of a key after position `since`. */
  function CountSince(rows: seq<Row>, key: Key, since: int): nat {
    if rows == [] then 0
    else CountSince(rows[..|rows| - 1], key, since) + (if |rows| - 1 > since && Of(rows[|rows| - 1], key) then 1 else 0)
  }

  function IdsOf(rows: seq<Row>, key: Key): set<string> {
    if rows == [] then {}
    else IdsOf(rows[..|rows| - 1], key) + (if Of(rows[|rows| - 1], key) then {rows[|rows| - 1].id} else {})
  }

  /** Position of the last `ok` result of one of these delegations, or -1. */
  function LastOk(rows: seq<Row>, ids: set<string>): int
    ensures -1 <= LastOk(rows, ids) < |rows|
  {
    if rows == [] then -1
    else
      var row := rows[|rows| - 1];
      if row.Outcome? && row.status == "ok" && row.delegation in ids then |rows| - 1
      else LastOk(rows[..|rows| - 1], ids)
  }

  /** `_prior_delegations`: attempts already used; a keyless key starts again after an `ok`. */
  function Prior(rows: seq<Row>, key: Key): nat {
    CountSince(rows, key, if Keyless(key) then LastOk(rows, IdsOf(rows, key)) else -1)
  }

  // ---------------------------------------------------------------- validation

  /** What the model asks for, and what the state of the alerts makes of it at the moment of the validation. */
  datatype Raw = Raw(demand: string, category: Category, target: Option<string>, task: string, risk: Risk)

  datatype Found = Found(target: string, owner: string, pr: string, step: string, risk: Risk, fromDelegation: bool)

  /** Rejections before the search for an active delegation, and the target the precondition yields, if it holds. */
  datatype Facts = Facts(early: Option<string>, found: Option<Found>)

  datatype Validated =
    | Rejected(reason: string)
    | Accepted(demand: string, category: Category, target: Option<string>, owner: string, risk: Risk, attempt: nat,
               key: Key)

  function TargetOf(raw: Raw, f: Found): Option<string> {
    if raw.category == AJUSTE_PONTUAL then None
    else if raw.category == TESTE_QUEBRADO then raw.target
    else Some(f.target)
  }

  function ScopeOf(raw: Raw, f: Found): Scope {
    match raw.category
    case CONFLITO_DEVELOP => Pr(f.pr)
    case PENDENCIA_AGENTE_PARADO => Owner(f.owner, f.step)
    case AJUSTE_PONTUAL => Whole
    case TESTE_QUEBRADO => if raw.target.Some? then Target(raw.target.value) else Whole
    case _ => Target(f.target)
  }

  /** `validate_delegation`. */
  function Validate(raw: Raw, rows: seq<Row>, facts: Facts): Validated {
    if facts.early.Some? then Rejected(facts.early.value)
    else if Active(Items(rows, raw.demand)) > 0 then Rejected("delegacao_ativa")
    else if facts.found.None? then Rejected("precondicao_falhou")
    else
      var f := facts.found.value;
      var key := Key(raw.demand, raw.category, ScopeOf(raw, f));
      var used := Prior(rows, key);
      if raw.category == PENDENCIA_AGENTE_PARADO && used < MaxAttempts(key) && f.fromDelegation then
        Rejected("precondicao_falhou")
      else if used >= MaxAttempts(key) then Rejected("limite_tentativas")
      else Accepted(raw.demand, raw.category, TargetOf(raw, f), f.owner, f.risk, used + 1, key)
  }

  // ---------------------------------------------------------------- conversations

  datatype Proposal = Proposal(id: string, task: string, risk: Risk, validated: Validated)

  datatype Decision = CONFIRMADA | DESCARTADA | OBSOLETA_DECISION

  /** Records of the conversation files, in the order in which they were written. */
  datatype Record =
    | Proposed(chat: string, proposal: Proposal)
    | Decided(chat: string, id: string, decision: Decision, event: Option<string>)

  /** A confirmation that holds the lock: validated, and written to the log once `event` is known. */
  datatype Pending = Pending(chat: string, id: string, validated: Validated, task: string, event: Option<string>)

  datatype State = State(log: seq<Row>, records: seq<Record>, pending: Option<Pending>, crashed: nat)

  datatype Action =
    | Append(row: Row)
    | Propose(chat: string, proposal: Proposal)
    | Confirm(chat: string, id: string, task: Option<string>, riskAck: bool, facts: Facts)
    | Write(event: string)
    | Finish
    | Discard(chat: string, id: string)
    | Crash

  const EMPTY := State([], [], None, 0)
  const MAX_TASK := 2000

  /** The first proposal with this id in a conversation. */
  function Find(records: seq<Record>, chat: string, id: string): Option<Proposal> {
    if records == [] then None
    else
      var front, last := Find(records[..|records| - 1], chat, id), records[|records| - 1];
      if front.None? && last.Proposed? && last.chat == chat && last.proposal.id == id
      then Some(last.proposal) else front
  }

  function Decisions(records: seq<Record>, chat: string, id: string): nat {
    if records == [] then 0
    else
      var last := records[|records| - 1];
      Decisions(records[..|records| - 1], chat, id)
      + (if last.Decided? && last.chat == chat && last.id == id then 1 else 0)
  }

  /** `_proposal`: a proposal that exists and has no decision. */
  function Undecided(records: seq<Record>, chat: string, id: string): Option<Proposal> {
    if Decisions(records, chat, id) > 0 then None else Find(records, chat, id)
  }

  /** The check that nothing the human saw has changed. */
  predicate Same(v: Validated, p: Validated) {
    v.Accepted? && p.Accepted?
    && v.demand == p.demand && v.category == p.category && v.target == p.target && v.owner == p.owner
    && v.key == p.key && v.attempt == p.attempt
  }

  predicate Fresh(rows: seq<Row>, id: string) {
    forall row <- rows :: row.Delegation? ==> row.id != id
  }

  predicate Enabled(s: State, a: Action) {
    match a
    case Append(row) => !row.Delegation?
    case Propose(_, _) => true
    case Confirm(chat, id, _, _, _) => s.pending.None? && Undecided(s.records, chat, id).Some?
    case Write(event) => s.pending.Some? && s.pending.value.event.None? && Fresh(s.log, event)
    case Finish => s.pending.Some? && s.pending.value.event.Some?
    case Discard(chat, id) => s.pending.None? && Undecided(s.records, chat, id).Some?
    case Crash => s.pending.Some?
  }

  /** `_confirm_delegation` up to the write: every refusal, or the lock kept with what was validated. */
  function Confirmed(s: State, chat: string, p: Proposal, given: string, riskAck: bool, facts: Facts): State {
    var task := Strip(given);
    if p.validated.Rejected? || task == "" || |task| > MAX_TASK then s
    else
      var raw := Raw(p.validated.demand, p.validated.category, p.validated.target, task, p.risk);
      var v := Validate(raw, s.log, facts);
      if !Same(v, p.validated) then
        s.(records := s.records + [Decided(chat, p.id, OBSOLETA_DECISION, None)])
      else if v.risk == ALTO && !riskAck then s
      else s.(pending := Some(Pending(chat, p.id, v, task, None)))
  }

  function RowOf(p: Pending, event: string): Row
    requires p.validated.Accepted?
  {
    var v := p.validated;
    Delegation(event, v.demand, v.category, v.target, v.owner, v.risk, v.attempt, v.key, p.task, p.id)
  }

  /** One step; an action that is not enabled does nothing. */
  function Next(s: State, a: Action): State {
    if !Enabled(s, a) then s
    else
      match a
      case Append(row) => s.(log := s.log + [row])
      case Propose(chat, p) => s.(records := s.records + [Proposed(chat, p)])
      case Confirm(chat, id, task, riskAck, facts) =>
        var p := Undecided(s.records, chat, id).value;
        Confirmed(s, chat, p, task.GetOr(p.task), riskAck, facts)
      case Write(event) =>
        var p := s.pending.value;
        if p.validated.Rejected? then s
        else s.(log := s.log + [RowOf(p, event)], pending := Some(p.(event := Some(event))))
      case Finish =>
        var p := s.pending.value;
        s.(records := s.records + [Decided(p.chat, p.id, CONFIRMADA, p.event)], pending := None)
      case Discard(chat, id) => s.(records := s.records + [Decided(chat, id, DESCARTADA, None)])
      case Crash =>
        s.(pending := None, crashed := s.crashed + (if s.pending.value.event.Some? then 1 else 0))
  }

  function Exec(s: State, actions: seq<Action>): State {
    if actions == [] then s else Next(Exec(s, actions[..|actions| - 1]), actions[|actions| - 1])
  }

  // ---------------------------------------------------------------- active delegations

  lemma {:induction false} TouchActive(items: seq<Item>, id: string, row: Row)
    ensures Active(Touch(items, id, row)) <= Active(items)
  {
    hide Moved;
    if items != [] {
      var front, last := items[..|items| - 1], items[|items| - 1];
      TouchActive(front, id, row);
      MovedResult(last, row);
      var after := Touch(items, id, row);
      assert after[..|after| - 1] == if last.id == id then front else Touch(front, id, row);
    }
  }

  lemma MovedResult(item: Item, row: Row)
    ensures item.result.Some? ==> Moved(item, row).result.Some?
  {
  }

  /** Rows other than a delegation of the demand never make one active. */
  lemma ItemsSnoc(rows: seq<Row>, row: Row, d: string)
    ensures Items(rows + [row], d) ==
            if row.Delegation? && row.demand == d then Items(rows, d) + [Item(row.id, PEDIDA, None)]
            else if Refers(row).Some? then Touch(Items(rows, d), Refers(row).value, row)
            else Items(rows, d)
    ensures Active(Items(rows + [row], d)) <=
            Active(Items(rows, d)) + (if row.Delegation? && row.demand == d then 1 else 0)
  {
    hide Touch;
    assert (rows + [row])[..|rows|] == rows;
    if row.Delegation? && row.demand == d {
      assert (Items(rows, d) + [Item(row.id, PEDIDA, None)])[..|Items(rows, d)|] == Items(rows, d);
    } else if Refers(row).Some? {
      TouchActive(Items(rows, d), Refers(row).value, row);
    }
  }

  // ---------------------------------------------------------------- attempts

  lemma CountSnoc(rows: seq<Row>, row: Row, key: Key, since: int)
    ensures CountSince(rows + [row], key, since) ==
            CountSince(rows, key, since) + (if |rows| > since && Of(row, key) then 1 else 0)
  {
    assert (rows + [row])[..|rows|] == rows;
  }

  lemma {:induction false} CountLater(rows: seq<Row>, key: Key, a: int, b: int)
    requires a <= b
    ensures CountSince(rows, key, b) <= CountSince(rows, key, a)
  {
    if rows != [] {
      CountLater(rows[..|rows| - 1], key, a, b);
    }
  }

  lemma {:induction false} LastOkGrows(rows: seq<Row>, ids: set<string>, more: set<string>)
    requires ids <= more
    ensures LastOk(rows, ids) <= LastOk(rows, more)
  {
    if rows != [] {
      LastOkGrows(rows[..|rows| - 1], ids, more);
    }
  }

  lemma IdsSnoc(rows: seq<Row>, row: Row, key: Key)
    ensures IdsOf(rows + [row], key) == IdsOf(rows, key) + (if Of(row, key) then {row.id} else {})
  {
    assert (rows + [row])[..|rows|] == rows;
  }

  lemma LastOkSnoc(rows: seq<Row>, row: Row, ids: set<string>)
    ensures LastOk(rows + [row], ids) >= LastOk(rows, ids)
  {
    assert (rows + [row])[..|rows|] == rows;
  }

  /** Only a delegation of the key uses an attempt; any other row leaves the count or, for a keyless key, lowers it. */
  lemma PriorSnoc(rows: seq<Row>, row: Row, key: Key)
    ensures Prior(rows + [row], key) <= Prior(rows, key) + (if Of(row, key) then 1 else 0)
    ensures !Keyless(key) ==> Prior(rows + [row], key) == Prior(rows, key) + (if Of(row, key) then 1 else 0)
  {
    hide CountSince, LastOk, IdsOf;
    var ids, more := IdsOf(rows, key), IdsOf(rows + [row], key);
    IdsSnoc(rows, row, key);
    LastOkSnoc(rows, row, more);
    LastOkGrows(rows, ids, more);
    var before, after := LastOk(rows, ids), LastOk(rows + [row], more);
    CountSnoc(rows, row, key, -1);
    CountSnoc(rows, row, key, before);
    CountLater(rows + [row], key, before, after);
  }

  // ---------------------------------------------------------------- the log

  /** Every delegation was the first active one of its demand and within the attempts of its key. */
  ghost predicate LogOk(log: seq<Row>) {
    && (forall d :: Active(Items(log, d)) <= 1)
    && (forall key :: Prior(log, key) <= MaxAttempts(key))
  }

  /** Attempts of a keyed key are numbered 1, 2, … */
  ghost predicate Numbered(log: seq<Row>) {
    forall i :: 0 <= i < |log| && log[i].Delegation? && !Keyless(log[i].key) ==>
      log[i].attempt == Prior(log[..i], log[i].key) + 1
  }

  /** What a confirmation has established stays true until it is written. */
  ghost predicate PendingOk(s: State) {
    s.pending.Some? ==>
      var p := s.pending.value;
      && p.validated.Accepted? && p.validated.key.demand == p.validated.demand
      && Undecided(s.records, p.chat, p.id).Some? && KeyShape(p.validated.key)
      && Same(p.validated, Undecided(s.records, p.chat, p.id).value.validated)
      && (p.event.None? ==>
            && Active(Items(s.log, p.validated.demand)) == 0
            && Prior(s.log, p.validated.key) < MaxAttempts(p.validated.key)
            && (!Keyless(p.validated.key) ==> Prior(s.log, p.validated.key) + 1 == p.validated.attempt))
  }

  lemma LogOkSnoc(log: seq<Row>, row: Row)
    requires LogOk(log)
    requires row.Delegation? ==>
               Active(Items(log, row.demand)) == 0 && Prior(log, row.key) < MaxAttempts(row.key)
    ensures LogOk(log + [row])
  {
    hide Items, Active, Prior;
    forall d ensures Active(Items(log + [row], d)) <= 1 {
      assert Active(Items(log, d)) <= 1;
      ItemsSnoc(log, row, d);
    }
    forall key ensures Prior(log + [row], key) <= MaxAttempts(key) {
      assert Prior(log, key) <= MaxAttempts(key);
      PriorSnoc(log, row, key);
    }
  }

  lemma NumberedSnoc(log: seq<Row>, row: Row)
    requires Numbered(log)
    requires row.Delegation? && !Keyless(row.key) ==> row.attempt == Prior(log, row.key) + 1
    ensures Numbered(log + [row])
  {
    hide Prior;
    var more := log + [row];
    forall i | 0 <= i < |more| && more[i].Delegation? && !Keyless(more[i].key)
      ensures more[i].attempt == Prior(more[..i], more[i].key) + 1
    {
      assert more[..i] == log[..i];
      if i < |log| {
        assert more[i] == log[i];
      } else {
        assert log[..i] == log;
      }
    }
  }

  lemma EmptyLogOk()
    ensures LogOk([]) && Numbered([])
  {
    forall key: Key ensures Prior([], key) <= MaxAttempts(key) {
      assert CountSince([], key, -1) == 0;
    }
  }

  // ---------------------------------------------------------------- decisions

  lemma DecisionsSnoc(records: seq<Record>, r: Record, chat: string, id: string)
    ensures Decisions(records + [r], chat, id) ==
            Decisions(records, chat, id) + (if r.Decided? && r.chat == chat && r.id == id then 1 else 0)
    ensures Find(records, chat, id).Some? ==> Find(records + [r], chat, id) == Find(records, chat, id)
    ensures r.Decided? ==> Find(records + [r], chat, id) == Find(records, chat, id)
  {
    assert (records + [r])[..|records|] == records;
  }

  lemma {:induction false} FoundId(records: seq<Record>, chat: string, id: string)
    ensures Find(records, chat, id).Some? ==> Find(records, chat, id).value.id == id
  {
    if records != [] {
      FoundId(records[..|records| - 1], chat, id);
    }
  }

  ghost predicate DecidedOnce(records: seq<Record>) {
    forall chat, id :: Decisions(records, chat, id) <= 1
  }

  lemma DecidedOnceSnoc(records: seq<Record>, r: Record)
    requires DecidedOnce(records) && (r.Decided? ==> Decisions(records, r.chat, r.id) == 0)
    ensures DecidedOnce(records + [r])
  {
    hide Decisions, Find;
    forall chat, id ensures Decisions(records + [r], chat, id) <= 1 {
      assert Decisions(records, chat, id) <= 1;
      DecisionsSnoc(records, r, chat, id);
    }
  }

  // ---------------------------------------------------------------- counts

  function Delegated(log: seq<Row>): nat {
    if log == [] then 0 else Delegated(log[..|log| - 1]) + (if log[|log| - 1].Delegation? then 1 else 0)
  }

  function Confirmations(records: seq<Record>): nat {
    if records == [] then 0
    else
      var last := records[|records| - 1];
      Confirmations(records[..|records| - 1]) + (if last.Decided? && last.decision == CONFIRMADA then 1 else 0)
  }

  /** One delegation for each confirmation, for the one being written, and for each crash between the two writes. */
  ghost predicate Counted(s: State) {
    Delegated(s.log) ==
    Confirmations(s.records) + s.crashed + (if s.pending.Some? && s.pending.value.event.Some? then 1 else 0)
  }

  lemma CountsSnoc(log: seq<Row>, row: Row, records: seq<Record>, r: Record)
    ensures Delegated(log + [row]) == Delegated(log) + (if row.Delegation? then 1 else 0)
    ensures Confirmations(records + [r]) ==
            Confirmations(records) + (if r.Decided? && r.decision == CONFIRMADA then 1 else 0)
  {
    assert (log + [row])[..|log|] == log && (records + [r])[..|records|] == records;
  }

  // ---------------------------------------------------------------- runs

  ghost predicate Inv(s: State) {
    LogOk(s.log) && Numbered(s.log) && PendingOk(s) && DecidedOnce(s.records) && Counted(s)
  }

  lemma AppendKeeps(s: State, row: Row)
    requires Inv(s) && !row.Delegation?
    ensures Inv(Next(s, Append(row)))
  {
    hide Items, Active, Prior, LogOk, Numbered, DecidedOnce, Undecided, Delegated, Confirmations, Same;
    LogOkSnoc(s.log, row);
    NumberedSnoc(s.log, row);
    CountsSnoc(s.log, row, [], Decided("", "", DESCARTADA, None));
    if s.pending.Some? {
      var v := s.pending.value.validated;
      ItemsSnoc(s.log, row, v.demand);
      PriorSnoc(s.log, row, v.key);
    }
  }

  lemma ProposeKeeps(s: State, chat: string, p: Proposal)
    requires Inv(s)
    ensures Inv(Next(s, Propose(chat, p)))
  {
    hide Items, Active, Prior, LogOk, Numbered, DecidedOnce, Decisions, Find, Delegated, Confirmations, Same;
    DecidedOnceSnoc(s.records, Proposed(chat, p));
    CountsSnoc([], Unrelated, s.records, Proposed(chat, p));
    if s.pending.Some? {
      DecisionsSnoc(s.records, Proposed(chat, p), s.pending.value.chat, s.pending.value.id);
    }
  }

  /** What an accepted validation says about the log. */
  lemma ValidateMeaning(raw: Raw, rows: seq<Row>, facts: Facts)
    ensures var v := Validate(raw, rows, facts);
            v.Accepted? ==>
              && Active(Items(rows, v.demand)) == 0 && Prior(rows, v.key) < MaxAttempts(v.key)
              && v.attempt == Prior(rows, v.key) + 1 && v.key.demand == v.demand && KeyShape(v.key)
  {
    hide Items, Active, Prior, TargetOf;
  }

  lemma ConfirmKeeps(s: State, chat: string, id: string, task: Option<string>, riskAck: bool, facts: Facts)
    requires Inv(s) && Enabled(s, Confirm(chat, id, task, riskAck, facts))
    ensures Inv(Next(s, Confirm(chat, id, task, riskAck, facts)))
  {
    hide Items, Active, Prior, LogOk, Numbered, DecidedOnce, Decisions, Find, Delegated, Confirmations,
      Validate, Strip, KeyShape;
    var p := Undecided(s.records, chat, id).value;
    FoundId(s.records, chat, id);
    if p.validated.Accepted? {
      var v := p.validated;
      ValidateMeaning(Raw(v.demand, v.category, v.target, Strip(task.GetOr(p.task)), p.risk), s.log, facts);
    }
    var r := Decided(chat, p.id, OBSOLETA_DECISION, None);
    DecidedOnceSnoc(s.records, r);
    CountsSnoc([], Unrelated, s.records, r);
  }

  lemma WriteKeeps(s: State, event: string)
    requires Inv(s) && Enabled(s, Write(event))
    ensures Inv(Next(s, Write(event)))
  {
    hide Items, Active, Prior, LogOk, Numbered, DecidedOnce, Undecided, Delegated, Confirmations, Same;
    var row := RowOf(s.pending.value, event);
    LogOkSnoc(s.log, row);
    NumberedSnoc(s.log, row);
    CountsSnoc(s.log, row, [], Decided("", "", DESCARTADA, None));
  }

  lemma FinishKeeps(s: State)
    requires Inv(s) && Enabled(s, Finish)
    ensures Inv(Next(s, Finish))
  {
    hide Items, Active, Prior, LogOk, Numbered, DecidedOnce, Decisions, Find, Delegated, Confirmations, Same;
    var p := s.pending.value;
    var r := Decided(p.chat, p.id, CONFIRMADA, p.event);
    DecidedOnceSnoc(s.records, r);
    CountsSnoc([], Unrelated, s.records, r);
  }

  lemma DiscardKeeps(s: State, chat: string, id: string)
    requires Inv(s) && Enabled(s, Discard(chat, id))
    ensures Inv(Next(s, Discard(chat, id)))
  {
    hide Items, Active, Prior, LogOk, Numbered, DecidedOnce, Decisions, Find, Delegated, Confirmations, Same;
    var r := Decided(chat, id, DESCARTADA, None);
    DecidedOnceSnoc(s.records, r);
    CountsSnoc([], Unrelated, s.records, r);
  }

  lemma NextKeepsInv(s: State, a: Action)
    requires Inv(s)
    ensures Inv(Next(s, a))
  {
    if Enabled(s, a) {
      match a
      case Append(row) => AppendKeeps(s, row);
      case Propose(chat, p) => ProposeKeeps(s, chat, p);
      case Confirm(chat, id, task, riskAck, facts) => ConfirmKeeps(s, chat, id, task, riskAck, facts);
      case Write(event) => WriteKeeps(s, event);
      case Finish => FinishKeeps(s);
      case Discard(chat, id) => DiscardKeeps(s, chat, id);
      case Crash =>
        hide LogOk, Numbered, DecidedOnce, Delegated, Confirmations;
    }
  }

  lemma {:induction false} ExecKeepsInv(actions: seq<Action>)
    ensures Inv(Exec(EMPTY, actions))
  {
    hide Next;
    if actions == [] {
      EmptyLogOk();
    } else {
      hide Inv;
      ExecKeepsInv(actions[..|actions| - 1]);
      NextKeepsInv(Exec(EMPTY, actions[..|actions| - 1]), actions[|actions| - 1]);
    }
  }

  /**
   * In every reachable log a demand has at most one active delegation and a key at most its maximum of attempts
   * (since its last `ok` for a key without target); each proposal is decided at most once; and every confirmation is
   * one delegation, crashes between the two writes aside.
   */
  lemma DelegationsAreBounded(actions: seq<Action>)
    ensures var s := Exec(EMPTY, actions);
            && (forall d :: Active(Items(s.log, d)) <= 1)
            && (forall key :: Prior(s.log, key) <= MaxAttempts(key))
            && (forall chat, id :: Decisions(s.records, chat, id) <= 1)
            && (s.pending.None? ==> Delegated(s.log) == Confirmations(s.records) + s.crashed)
  {
    hide Items, Active, Prior, Decisions, Exec, Delegated, Confirmations;
    ExecKeepsInv(actions);
  }

  lemma NoItems(d: string)
    ensures Items([], d) == []
  {
  }

  lemma EmptyLog(key: Key)
    ensures Active(Items([], "d")) == 0 && Prior([], key) == 0 && IdsOf([], key) == {}
    ensures forall since :: CountSince([], key, since) == 0
  {
  }
}
