/** `conversa.py`, class `Engine`, and `alerts.py`, `delegations_of`, as they update items, records and the log. */
module DelegationEngine {
  import opened Prelude
  import opened Blanks
  import opened Delegations
  import opened DelegationMeaning

  /** The answers of `ChatError`. */
  datatype Error =
    | PROPOSTA_NAO_ENCONTRADA
    | JA_DECIDIDA
    | PROPOSTA_INVALIDA
    | TAREFA_VAZIA
    | TAREFA_GRANDE
    | PROPOSTA_OBSOLETA
    | RISCO_NAO_CONFIRMADO

  /** The index kept per id is that of the latest item with it. */
  ghost predicate Indexes(byId: map<string, nat>, items: seq<Item>) {
    && (forall id <- byId :: byId[id] < |items| && items[byId[id]].id == id)
    && (forall i :: 0 <= i < |items| ==> items[i].id in byId && i <= byId[items[i].id])
  }

  lemma {:induction false} TouchAt(items: seq<Item>, id: string, row: Row, k: nat)
    requires k < |items| && items[k].id == id && forall i :: k < i < |items| ==> items[i].id != id
    ensures Touch(items, id, row) == items[k := Moved(items[k], row)]
    decreases |items|
  {
    hide Moved;
    var n := |items| - 1;
    if k < n {
      TouchAt(items[..n], id, row, k);
      assert items[k := Moved(items[k], row)] == items[..n][k := Moved(items[k], row)] + [items[n]];
    }
  }

  lemma {:induction false} TouchNone(items: seq<Item>, id: string, row: Row)
    requires forall i :: 0 <= i < |items| ==> items[i].id != id
    ensures Touch(items, id, row) == items
  {
    if items != [] {
      TouchNone(items[..|items| - 1], id, row);
      assert items == items[..|items| - 1] + [items[|items| - 1]];
    }
  }

  lemma MovedId(item: Item, row: Row)
    ensures Moved(item, row).id == item.id
  {
  }

  /** `delegations_of`: items are updated in place, found by id. */
  method DelegationsOf(rows: seq<Row>, d: string) returns (out: seq<Item>)
    ensures out == Items(rows, d)
  {
    hide Moved, Items, Touch;
    out := [];
    var byId: map<string, nat> := map[];
    assert Items(rows[..0], d) == [] by { NoItems(d); assert rows[..0] == []; }
    for i := 0 to |rows|
      invariant out == Items(rows[..i], d) && Indexes(byId, out)
    {
      var row := rows[i];
      assert rows[..i + 1] == rows[..i] + [row];
      ItemsSnoc(rows[..i], row, d);
      if row.Delegation? && row.demand == d {
        byId := byId[row.id := |out|];
        out := out + [Item(row.id, PEDIDA, None)];
      } else if Refers(row).Some? {
        var id := Refers(row).value;
        if id in byId {
          TouchAt(out, id, row, byId[id]);
          MovedId(out[byId[id]], row);
          out := out[byId[id] := Moved(out[byId[id]], row)];
        } else {
          TouchNone(out, id, row);
        }
      }
    }
    assert rows[..|rows|] == rows;
  }

  /** `_prior_delegations`: positions of the key's delegations and of the last `ok`, found in one pass each. */
  method PriorDelegations(rows: seq<Row>, key: Key) returns (used: nat)
    ensures used == Prior(rows, key)
  {
    hide LastOk, IdsOf, CountSince;
    var ids: set<string> := {};
    EmptyLog(key);
    assert rows[..0] == [];
    for i := 0 to |rows|
      invariant ids == IdsOf(rows[..i], key)
    {
      assert rows[..i + 1] == rows[..i] + [rows[i]];
      IdsSnoc(rows[..i], rows[i], key);
      if Of(rows[i], key) {
        ids := ids + {rows[i].id};
      }
    }
    assert rows[..|rows|] == rows;
    var since := -1;
    if Keyless(key) {
      LastOkFrom([], ids, Unrelated);
      for i := 0 to |rows|
        invariant since == LastOk(rows[..i], ids)
      {
        assert rows[..i + 1] == rows[..i] + [rows[i]];
        LastOkFrom(rows[..i], ids, rows[i]);
        if rows[i].Outcome? && rows[i].status == "ok" && rows[i].delegation in ids {
          since := i;
        }
      }
    }
    used := 0;
    for i := 0 to |rows|
      invariant used == CountSince(rows[..i], key, since)
    {
      assert rows[..i + 1] == rows[..i] + [rows[i]];
      CountSnoc(rows[..i], rows[i], key, since);
      if i > since && Of(rows[i], key) {
        used := used + 1;
      }
    }
  }

  lemma LastOkFrom(rows: seq<Row>, ids: set<string>, row: Row)
    ensures LastOk([], ids) == -1
    ensures LastOk(rows + [row], ids) ==
            if row.Outcome? && row.status == "ok" && row.delegation in ids then |rows| else LastOk(rows, ids)
  {
    assert (rows + [row])[..|rows|] == rows;
  }

  /** A validation still says what the human was shown. */
  predicate StillShown(v: Validated, shown: Validated) {
    && v.Accepted? && shown.Accepted? && v.demand == shown.demand && v.category == shown.category
    && v.target == shown.target && v.owner == shown.owner && v.key == shown.key && v.attempt == shown.attempt
  }

  /** Which answer a confirmation gets: the first reason that applies, or the event. */
  predicate Answers(p: Option<Proposal>, unknown: bool, task: Option<string>, riskAck: bool, facts: Facts,
                    log: seq<Row>, r: Result<string, Error>)
  {
    if p.None? then r == Err(if unknown then PROPOSTA_NAO_ENCONTRADA else JA_DECIDIDA)
    else
      var shown, text := p.value.validated, Strip(task.GetOr(p.value.task));
      if shown.Rejected? then r == Err(PROPOSTA_INVALIDA)
      else if text == "" then r == Err(TAREFA_VAZIA)
      else if |text| > 2000 then r == Err(TAREFA_GRANDE)
      else
        var raw := Raw(shown.demand, shown.category, shown.target, text, p.value.risk);
        var v := Validate(raw, log, facts);
        if !StillShown(v, shown) then r == Err(PROPOSTA_OBSOLETA)
        else if facts.found.Some? && facts.found.value.risk == ALTO && !riskAck then r == Err(RISCO_NAO_CONFIRMADO)
        else r.Ok?
  }

  class Engine {
    var log: seq<Row>
    var records: seq<Record>

    constructor (log: seq<Row>, records: seq<Record>)
      ensures this.log == log && this.records == records
    {
      this.log, this.records := log, records;
    }

    ghost function Now(): State
      reads this
    {
      State(log, records, None, 0)
    }

    /** `_proposal`. */
    method Lookup(chat: string, id: string) returns (r: Result<Proposal, Error>)
      ensures r.Ok? <==> Undecided(records, chat, id).Some?
      ensures r.Ok? ==> r.value == Undecided(records, chat, id).value
      ensures r.Err? ==> r.error == if Find(records, chat, id).None? then PROPOSTA_NAO_ENCONTRADA else JA_DECIDIDA
    {
      var p := Find(records, chat, id);
      if p.None? {
        return Err(PROPOSTA_NAO_ENCONTRADA);
      }
      if Decisions(records, chat, id) > 0 {
        return Err(JA_DECIDIDA);
      }
      return Ok(p.value);
    }

    /** `discard`. */
    method Discard(chat: string, id: string) returns (r: Result<Decision, Error>)
      modifies this`records
      ensures Now() == Next(old(Now()), Delegations.Discard(chat, id))
      ensures r.Ok? <==> old(Undecided(records, chat, id)).Some?
      ensures records == if r.Ok? then old(records) + [Decided(chat, id, DESCARTADA, None)] else old(records)
      ensures r.Err? ==> r.error == if old(Find(records, chat, id)).None? then PROPOSTA_NAO_ENCONTRADA else JA_DECIDIDA
    {
      var found := Lookup(chat, id);
      if found.Err? {
        return Err(found.error);
      }
      records := records + [Decided(chat, id, DESCARTADA, None)];
      return Ok(DESCARTADA);
    }

    /**
     * `_confirm_delegation`, with the rows that other processes append after the validation and after the write. It
     * is a run of the abstract protocol; the log gains a delegation exactly when the answer is an event.
     */
    method ConfirmDelegation(chat: string, id: string, task: Option<string>, riskAck: bool, facts: Facts, event: string,
                             before: seq<Row>, after: seq<Row>)
      returns (r: Result<string, Error>)
      requires Fresh(log + before, event)
      requires forall row <- before + after :: !row.Delegation?
      modifies this
      ensures match r
              case Ok(written) =>
                && written == event && records == old(records) + [Decided(chat, id, CONFIRMADA, Some(event))]
                && |log| == |old(log) + before| + 1 + |after| && old(log) + before <= log
                && log[|old(log) + before|].Delegation? && log[|old(log) + before|].id == event
                && log[|old(log) + before| + 1..] == after
                && old(Undecided(records, chat, id)).Some?
                && var p := old(Undecided(records, chat, id)).value;
                   && Records(log[|old(log) + before|], p.validated, id, task.GetOr(p.task), riskAck)
                   && facts.found.Some? && log[|old(log) + before|].risk == facts.found.value.risk
              case Err(PROPOSTA_OBSOLETA) =>
                log == old(log) && records == old(records) + [Decided(chat, id, OBSOLETA_DECISION, None)]
              case Err(_) => log == old(log) && records == old(records)
      ensures var p := old(Undecided(records, chat, id));
              Answers(p, old(Find(records, chat, id)).None?, task, riskAck, facts, old(log), r)
      ensures Now() == Exec(old(Now()), Trace(r, Confirm(chat, id, task, riskAck, facts), event, before, after))
    {
      hide Validate, Exec, Undecided, Find, Decisions, Fresh, Strip;
      ghost var s0 := Now();
      ghost var confirm := Confirm(chat, id, task, riskAck, facts);
      SingleStep(s0, confirm);
      var found := Lookup(chat, id);
      if found.Err? {
        return Err(found.error);
      }
      var p := found.value;
      ProposalId(records, chat, id);
      var text := Strip(task.GetOr(p.task));
      if p.validated.Rejected? {
        return Err(PROPOSTA_INVALIDA);
      }
      if text == "" {
        return Err(TAREFA_VAZIA);
      }
      if |text| > MAX_TASK {
        return Err(TAREFA_GRANDE);
      }
      var v := Validate(Raw(p.validated.demand, p.validated.category, p.validated.target, text, p.risk), log, facts);
      AcceptedRisk(Raw(p.validated.demand, p.validated.category, p.validated.target, text, p.risk), log, facts);
      if !Same(v, p.validated) {
        records := records + [Decided(chat, id, OBSOLETA_DECISION, None)];
        return Err(PROPOSTA_OBSOLETA);
      }
      if v.risk == ALTO && !riskAck {
        return Err(RISCO_NAO_CONFIRMADO);
      }
      ghost var pending := Pending(chat, id, v, text, None);
      assert Next(s0, confirm) == s0.(pending := Some(pending));
      log := log + before;
      var row := Delegation(event, v.demand, v.category, v.target, v.owner, v.risk, v.attempt, v.key, text, id);
      WritesOne(s0, confirm, pending, before, event, after);
      log := log + [row] + after;
      records := records + [Decided(chat, id, CONFIRMADA, Some(event))];
      return Ok(event);
    }
  }

  /** The risk is the one that the precondition has found. */
  lemma AcceptedRisk(raw: Raw, rows: seq<Row>, facts: Facts)
    ensures var v := Validate(raw, rows, facts);
            v.Accepted? ==> facts.found.Some? && v.risk == facts.found.value.risk
  {
    hide Prior, Items, Active;
  }

  /** The abstract steps behind an answer. */
  ghost function Trace(r: Result<string, Error>, confirm: Action, event: string, before: seq<Row>, after: seq<Row>)
    : seq<Action>
  {
    if r.Err? then [confirm] else [confirm] + Appends(before) + [Write(event)] + Appends(after) + [Finish]
  }

  ghost function Appends(rows: seq<Row>): seq<Action> {
    seq(|rows|, i requires 0 <= i < |rows| => Append(rows[i]))
  }

  lemma SingleStep(s: State, a: Action)
    ensures Exec(s, [a]) == Next(s, a)
  {
    assert [a][..0] == [];
  }

  lemma ProposalId(records: seq<Record>, chat: string, id: string)
    ensures Undecided(records, chat, id).Some? ==> Undecided(records, chat, id).value.id == id
  {
    hide Find, Decisions;
    FoundId(records, chat, id);
  }

  lemma ExecSnoc(s: State, actions: seq<Action>, a: Action)
    ensures Exec(s, actions + [a]) == Next(Exec(s, actions), a)
  {
    hide Next;
    assert (actions + [a])[..|actions|] == actions;
  }

  lemma {:induction false} ExecAppends(s: State, actions: seq<Action>, rows: seq<Row>)
    requires forall row <- rows :: !row.Delegation?
    ensures Exec(s, actions + Appends(rows)) == Exec(s, actions).(log := Exec(s, actions).log + rows)
    decreases |rows|
  {
    hide Exec;
    if rows == [] {
      assert actions + Appends(rows) == actions;
      assert Exec(s, actions).log + [] == Exec(s, actions).log;
    } else {
      var front, last := rows[..|rows| - 1], rows[|rows| - 1];
      assert last in rows;
      ExecAppends(s, actions, front);
      assert actions + Appends(rows) == (actions + Appends(front)) + [Append(last)];
      ExecSnoc(s, actions + Appends(front), Append(last));
      assert Exec(s, actions).log + front + [last] == Exec(s, actions).log + rows;
    }
  }

  /** From the lock to the record: the rows of others, one delegation, more rows, one decision. */
  lemma WritesOne(s: State, confirm: Action, p: Pending, before: seq<Row>, event: string, after: seq<Row>)
    requires s.pending.None? && Next(s, confirm) == s.(pending := Some(p)) && p.event.None? && p.validated.Accepted?
    requires Fresh(s.log + before, event) && forall row <- before + after :: !row.Delegation?
    ensures Exec(s, [confirm] + Appends(before) + [Write(event)] + Appends(after) + [Finish]) ==
            s.(log := s.log + before + [RowOf(p, event)] + after,
               records := s.records + [Decided(p.chat, p.id, CONFIRMADA, Some(event))])
  {
    hide Exec, Appends, Fresh, Undecided, Confirmed, Find, Decisions;
    SingleStep(s, confirm);
    assert forall row <- before :: row in before + after;
    assert forall row <- after :: row in before + after;
    ExecAppends(s, [confirm], before);
    var a1 := [confirm] + Appends(before);
    ExecSnoc(s, a1, Write(event));
    ExecAppends(s, a1 + [Write(event)], after);
    ExecSnoc(s, a1 + [Write(event)] + Appends(after), Finish);
  }
}
