/** Attempts, progress and confirmations of delegations, told from the rows of a log and the actions of a run alone. */
module DelegationMeaning {
  import opened Prelude
  import opened Blanks
  import opened Delegations

  // ---------------------------------------------------------------- attempts

  predicate IsDelegationOf(row: Row, key: Key) {
    row.Delegation? && row.key == key
  }

  /** Some delegation of the key, made at any time, was reported `ok` after position `i`. */
  predicate EndedOk(rows: seq<Row>, key: Key, i: nat) {
    exists j :: i < j < |rows| && IsOkOf(rows, key, j)
  }

  predicate IsOkOf(rows: seq<Row>, key: Key, j: nat)
    requires j < |rows|
  {
    && rows[j].Outcome? && rows[j].status == "ok"
    && exists k :: 0 <= k < |rows| && IsDelegationOf(rows[k], key) && rows[k].id == rows[j].delegation
  }

  /** The delegations that count as attempts: all of them, or for a key without target those since its last `ok`. */
  function Used(rows: seq<Row>, key: Key): set<nat> {
    set i: nat | i < |rows| && IsDelegationOf(rows[i], key) && (key.scope.Whole? ==> !EndedOk(rows, key, i))
  }

  function After(rows: seq<Row>, key: Key, since: int): set<nat> {
    set i: nat | i < |rows| && IsDelegationOf(rows[i], key) && i > since
  }

  lemma {:induction false} CountIsSize(rows: seq<Row>, key: Key, since: int)
    ensures CountSince(rows, key, since) == |After(rows, key, since)|
  {
    if rows == [] {
      assert After(rows, key, since) == {};
    } else {
      var front, n := rows[..|rows| - 1], |rows| - 1;
      CountIsSize(front, key, since);
      assert rows == front + [rows[n]];
      AfterMore(front, rows[n], key, since);
      hide After;
    }
  }

  lemma AfterMore(rows: seq<Row>, row: Row, key: Key, since: int)
    ensures |After(rows + [row], key, since)| ==
            |After(rows, key, since)| + (if |rows| > since && IsDelegationOf(row, key) then 1 else 0)
  {
    hide IsDelegationOf;
    var more, n := rows + [row], |rows|;
    assert forall i :: 0 <= i < n ==> more[i] == rows[i];
    assert more[n] == row;
    assert After(more, key, since) ==
           After(rows, key, since) + (if n > since && IsDelegationOf(row, key) then {n} else {});
  }

  lemma {:induction false} IdsAreThose(rows: seq<Row>, key: Key)
    ensures forall id :: id in IdsOf(rows, key) <==>
              exists k :: 0 <= k < |rows| && IsDelegationOf(rows[k], key) && rows[k].id == id
  {
    if rows != [] {
      var front, n := rows[..|rows| - 1], |rows| - 1;
      IdsAreThose(front, key);
      assert forall i :: 0 <= i < n ==> front[i] == rows[i];
    }
  }

  predicate IsOk(row: Row, ids: set<string>) {
    row.Outcome? && row.status == "ok" && row.delegation in ids
  }

  lemma {:induction false} LastOkIsLast(rows: seq<Row>, ids: set<string>)
    ensures forall j :: LastOk(rows, ids) < j < |rows| ==> !IsOk(rows[j], ids)
    ensures LastOk(rows, ids) >= 0 ==> IsOk(rows[LastOk(rows, ids)], ids)
  {
    if rows != [] {
      var front := rows[..|rows| - 1];
      LastOkIsLast(front, ids);
      assert forall i :: 0 <= i < |front| ==> front[i] == rows[i];
    }
  }

  /** The attempts used are those delegations, each counted once. */
  lemma PriorMeaning(rows: seq<Row>, key: Key)
    ensures Prior(rows, key) == |Used(rows, key)|
  {
    var ids := IdsOf(rows, key);
    IdsAreThose(rows, key);
    LastOkIsLast(rows, ids);
    var last := LastOk(rows, ids);
    CountIsSize(rows, key, -1);
    CountIsSize(rows, key, last);
    hide CountSince, LastOk, IdsOf;
    if Keyless(key) {
      forall i: nat | i < |rows| && IsDelegationOf(rows[i], key) ensures EndedOk(rows, key, i) <==> i <= last {
        if i <= last {
          assert IsOkOf(rows, key, last) && i != last;
        }
        if EndedOk(rows, key, i) {
          var j :| i < j < |rows| && IsOkOf(rows, key, j);
          assert IsOk(rows[j], ids);
        }
      }
      assert Used(rows, key) == After(rows, key, last);
    } else {
      assert Used(rows, key) == After(rows, key, -1);
    }
  }

  // ---------------------------------------------------------------- progress

  predicate Names(row: Row, id: string) {
    match row
    case Started(d) => d == id
    case Outcome(d, _) => d == id
    case Handoff(d, _) => d == id
    case Verdict(d) => d == id
    case _ => false
  }

  /** The first result reported after position `i`. */
  predicate IsResult(rows: seq<Row>, i: nat, id: string, k: nat) {
    && i < k < |rows| && rows[k].Outcome? && rows[k].delegation == id
    && forall j :: i < j < k && rows[j].Outcome? ==> rows[j].delegation != id
  }

  predicate HasResult(rows: seq<Row>, i: nat, id: string) {
    exists k :: i < k < |rows| && rows[k].Outcome? && rows[k].delegation == id
  }

  predicate Waits(rows: seq<Row>, i: nat, id: string) {
    exists h :: i < h < |rows| && HandedAt(rows, h, id)
  }

  predicate HandedAt(rows: seq<Row>, h: nat, id: string)
    requires h < |rows|
  {
    rows[h] == Handoff(id, true) && forall j :: h < j < |rows| ==> rows[j] != Started(id) && rows[j] != Verdict(id)
  }

  predicate HasBegun(rows: seq<Row>, i: nat, id: string) {
    exists j :: i < j < |rows| && (rows[j] == Started(id) || rows[j] == Handoff(id, true))
  }

  /** Where a delegation stands that was made at position `i`: `item` as the rows after it have it. */
  ghost predicate Stands(rows: seq<Row>, i: nat, id: string, item: Item) {
    && item.id == id
    && (item.result.Some? <==> HasResult(rows, i, id))
    && (forall k: nat :: IsResult(rows, i, id, k) ==>
          && item.result == Some(rows[k].status)
          && (rows[k].status == "ok" ==> item.progress == CONCLUIDA)
          && (rows[k].status == "obsoleta" ==> item.progress == OBSOLETA)
          && (rows[k].status == "recusada" ==> item.progress == RECUSADA)
          && (rows[k].status == "cancelada" ==> item.progress == CANCELADA)
          && (rows[k].status !in {"ok", "obsoleta", "recusada", "cancelada"} ==> item.progress == FALHOU))
    && (!HasResult(rows, i, id) ==>
          item.progress == if Waits(rows, i, id) then AGUARDANDO_GATE
                           else if HasBegun(rows, i, id) then EM_EXECUCAO else PEDIDA)
  }

  lemma JustMade(rows: seq<Row>, id: string)
    requires rows != []
    ensures Stands(rows, |rows| - 1, id, Item(id, PEDIDA, None))
  {
  }

  lemma ResultMore(rows: seq<Row>, row: Row, i: nat, id: string)
    requires i < |rows|
    ensures HasResult(rows + [row], i, id) <==> HasResult(rows, i, id) || (row.Outcome? && row.delegation == id)
    ensures forall k: nat :: IsResult(rows + [row], i, id, k) <==>
              IsResult(rows, i, id, k)
              || (k == |rows| && row.Outcome? && row.delegation == id && !HasResult(rows, i, id))
  {
    var more := rows + [row];
    assert forall j :: 0 <= j < |rows| ==> more[j] == rows[j];
    assert more[|rows|] == row;
    forall k: nat | IsResult(more, i, id, k) && k < |rows| ensures IsResult(rows, i, id, k) {
    }
  }

  lemma WaitsMore(rows: seq<Row>, row: Row, i: nat, id: string)
    requires i < |rows|
    ensures Waits(rows + [row], i, id) <==>
              row == Handoff(id, true) || (Waits(rows, i, id) && row != Started(id) && row != Verdict(id))
    ensures HasBegun(rows + [row], i, id) <==>
              HasBegun(rows, i, id) || row == Started(id) || row == Handoff(id, true)
    ensures Waits(rows, i, id) ==> HasBegun(rows, i, id)
  {
    var more := rows + [row];
    assert forall j :: 0 <= j < |rows| ==> more[j] == rows[j];
    assert more[|rows|] == row;
    forall h | i < h < |rows|
      ensures HandedAt(more, h, id) <==> HandedAt(rows, h, id) && row != Started(id) && row != Verdict(id)
    {
    }
    assert HandedAt(more, |rows|, id) <==> row == Handoff(id, true);
    if Waits(rows, i, id) && row != Started(id) && row != Verdict(id) {
      var h :| i < h < |rows| && HandedAt(rows, h, id);
      assert HandedAt(more, h, id);
    }
    if Waits(more, i, id) && row != Handoff(id, true) {
      var h :| i < h < |more| && HandedAt(more, h, id);
      assert HandedAt(rows, h, id);
    }
  }

  /** One more row: the item follows it. */
  lemma StandsMore(rows: seq<Row>, row: Row, i: nat, id: string, item: Item)
    requires i < |rows| && Stands(rows, i, id, item)
    ensures Stands(rows + [row], i, id, if Names(row, id) then Moved(item, row) else item)
  {
    ResultMore(rows, row, i, id);
    WaitsMore(rows, row, i, id);
    SomeResult(rows, i, id);
    hide HasResult, IsResult, Waits, HasBegun;
  }

  /** Where there is a result there is a first one. */
  lemma SomeResult(rows: seq<Row>, i: nat, id: string)
    ensures HasResult(rows, i, id) <==> exists k: nat :: IsResult(rows, i, id, k)
  {
    if HasResult(rows, i, id) {
      var k :| i < k < |rows| && rows[k].Outcome? && rows[k].delegation == id;
      FirstResult(rows, i, id, k);
    }
  }

  lemma {:induction false} FirstResult(rows: seq<Row>, i: nat, id: string, k: nat)
    requires i < k < |rows| && rows[k].Outcome? && rows[k].delegation == id
    ensures exists j: nat :: IsResult(rows, i, id, j)
  {
    if j: nat :| i < j < k && rows[j].Outcome? && rows[j].delegation == id {
      FirstResult(rows, i, id, j);
    } else {
      assert IsResult(rows, i, id, k);
    }
  }

  /** Delegations of the demand among the rows. */
  function Made(rows: seq<Row>, d: string): nat {
    if rows == [] then 0
    else Made(rows[..|rows| - 1], d) + (if rows[|rows| - 1].Delegation? && rows[|rows| - 1].demand == d then 1 else 0)
  }

  predicate Latest(rows: seq<Row>, d: string, i: nat)
    requires i < |rows|
  {
    && rows[i].Delegation? && rows[i].demand == d
    && forall j :: i < j < |rows| && rows[j].Delegation? && rows[j].demand == d ==> rows[j].id != rows[i].id
  }

  /**
   * The list of a demand has one item for each of its delegations, oldest first, and each stands where the rows after
   * it put it: finished by the first result that names it, whatever comes later; before that, waiting for a gate
   * since the last handoff that no start and no verdict follows.
   */
  lemma {:induction false} ItemsMeaning(rows: seq<Row>, d: string, i: nat)
    requires i < |rows| && Latest(rows, d, i)
    ensures |Items(rows, d)| == Made(rows, d) && Made(rows[..i], d) < |Items(rows, d)|
    ensures Stands(rows, i, rows[i].id, Items(rows, d)[Made(rows[..i], d)])
    ensures Items(rows, d)[Made(rows[..i], d)].id == rows[i].id
    ensures forall n :: Made(rows[..i], d) < n < |Items(rows, d)| ==> Items(rows, d)[n].id != rows[i].id
    decreases |rows|
  {
    hide Stands, Moved, Items, Touch, Made, Active;
    var front, last := rows[..|rows| - 1], rows[|rows| - 1];
    assert rows == front + [last];
    ItemsSnoc(front, last, d);
    ItemsCount(front, d);
    ItemsCount(rows, d);
    MadeSnoc(front, last, d);
    if i == |front| {
      JustMade(rows, rows[i].id);
      assert rows[..i] == front;
    } else {
      assert front[i] == rows[i] && front[..i] == rows[..i];
      assert forall j :: 0 <= j < |front| ==> front[j] == rows[j];
      ItemsMeaning(front, d, i);
      var items, n := Items(front, d), Made(front[..i], d);
      StandsMore(front, last, i, rows[i].id, items[n]);
      assert Names(last, rows[i].id) <==> Refers(last) == Some(rows[i].id);
      MovedKeepsId(items[n], last);
      if !(last.Delegation? && last.demand == d) && Refers(last).Some? {
        TouchedAt(items, Refers(last).value, last, n);
      }
    }
  }

  lemma MadeSnoc(rows: seq<Row>, row: Row, d: string)
    ensures Made(rows + [row], d) == Made(rows, d) + (if row.Delegation? && row.demand == d then 1 else 0)
  {
    assert (rows + [row])[..|rows|] == rows;
  }

  lemma {:induction false} ItemsCount(rows: seq<Row>, d: string)
    ensures |Items(rows, d)| == Made(rows, d)
  {
    if rows != [] {
      var front, last := rows[..|rows| - 1], rows[|rows| - 1];
      assert rows == front + [last];
      ItemsCount(front, d);
      ItemsSnoc(front, last, d);
      if Refers(last).Some? {
        TouchSize(Items(front, d), Refers(last).value, last);
      }
    }
  }

  lemma {:induction false} TouchSize(items: seq<Item>, id: string, row: Row)
    ensures |Touch(items, id, row)| == |items|
  {
    if items != [] {
      TouchSize(items[..|items| - 1], id, row);
    }
  }

  /** Touching acts on the latest item of the id. */
  lemma {:induction false} TouchedAt(items: seq<Item>, id: string, row: Row, n: nat)
    requires n < |items| && forall m :: n < m < |items| ==> items[m].id != items[n].id
    ensures |Touch(items, id, row)| == |items|
    ensures Touch(items, id, row)[n] == if items[n].id == id then Moved(items[n], row) else items[n]
    ensures forall m :: 0 <= m < |items| ==> Touch(items, id, row)[m].id == items[m].id
    decreases |items|
  {
    hide Moved;
    var front, last := items[..|items| - 1], items[|items| - 1];
    MovedKeepsId(last, row);
    TouchSize(front, id, row);
    if last.id != id {
      TouchIds(front, id, row);
      if n < |front| {
        TouchedAt(front, id, row, n);
      }
    }
  }

  lemma {:induction false} TouchIds(items: seq<Item>, id: string, row: Row)
    ensures |Touch(items, id, row)| == |items|
    ensures forall m :: 0 <= m < |items| ==> Touch(items, id, row)[m].id == items[m].id
  {
    hide Moved;
    if items != [] {
      MovedKeepsId(items[|items| - 1], row);
      TouchIds(items[..|items| - 1], id, row);
    }
  }

  lemma MovedKeepsId(item: Item, row: Row)
    ensures Moved(item, row).id == item.id
  {
  }

  // ---------------------------------------------------------------- proposals

  predicate Proposes(r: Record, chat: string, id: string) {
    r.Proposed? && r.chat == chat && r.proposal.id == id
  }

  predicate Decides(r: Record, chat: string, id: string) {
    r.Decided? && r.chat == chat && r.id == id
  }

  /** The proposal of this id that the conversation had first. */
  predicate IsFirst(records: seq<Record>, chat: string, id: string, i: nat) {
    i < |records| && Proposes(records[i], chat, id) && forall j :: 0 <= j < i ==> !Proposes(records[j], chat, id)
  }

  lemma {:induction false} FindFirst(records: seq<Record>, chat: string, id: string)
    ensures forall i: nat :: IsFirst(records, chat, id, i) ==> Find(records, chat, id) == Some(records[i].proposal)
    ensures Find(records, chat, id).Some? <==> exists r <- records :: Proposes(r, chat, id)
  {
    if records != [] {
      var front, last := records[..|records| - 1], records[|records| - 1];
      FindFirst(front, chat, id);
      assert records == front + [last];
      assert (exists r <- records :: Proposes(r, chat, id)) <==>
             (exists r <- front :: Proposes(r, chat, id)) || Proposes(last, chat, id);
      forall i: nat | IsFirst(records, chat, id, i) ensures Find(records, chat, id) == Some(records[i].proposal) {
        if i < |front| {
          FirstInFront(records, chat, id, i);
        } else {
          assert forall j :: 0 <= j < |front| ==> front[j] == records[j] && !Proposes(records[j], chat, id);
          assert Find(front, chat, id).None?;
        }
      }
    }
  }

  lemma FirstInFront(records: seq<Record>, chat: string, id: string, i: nat)
    requires IsFirst(records, chat, id, i) && i < |records| - 1
    ensures IsFirst(records[..|records| - 1], chat, id, i)
  {
    hide Proposes;
  }

  lemma {:induction false} DecidedOnce(records: seq<Record>, chat: string, id: string)
    ensures Decisions(records, chat, id) > 0 <==> exists r <- records :: Decides(r, chat, id)
  {
    if records != [] {
      var front, last := records[..|records| - 1], records[|records| - 1];
      DecidedOnce(front, chat, id);
      assert records == front + [last];
      assert (exists r <- records :: Decides(r, chat, id)) <==>
             (exists r <- front :: Decides(r, chat, id)) || Decides(last, chat, id);
    }
  }

  lemma FindMeaning(records: seq<Record>, chat: string, id: string)
    ensures forall i: nat :: IsFirst(records, chat, id, i) ==> Find(records, chat, id) == Some(records[i].proposal)
    ensures Find(records, chat, id).Some? <==> exists r <- records :: Proposes(r, chat, id)
    ensures Decisions(records, chat, id) > 0 <==> exists r <- records :: Decides(r, chat, id)
  {
    hide Find, Decisions, IsFirst, Proposes, Decides;
    FindFirst(records, chat, id);
    DecidedOnce(records, chat, id);
  }

  /** A proposal can be decided while it is there, in its own conversation, and no record there has decided it. */
  lemma UndecidedMeaning(records: seq<Record>, chat: string, id: string)
    ensures Undecided(records, chat, id).Some? <==>
              && (exists r <- records :: Proposes(r, chat, id)) && forall r <- records :: !Decides(r, chat, id)
    ensures forall i: nat :: IsFirst(records, chat, id, i) && Undecided(records, chat, id).Some? ==>
              Undecided(records, chat, id) == Some(records[i].proposal)
  {
    FindMeaning(records, chat, id);
    hide Find, Decisions, Proposes, Decides;
  }

  predicate DistinctIds(log: seq<Row>) {
    forall i, j :: 0 <= i < j < |log| && log[i].Delegation? && log[j].Delegation? ==> log[i].id != log[j].id
  }

  lemma NextDistinct(s: State, a: Action)
    requires DistinctIds(s.log)
    ensures DistinctIds(Next(s, a).log)
  {
    hide Validate, Undecided;
    assert forall i :: 0 <= i < |s.log| ==> s.log[i] in s.log;
  }

  /** In every reachable log the delegations have ids of their own, so that each result names one of them. */
  lemma {:induction false} IdsAreDistinct(actions: seq<Action>)
    ensures DistinctIds(Exec(EMPTY, actions).log)
  {
    hide Next;
    if actions != [] {
      IdsAreDistinct(actions[..|actions| - 1]);
      NextDistinct(Exec(EMPTY, actions[..|actions| - 1]), actions[|actions| - 1]);
    }
  }

  // ---------------------------------------------------------------- confirmations

  /** The row has everything that the human was shown, the task as it was confirmed, and a risk that was accepted. */
  predicate Records(row: Row, shown: Validated, proposal: string, task: string, riskAck: bool) {
    && row.Delegation? && shown.Accepted?
    && row.demand == shown.demand && row.category == shown.category && row.target == shown.target
    && row.owner == shown.owner && row.key == shown.key && row.attempt == shown.attempt
    && row.proposal == proposal && row.task == Strip(task) && row.task != "" && |row.task| <= 2000
    && (row.risk == ALTO ==> riskAck)
  }

  /** Action `k` of the run is the confirmation, of an undecided proposal, that the row comes from. */
  predicate ConfirmedBy(actions: seq<Action>, k: nat, row: Row) {
    && k < |actions| && actions[k].Confirm?
    && var a, s := actions[k], Exec(EMPTY, actions[..k]);
       && Undecided(s.records, a.chat, a.id).Some?
       && var p := Undecided(s.records, a.chat, a.id).value;
          && Records(row, p.validated, a.id, a.task.GetOr(p.task), a.riskAck)
          && a.facts.found.Some? && row.risk == a.facts.found.value.risk
  }

  ghost predicate Confirms(actions: seq<Action>, row: Row) {
    exists k: nat :: ConfirmedBy(actions, k, row)
  }

  lemma ConfirmsMore(actions: seq<Action>, a: Action, row: Row)
    requires Confirms(actions, row)
    ensures Confirms(actions + [a], row)
  {
    hide Exec, Records, Undecided;
    var k: nat :| ConfirmedBy(actions, k, row);
    assert (actions + [a])[..k] == actions[..k];
    assert ConfirmedBy(actions + [a], k, row);
  }

  /** Every delegation in the log, and the one about to be written, comes from a confirmation. */
  ghost predicate AllConfirmed(actions: seq<Action>, s: State) {
    && (forall row <- s.log :: row.Delegation? ==> Confirms(actions, row))
    && (s.pending.Some? ==>
          && s.pending.value.validated.Accepted?
          && forall event :: Confirms(actions, RowOf(s.pending.value, event)))
  }

  /** What a confirmation keeps the lock with. */
  lemma ConfirmedShows(s: State, chat: string, p: Proposal, given: string, riskAck: bool, facts: Facts)
    requires s.pending.None?
    ensures var after := Confirmed(s, chat, p, given, riskAck, facts);
            && after.log == s.log
            && (after.pending.Some? ==>
                 && after.pending.value.validated.Accepted? && facts.found.Some?
                 && forall event ::
                      && Records(RowOf(after.pending.value, event), p.validated, p.id, given, riskAck)
                      && RowOf(after.pending.value, event).risk == facts.found.value.risk)
  {
    hide Strip, Prior, Items, Active;
  }

  lemma ConfirmConfirms(actions: seq<Action>, a: Action)
    requires a.Confirm? && AllConfirmed(actions, Exec(EMPTY, actions)) && Enabled(Exec(EMPTY, actions), a)
    ensures AllConfirmed(actions + [a], Exec(EMPTY, actions + [a]))
  {
    hide Undecided, Records, Confirms, Confirmed, Strip, Exec;
    var s := Exec(EMPTY, actions);
    var p := Undecided(s.records, a.chat, a.id).value;
    ProposalHasId(s.records, a.chat, a.id);
    assert Exec(EMPTY, actions + [a]) == Next(s, a) by { RunMore(actions, a); }
    var after := Next(s, a);
    ConfirmedShows(s, a.chat, p, a.task.GetOr(p.task), a.riskAck, a.facts);
    forall row | row in after.log && row.Delegation? ensures Confirms(actions + [a], row) {
      ConfirmsMore(actions, a, row);
    }
    if after.pending.Some? {
      forall event ensures Confirms(actions + [a], RowOf(after.pending.value, event)) {
        assert (actions + [a])[..|actions|] == actions;
        IsConfirmation(actions + [a], |actions|, RowOf(after.pending.value, event));
      }
    }
  }

  lemma IsConfirmation(actions: seq<Action>, k: nat, row: Row)
    requires ConfirmedBy(actions, k, row)
    ensures Confirms(actions, row)
  {
  }

  lemma RunMore(actions: seq<Action>, a: Action)
    ensures Exec(EMPTY, actions + [a]) == Next(Exec(EMPTY, actions), a)
  {
    hide Next;
    assert (actions + [a])[..|actions|] == actions;
  }

  lemma ProposalHasId(records: seq<Record>, chat: string, id: string)
    ensures Undecided(records, chat, id).Some? ==> Undecided(records, chat, id).value.id == id
  {
    hide Find, Decisions;
    FoundId(records, chat, id);
  }

  lemma OtherConfirms(actions: seq<Action>, a: Action)
    requires AllConfirmed(actions, Exec(EMPTY, actions)) && !(a.Confirm? && Enabled(Exec(EMPTY, actions), a))
    ensures AllConfirmed(actions + [a], Exec(EMPTY, actions + [a]))
  {
    hide Undecided, Records, Confirms, Confirmed, Exec, Fresh;
    var s := Exec(EMPTY, actions);
    RunMore(actions, a);
    var after := Next(s, a);
    forall row | Confirms(actions, row) ensures Confirms(actions + [a], row) {
      ConfirmsMore(actions, a, row);
    }
    if after.pending.Some? {
      forall event ensures Confirms(actions + [a], RowOf(after.pending.value, event)) {
        assert RowOf(after.pending.value, event) == RowOf(s.pending.value, event);
      }
    }
    forall row | row in after.log && row.Delegation? ensures Confirms(actions + [a], row) {
      assert row in s.log || (a.Write? && s.pending.Some? && row == RowOf(s.pending.value, a.event));
    }
  }

  lemma {:induction false} RunConfirms(actions: seq<Action>)
    ensures AllConfirmed(actions, Exec(EMPTY, actions))
  {
    if actions != [] {
      hide AllConfirmed, Exec;
      var front, a := actions[..|actions| - 1], actions[|actions| - 1];
      assert actions == front + [a];
      RunConfirms(front);
      if a.Confirm? && Enabled(Exec(EMPTY, front), a) {
        ConfirmConfirms(front, a);
      } else {
        OtherConfirms(front, a);
      }
    }
  }

  /**
   * In every run, each delegation in the log was confirmed by a human for a proposal then undecided: with the demand,
   * category, target, owner, key and attempt that were shown, the task that was confirmed, and a high risk only where
   * it was acknowledged.
   */
  lemma DelegationsAreConfirmed(actions: seq<Action>, i: nat)
    requires i < |Exec(EMPTY, actions).log| && Exec(EMPTY, actions).log[i].Delegation?
    ensures exists k: nat :: ConfirmedBy(actions, k, Exec(EMPTY, actions).log[i])
  {
    hide Exec, ConfirmedBy;
    RunConfirms(actions);
  }

  // ---------------------------------------------------------------- validation

  /** What the attempts of a proposal are about. */
  predicate IsAbout(raw: Raw, f: Found, key: Key) {
    && key.demand == raw.demand && key.category == raw.category
    && (raw.category == CONFLITO_DEVELOP ==> key.scope == Pr(f.pr))
    && (raw.category == PENDENCIA_AGENTE_PARADO ==> key.scope == Owner(f.owner, f.step))
    && (raw.category == AJUSTE_PONTUAL ==> key.scope == Whole)
    && (raw.category == TESTE_QUEBRADO ==>
          key.scope == if raw.target == None then Whole else Target(raw.target.value))
    && (raw.category in {GATE_TRAVADO, AMBIENTE_TESTE, PENDENCIA_HANDOFF, PENDENCIA_CHANGE_REQUEST} ==>
          key.scope == Target(f.target))
  }

  /** An agent that has stopped gets one attempt, everything else two. */
  function Limit(category: Category): nat {
    match category
    case PENDENCIA_AGENTE_PARADO => 1
    case _ => 2
  }

  /** Some delegation of the demand has had no result. */
  predicate HasOpen(rows: seq<Row>, d: string) {
    exists item <- Items(rows, d) :: item.result == None
  }

  lemma {:induction false} ActiveIsOpen(items: seq<Item>)
    ensures Active(items) > 0 <==> exists item <- items :: item.result == None
  {
    if items != [] {
      ActiveIsOpen(items[..|items| - 1]);
      assert items == items[..|items| - 1] + [items[|items| - 1]];
    }
  }

  /**
   * A proposal is accepted exactly if nothing was wrong with it early, its demand has no open delegation, its
   * precondition holds and attempts are left, of those counted on the log; a stopped agent's is not, if a delegation
   * brought it there. It then carries the next attempt, and the target its category has.
   */
  lemma AcceptedIff(raw: Raw, rows: seq<Row>, facts: Facts, key: Key)
    requires facts.found.Some? ==> IsAbout(raw, facts.found.value, key)
    ensures var v := Validate(raw, rows, facts);
            && (v.Accepted? <==>
                 && facts.early == None && !HasOpen(rows, raw.demand) && facts.found.Some?
                 && |Used(rows, key)| < Limit(raw.category)
                 && !(raw.category == PENDENCIA_AGENTE_PARADO && facts.found.value.fromDelegation))
            && (v.Accepted? ==>
                 var f := facts.found.value;
                 && v.demand == raw.demand && v.category == raw.category && v.key == key
                 && v.attempt == |Used(rows, key)| + 1 && v.owner == f.owner && v.risk == f.risk
                 && v.target == if raw.category == AJUSTE_PONTUAL then None
                                else if raw.category == TESTE_QUEBRADO then raw.target else Some(f.target))
            && (v.Rejected? ==>
                 v.reason == (if facts.early.Some? then facts.early.value
                              else if HasOpen(rows, raw.demand) then "delegacao_ativa"
                              else if facts.found == None || |Used(rows, key)| < Limit(raw.category)
                              then "precondicao_falhou"
                              else "limite_tentativas"))
  {
    PriorMeaning(rows, key);
    ActiveIsOpen(Items(rows, raw.demand));
    hide Prior, Items, Active, Used;
    if facts.found.Some? {
      assert key == Key(raw.demand, raw.category, ScopeOf(raw, facts.found.value));
    }
  }

  /** The bounds of every reachable log, counted on its rows. */
  lemma AttemptsAreBounded(actions: seq<Action>, key: Key)
    ensures |Used(Exec(EMPTY, actions).log, key)| <= Limit(key.category)
  {
    hide Exec, Used, Prior, Items, Active, Decisions, Delegated, Confirmations;
    DelegationsAreBounded(actions);
    PriorMeaning(Exec(EMPTY, actions).log, key);
  }
}
