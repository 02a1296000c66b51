/**
 * `conversa.py`, `_confirm_delegation`: a process may stop between recording a delegation and recording the decision.
 * For which attempt keys a proposal is delegated at most once all the same.
 */
module DelegationCrashes {
  import opened Prelude
  import opened Blanks
  import opened Delegations

  lemma {:induction false} PriorGrows(log: seq<Row>, key: Key, i: nat, j: nat)
    requires !Keyless(key) && i <= j <= |log|
    ensures Prior(log[..i], key) <= Prior(log[..j], key)
    decreases j
  {
    hide Prior;
    if i < j {
      PriorGrows(log, key, i, j - 1);
      PriorSnoc(log[..j - 1], log[j - 1], key);
      assert log[..j - 1] + [log[j - 1]] == log[..j];
    }
  }

  /**
   * Two delegations of a key with a target never carry the same attempt, so a proposal for such a key is delegated at
   * most once even when the process stops between recording the delegation and recording the decision.
   */
  lemma KeyedAttemptsAreDistinct(actions: seq<Action>, i: nat, j: nat)
    requires var log := Exec(EMPTY, actions).log;
             i < j < |log| && log[i].Delegation? && Of(log[j], log[i].key) && !Keyless(log[i].key)
    ensures var log := Exec(EMPTY, actions).log;
            log[i].attempt < log[j].attempt <= MaxAttempts(log[j].key)
  {
    hide Prior, Exec, PendingOk, DecidedOnce, Counted;
    ExecKeepsInv(actions);
    var log := Exec(EMPTY, actions).log;
    var key := log[i].key;
    PriorSnoc(log[..i], log[i], key);
    assert log[..i] + [log[i]] == log[..i + 1];
    PriorGrows(log, key, i + 1, j);
    PriorSnoc(log[..j], log[j], key);
    assert log[..j] + [log[j]] == log[..j + 1];
    PriorGrows(log, key, j + 1, |log|);
    assert log[..|log|] == log;
  }

  // ---------------------------------------------------------------- the proposal a delegation comes from

  /** A proposal is known by its conversation and its id. */
  datatype Origin = Origin(chat: string, id: string)

  /** For each row of the log, the proposal that its delegation confirms, if it is one. */
  function Origins(s: State, actions: seq<Action>): seq<Option<Origin>>
    requires s.log == []
    ensures |Origins(s, actions)| == |Exec(s, actions).log|
  {
    if actions == [] then []
    else
      var front, a := actions[..|actions| - 1], actions[|actions| - 1];
      var before := Exec(s, front);
      NextLog(before, a);
      if Next(before, a).log == before.log then Origins(s, front)
      else if a.Write? then Origins(s, front) + [Some(Origin(before.pending.value.chat, before.pending.value.id))]
      else Origins(s, front) + [None]
  }

  lemma NextLog(s: State, a: Action)
    ensures Next(s, a).log == s.log
            || (|Next(s, a).log| == |s.log| + 1 && Next(s, a).log[..|s.log|] == s.log
                && (a.Append? || (a.Write? && s.pending.Some?)))
  {
    hide Validate, Undecided, Fresh;
  }

  /** No two delegations of the key in this run come from the same proposal. */
  predicate DelegatedOnce(actions: seq<Action>, key: Key) {
    var log, from := Exec(EMPTY, actions).log, Origins(EMPTY, actions);
    forall i, j :: 0 <= i < j < |log| && Of(log[i], key) && Of(log[j], key) ==> from[i] == None || from[i] != from[j]
  }

  /** Every delegation carries key and attempt of the proposal it comes from, and a key of the right shape. */
  ghost predicate FromProposals(s: State, from: seq<Option<Origin>>)
    requires |from| == |s.log|
  {
    forall i :: 0 <= i < |s.log| && s.log[i].Delegation? ==>
      && KeyShape(s.log[i].key)
      && (from[i].Some? ==>
           var p := Find(s.records, from[i].value.chat, from[i].value.id);
           p.Some? && p.value.validated.Accepted?
           && s.log[i].key == p.value.validated.key && s.log[i].attempt == p.value.validated.attempt)
  }

  lemma FindStays(s: State, a: Action, chat: string, id: string)
    requires Find(s.records, chat, id).Some?
    ensures Find(Next(s, a).records, chat, id) == Find(s.records, chat, id)
  {
    hide Find, Validate, Undecided, Fresh, Decisions;
    if Next(s, a).records != s.records {
      var r := Next(s, a).records[|s.records|];
      assert Next(s, a).records == s.records + [r];
      DecisionsSnoc(s.records, r, chat, id);
    }
  }

  lemma {:induction false} RunFromProposals(actions: seq<Action>)
    ensures FromProposals(Exec(EMPTY, actions), Origins(EMPTY, actions))
  {
    hide Next, Find, KeyShape, Inv;
    if actions != [] {
      var front, a := actions[..|actions| - 1], actions[|actions| - 1];
      var before := Exec(EMPTY, front);
      RunFromProposals(front);
      ExecKeepsInv(front);
      NextLog(before, a);
      NextFromProposals(before, Origins(EMPTY, front), a, Origins(EMPTY, actions));
    }
  }

  lemma NextFromProposals(s: State, from: seq<Option<Origin>>, a: Action, after: seq<Option<Origin>>)
    requires Inv(s) && |from| == |s.log| && FromProposals(s, from) && |after| == |Next(s, a).log|
    requires Next(s, a).log == s.log ==> after == from
    requires Next(s, a).log != s.log && a.Write? ==>
               s.pending.Some? && after == from + [Some(Origin(s.pending.value.chat, s.pending.value.id))]
    requires Next(s, a).log != s.log && !a.Write? ==> after == from + [None]
    ensures FromProposals(Next(s, a), after)
  {
    hide Find, KeyShape, LogOk, Numbered, DecidedOnce, Counted, Items, Active, Prior, Validate, Decisions, Fresh;
    var next := Next(s, a);
    NextLog(s, a);
    forall i | 0 <= i < |s.log| && from[i].Some? && s.log[i].Delegation?
      ensures Find(next.records, from[i].value.chat, from[i].value.id)
           == Find(s.records, from[i].value.chat, from[i].value.id)
    {
      FindStays(s, a, from[i].value.chat, from[i].value.id);
    }
    if next.log != s.log && a.Write? {
      FindStays(s, a, s.pending.value.chat, s.pending.value.id);
    }
  }

  // ---------------------------------------------------------------- keys with a target

  /** A proposal for a key with a target is delegated at most once, whatever crashes. */
  lemma KeyedIsOnce(actions: seq<Action>, key: Key)
    requires !Keyless(key)
    ensures DelegatedOnce(actions, key)
  {
    hide Exec, Origins, Find, KeyShape;
    RunFromProposals(actions);
    var log, from := Exec(EMPTY, actions).log, Origins(EMPTY, actions);
    forall i, j | 0 <= i < j < |log| && Of(log[i], key) && Of(log[j], key)
      ensures from[i] == None || from[i] != from[j]
    {
      KeyedAttemptsAreDistinct(actions, i, j);
    }
  }

  // ---------------------------------------------------------------- keys without

  /** What a proposal for such a key is validated to. */
  function Valid(key: Key): Validated {
    Accepted(key.demand, key.category, None, "a-definir", MODERADO, 1, key)
  }

  function Asked(key: Key): Proposal {
    Proposal("p", "fix", MODERADO, Valid(key))
  }

  const FACTS := Facts(None, Some(Found("", "a-definir", "", "", MODERADO, false)))
  const CONFIRM := Confirm("c", "p", None, false, FACTS)

  function FixRow(key: Key, event: string): Row {
    Delegation(event, key.demand, key.category, None, "a-definir", MODERADO, 1, key, "fix", "p")
  }

  function Waits(key: Key): Pending {
    Pending("c", "p", Valid(key), "fix", None)
  }

  /** Confirmed, crashed before the decision is recorded, done, confirmed again. */
  function Repeating(key: Key): seq<Action> {
    [Propose("c", Asked(key))] + [CONFIRM] + [Write("1")] + [Crash]
    + [Append(Outcome("1", "ok"))] + [CONFIRM] + [Write("2")]
  }

  /** A key without target that some validation yields. */
  predicate Repeatable(key: Key) {
    Keyless(key) && KeyShape(key)
  }

  lemma ConfirmsAgain(log: seq<Row>, key: Key)
    requires Repeatable(key) && Active(Items(log, key.demand)) == 0 && Prior(log, key) == 0
    ensures Validate(Raw(key.demand, key.category, None, "fix", MODERADO), log, FACTS) == Valid(key)
  {
    hide Items, Active, Prior;
  }

  lemma OneItem(item: Item)
    ensures Active([item]) == (if item.result.None? then 1 else 0)
    ensures forall row: Row :: Touch([item], item.id, row) == [Moved(item, row)]
  {
    hide Moved;
    assert [item][..0] == [];
    forall row: Row ensures Touch([item], item.id, row) == [Moved(item, row)] {
      assert [] + [Moved(item, row)] == [Moved(item, row)];
    }
  }

  lemma ItemsAfterTheFix(key: Key)
    ensures Active(Items([FixRow(key, "1"), Outcome("1", "ok")], key.demand)) == 0
  {
    hide Items, Active, Touch;
    var row, done, item := FixRow(key, "1"), Outcome("1", "ok"), Item("1", PEDIDA, None);
    assert [row, done] == [row] + [done] && [row] == [] + [row];
    ItemsSnoc([], row, key.demand);
    NoItems(key.demand);
    assert [] + [item] == [item];
    ItemsSnoc([row], done, key.demand);
    OneItem(item);
    assert Moved(item, done) == Item("1", CONCLUIDA, Some("ok"));
    OneItem(Item("1", CONCLUIDA, Some("ok")));
  }

  lemma AttemptsAfterTheFix(key: Key)
    requires Keyless(key)
    ensures Prior([FixRow(key, "1"), Outcome("1", "ok")], key) == 0
  {
    hide CountSince, IdsOf;
    var row := FixRow(key, "1");
    assert [row, Outcome("1", "ok")] == [row] + [Outcome("1", "ok")] && [row] == [] + [row];
    EmptyLog(key);
    IdsSnoc([], row, key);
    IdsSnoc([row], Outcome("1", "ok"), key);
    CountSnoc([], row, key, 1);
    CountSnoc([row], Outcome("1", "ok"), key, 1);
  }

  lemma OnlyProposal(key: Key)
    ensures Undecided([Proposed("c", Asked(key))], "c", "p") == Some(Asked(key))
  {
    assert [Proposed("c", Asked(key))][..0] == [];
    assert Find([], "c", "p") == None && Decisions([], "c", "p") == 0;
  }

  lemma FixIsStripped()
    ensures Strip("fix") == "fix"
  {
    assert !IsSpace('f') && !IsSpace('x');
  }

  /** The proposal is still undecided: confirming it takes the lock. */
  lemma TakesTheLock(log: seq<Row>, crashed: nat, key: Key)
    requires Repeatable(key) && Active(Items(log, key.demand)) == 0 && Prior(log, key) == 0
    ensures var s := State(log, [Proposed("c", Asked(key))], None, crashed);
            Next(s, CONFIRM) == s.(pending := Some(Waits(key)))
  {
    hide Validate, Undecided, Active, Items, Prior, Strip;
    FixIsStripped();
    OnlyProposal(key);
    ConfirmsAgain(log, key);
  }

  lemma Longer(front: seq<Action>, a: Action, before: State, after: State)
    requires Exec(EMPTY, front) == before && Next(before, a) == after
    ensures Exec(EMPTY, front + [a]) == after
    ensures Origins(EMPTY, front + [a]) ==
            if after.log == before.log then Origins(EMPTY, front)
            else if a.Write? then
              Origins(EMPTY, front) + [Some(Origin(before.pending.value.chat, before.pending.value.id))]
            else Origins(EMPTY, front) + [None]
  {
    hide Next;
    assert (front + [a])[..|front|] == front;
    NextLog(before, a);
  }

  lemma OtherSteps(key: Key)
    ensures var records, row, done := [Proposed("c", Asked(key))], FixRow(key, "1"), Outcome("1", "ok");
            && Next(EMPTY, Propose("c", Asked(key))) == State([], records, None, 0)
            && Next(State([], records, Some(Waits(key)), 0), Write("1")) ==
               State([row], records, Some(Waits(key).(event := Some("1"))), 0)
            && Next(State([row], records, Some(Waits(key).(event := Some("1"))), 0), Crash) ==
               State([row], records, None, 1)
            && Next(State([row], records, None, 1), Append(done)) == State([row, done], records, None, 1)
            && Next(State([row, done], records, Some(Waits(key)), 1), Write("2")).log == [row, done, FixRow(key, "2")]
  {
    hide Items, Active, Prior, Confirmed, Undecided;
    var records, row, done := [Proposed("c", Asked(key))], FixRow(key, "1"), Outcome("1", "ok");
    assert [] + [row] == [row] && [row] + [done] == [row, done] && [] + [Proposed("c", Asked(key))] == records;
    assert [row, done] + [FixRow(key, "2")] == [row, done, FixRow(key, "2")];
    assert Fresh([], "1") && Fresh([row, done], "2");
  }

  /** For every such key a proposal is delegated twice by a crash, once its first delegation has ended in `ok`. */
  lemma KeylessProposalCanRepeat(key: Key)
    requires Repeatable(key)
    ensures Exec(EMPTY, Repeating(key)).log == [FixRow(key, "1"), Outcome("1", "ok"), FixRow(key, "2")]
    ensures Origins(EMPTY, Repeating(key)) == [Some(Origin("c", "p")), None, Some(Origin("c", "p"))]
  {
    hide Items, Prior, Confirmed, Undecided, Next, Exec, Origins, Asked, FixRow, CONFIRM;
    var records, row, done := [Proposed("c", Asked(key))], FixRow(key, "1"), Outcome("1", "ok");
    EmptyLog(key);
    NoItems(key.demand);
    ItemsAfterTheFix(key);
    AttemptsAfterTheFix(key);
    TakesTheLock([], 0, key);
    TakesTheLock([row, done], 1, key);
    OtherSteps(key);
    NothingRun();
    var s1 := State([], records, None, 0);
    var s2 := s1.(pending := Some(Waits(key)));
    var s3 := State([row], records, Some(Waits(key).(event := Some("1"))), 0);
    var s4, s5 := State([row], records, None, 1), State([row, done], records, None, 1);
    var s6 := s5.(pending := Some(Waits(key)));
    var a1 := [Propose("c", Asked(key))];
    assert [] + a1 == a1;
    Longer([], Propose("c", Asked(key)), EMPTY, s1);
    Longer(a1, CONFIRM, s1, s2);
    var a3 := a1 + [CONFIRM] + [Write("1")];
    Longer(a1 + [CONFIRM], Write("1"), s2, s3);
    Longer(a3, Crash, s3, s4);
    var a5 := a3 + [Crash] + [Append(done)];
    Longer(a3 + [Crash], Append(done), s4, s5);
    Longer(a5, CONFIRM, s5, s6);
    Longer(a5 + [CONFIRM], Write("2"), s6, Next(s6, Write("2")));
    assert Repeating(key) == a5 + [CONFIRM] + [Write("2")];
  }

  lemma NothingRun()
    ensures Exec(EMPTY, []) == EMPTY && Origins(EMPTY, []) == []
  {
  }

  // ---------------------------------------------------------------- exactly which keys

  lemma UnshapedIsNever(actions: seq<Action>, key: Key)
    requires !KeyShape(key)
    ensures DelegatedOnce(actions, key)
  {
    hide Exec, Origins, Find;
    RunFromProposals(actions);
  }

  /** A proposal is delegated at most once in every run if and only if its key is not a repeatable one. */
  lemma DelegatedOnceIff(key: Key)
    ensures (forall actions :: DelegatedOnce(actions, key)) <==> !Repeatable(key)
  {
    hide Exec, Origins;
    if Repeatable(key) {
      KeylessProposalCanRepeat(key);
      var log, from := Exec(EMPTY, Repeating(key)).log, Origins(EMPTY, Repeating(key));
      assert Of(log[0], key) && Of(log[2], key) && from[0] == from[2] != None;
      assert !DelegatedOnce(Repeating(key), key);
    } else {
      forall actions ensures DelegatedOnce(actions, key) {
        if Keyless(key) {
          UnshapedIsNever(actions, key);
        } else {
          KeyedIsOnce(actions, key);
        }
      }
    }
  }

  /** The keys a validation yields are repeatable exactly when they name no target. */
  lemma ValidatedIsShaped(raw: Raw, rows: seq<Row>, facts: Facts)
    requires Validate(raw, rows, facts).Accepted?
    ensures var key := Validate(raw, rows, facts).key;
            Repeatable(key) <==> raw.category == AJUSTE_PONTUAL || (raw.category == TESTE_QUEBRADO && raw.target.None?)
  {
    hide Items, Active, Prior;
  }
}
