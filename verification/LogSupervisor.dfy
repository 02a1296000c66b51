/**
 * `publisher.py`, class `Supervisor`: `ff_with_memory` and `reattach` as they change files, links and the live path,
 * with other writers appending at every point in between. Proved to be runs of the abstract merge.
 */
module LogSupervisor {
  import opened Prelude
  import opened Blanks
  import opened LogLines
  import opened LogMerge

  /** The loop of `reattach`: the lines whose keys the live log and the earlier lines do not have. */
  method CollectMissing(idOf: Ids, cur: string, copies: seq<string>) returns (add: seq<string>)
    ensures add == Missing(idOf, Keys(idOf, cur), AllLines(copies))
    ensures forall line <- add :: line in AllLines(copies) && !Has(idOf, Lines(cur), line)
    ensures forall i, j :: 0 <= i < j < |add| ==> !SameEvent(idOf, add[i], add[j])
    ensures forall line <- AllLines(copies) :: Has(idOf, Lines(cur) + add, line)
  {
    hide Lines, KeyOf, KeySet, Missing, AllLines, Keys, Has, SameEvent;
    ghost var seen := Keys(idOf, cur);
    var have := Keys(idOf, cur);
    add := [];
    NothingRead(idOf, seen, copies);
    for i := 0 to |copies|
      invariant add == Missing(idOf, seen, AllLines(copies[..i])) && have == seen + KeySet(idOf, add)
    {
      var lines := Lines(copies[i]);
      ghost var earlier := AllLines(copies[..i]);
      assert lines[..0] == [] && earlier + [] == earlier;
      for j := 0 to |lines|
        invariant add == Missing(idOf, seen, earlier + lines[..j]) && have == seen + KeySet(idOf, add)
      {
        OneMoreLine(idOf, seen, earlier + lines[..j], lines[j]);
        assert earlier + lines[..j + 1] == (earlier + lines[..j]) + [lines[j]];
        var key := KeyOf(idOf, lines[j]);
        if key !in have {
          have := have + {key};
          add := add + [lines[j]];
        }
      }
      OneMoreCopy(copies, i);
      assert lines[..|lines|] == lines;
    }
    assert copies[..|copies|] == copies;
    Collected(idOf, cur, copies);
  }

  lemma Collected(idOf: Ids, cur: string, copies: seq<string>)
    ensures var add := Missing(idOf, Keys(idOf, cur), AllLines(copies));
            && (forall line <- add :: line in AllLines(copies) && !Has(idOf, Lines(cur), line))
            && (forall i, j :: 0 <= i < j < |add| ==> !SameEvent(idOf, add[i], add[j]))
            && forall line <- AllLines(copies) :: Has(idOf, Lines(cur) + add, line)
  {
    hide Lines, AllLines, Missing, Has;
    AddedAreNew(idOf, Lines(cur), AllLines(copies));
  }

  lemma NothingRead(idOf: Ids, seen: set<Key>, copies: seq<string>)
    ensures Missing(idOf, seen, AllLines(copies[..0])) == [] && KeySet(idOf, []) == {}
  {
  }

  lemma OneMoreCopy(copies: seq<string>, i: nat)
    requires i < |copies|
    ensures AllLines(copies[..i + 1]) == AllLines(copies[..i]) + Lines(copies[i])
  {
    assert copies[..i + 1][..i] == copies[..i];
  }

  lemma OneMoreLine(idOf: Ids, seen: set<Key>, lines: seq<string>, line: string)
    ensures var add := Missing(idOf, seen, lines);
            && Missing(idOf, seen, lines + [line]) ==
               (if KeyOf(idOf, line) in seen + KeySet(idOf, add) then add else add + [line])
            && KeySet(idOf, add + [line]) == KeySet(idOf, add) + {KeyOf(idOf, line)}
  {
    hide KeyOf;
    assert (lines + [line])[..|lines|] == lines;
    KeySetConcat(idOf, Missing(idOf, seen, lines), [line]);
  }

  class Supervisor {
    var heap: map<nat, string>
    var next: nat
    var live: Option<nat>
    var copies: seq<nat>
    var head: Option<string>
    const target: Option<string>
    const idOf: Ids
    /** What other writers append at the n-th moment, and whether git would do the n-th merge. */
    const others: nat -> seq<string>
    const willing: nat -> bool
    var moment: nat
    ghost var start: State
    ghost var trace: seq<Action>

    constructor (s: State, idOf: Ids, others: nat -> seq<string>, willing: nat -> bool)
      requires Ready(idOf, s)
      requires forall n, i :: 0 <= i < |others(n)| ==> Terminated(others(n)[i])
      ensures Valid() && trace == [] && start == s
      ensures this.idOf == idOf && this.others == others && this.willing == willing
    {
      heap, next, live, copies, head := s.heap, s.next, s.live, s.copies, s.head;
      target, this.idOf, this.others, this.willing := s.target, idOf, others, willing;
      moment := 0;
      start, trace := s, [];
    }

    ghost function Now(): State
      reads this
    {
      Exec(idOf, start, trace)
    }

    predicate Shows(s: State)
      reads this
    {
      && heap == s.heap && next == s.next && live == s.live
      && copies == s.copies && head == s.head && target == s.target
    }

    /** The files are those of the abstract run so far. */
    ghost predicate Valid()
      reads this
    {
      && Ready(idOf, start) && OnTimeRun(idOf, start, trace) && Shows(Now())
      && (forall n, i :: 0 <= i < |others(n)| ==> Terminated(others(n)[i]))
    }

    ghost method Step(a: Action)
      requires OnTimeRun(idOf, start, trace) && OnTime(Now(), a)
      modifies this`trace
      ensures trace == old(trace) + [a] && Now() == Next(idOf, old(Now()), a) && OnTimeRun(idOf, start, trace)
    {
      hide Next;
      var front := trace;
      trace := trace + [a];
      assert trace[..|trace| - 1] == front;
    }

    function Live(): string
      reads this
    {
      if live.Some? && live.value in heap then heap[live.value] else ""
    }

    /** One open-and-write in append mode, by another writer or by the supervisor. */
    method AppendFile(text: string)
      modifies this`heap, this`next, this`live
      ensures forall s: State :: old(Shows(s)) ==> Shows(AppendLive(s, text))
    {
      if live.Some? && live.value in heap {
        heap := heap[live.value := heap[live.value] + text];
      } else {
        heap, live := heap[next := text], Some(next);
        next := next + 1;
      }
    }

    /** The other writers get their turn; one that would continue an unfinished line is not part of this model. */
    method Others()
      requires Valid()
      modifies this
      ensures Valid() && start == old(start)
      ensures Now() == old(Now()).(heap := heap, next := next, live := live)
      ensures old(live).Some? ==> live == old(live)
      ensures !Now().phase.Linked? ==> Copies(Now()) == Copies(old(Now()))
      ensures Terminated(Live()) || Live() == old(Live())
    {
      hide Ready, Exec, OnTimeRun, Terminated, Copies, Inv;
      var texts := others(moment);
      moment := moment + 1;
      for i := 0 to |texts|
        invariant Valid() && start == old(start)
        invariant Now() == old(Now()).(heap := heap, next := next, live := live)
        invariant old(live).Some? ==> live == old(live)
        invariant !Now().phase.Linked? ==> Copies(Now()) == Copies(old(Now()))
        invariant Terminated(Live()) || Live() == old(Live())
      {
        if StartsLine(Live(), texts[i]) {
          ghost var before, text := Now(), Live();
          Reached(idOf, start, trace);
          if !before.phase.Linked? {
            CopiesStay(idOf, before, texts[i]);
          }
          AppendFile(texts[i]);
          Step(Append(texts[i]));
          assert Now() == AppendLive(before, texts[i]);
          Ended(text, texts[i]);
        }
      }
    }

    /** A new file at the path: `write_bytes` to a temporary name and `os.replace`; or no file. */
    method PutFile(version: Option<string>)
      modifies this`heap, this`next, this`live
      ensures forall s: State :: old(Shows(s)) ==> Shows(Put(s, version))
      ensures if version.Some? then Live() == version.value else live.None?
    {
      match version
      case Some(text) =>
        heap, live := heap[next := text], Some(next);
        next := next + 1;
      case None => live := None;
    }

    /** The first half of a round of `ff_with_memory`: link the live log and put the committed version in its place. */
    method LinkAndSwap()
      requires Valid() && Now().phase.Attempting?
      modifies this
      ensures Valid() && start == old(start) && Now().phase.Swapped?
      ensures Now().attempt == old(Now()).attempt && head == old(head)
    {
      hide Ready, Exec, OnTimeRun, Terminated, Copies, Put;
      if live.Some? {
        ghost var before := Now();
        copies := copies + [live.value];
        Step(Link);
        assert Now() == before.(copies := before.copies + [before.live.value], phase := Linked);
        Others();
        ghost var linked := Now();
        PutFile(head);
        Step(Swap);
        assert Now() == Put(linked, linked.head).(phase := Swapped, base := linked.head.GetOr(""));
        PutKeeps(linked, linked.head);
      } else {
        Step(Skip);
      }
    }

    /** The second half: `git merge --ff-only`, which may refuse. */
    method TryMerge() returns (ok: bool)
      requires Valid() && Now().phase.Swapped?
      modifies this
      ensures Valid() && start == old(start)
      ensures ok ==
              (&& old(willing(moment))
               && (|| old(head) == target || old(live).None?
                   || Some(old(Live())) == old(head) || Some(old(Live())) == target))
      ensures head == if ok then target else old(head)
      ensures ok && old(head) != target ==> if target.Some? then Live() == target.value else live.None?
      ensures !ok || old(head) == target ==> heap == old(heap) && live == old(live)
      ensures ok ==> Now().phase.Settled? && Now().attempt == old(Now()).attempt
      ensures !ok ==> Now().attempt == old(Now()).attempt + 1
      ensures !ok ==> Now().phase == if Now().attempt < 5 then Attempting else Settled
    {
      hide Ready, Exec, OnTimeRun, Terminated, Copies, Put;
      ghost var before := Now();
      var content := Live();
      ok := willing(moment) && (head == target || live.None? || Some(content) == head || Some(content) == target);
      if ok && head != target {
        PutFile(target);
        head := target;
      }
      Step(Merge(ok));
      PutKeeps(before, before.target);
    }

    /** The one write of `reattach`, if there is anything to add. */
    method WriteMissing(cur: string, add: seq<string>)
      requires Valid() && Now().phase == Reading(cur) && (Terminated(Live()) || NeedsBreak(cur))
      requires add == Missing(idOf, Keys(idOf, cur), AllLines(Copies(Now())))
      modifies this
      ensures Valid() && start == old(start) && Now().phase.Written? && head == old(head)
      ensures Now().attempt == old(Now()).attempt
    {
      hide Ready, Exec, OnTimeRun, Terminated, Missing, Join, AllLines, Keys, Copies, AppendLive;
      ghost var before := Now();
      if add != [] {
        JoinEnds(add);
        AppendFile((if NeedsBreak(cur) then "\n" else "") + Join(add));
      }
      Step(Write);
      AppendKeepsRest(before, Addition(idOf, cur, Copies(before)));
    }

    /** The copies are unlinked exactly when the live log, read again, has each of their lines. */
    method DropCopies()
      requires Valid() && Now().phase.Written?
      modifies this
      ensures Valid() && start == old(start) && Now().phase.Cleaned? && head == old(head)
      ensures Now().attempt == old(Now()).attempt && heap == old(heap) && live == old(live)
      ensures var lines := AllLines(Texts(heap, old(copies)));
              copies == if AllKept(idOf, lines, Live()) then [] else old(copies)
    {
      hide Ready, Exec, OnTimeRun, Terminated, AllKeys, Keys, Texts, AllKept;
      var texts := Texts(heap, copies);
      KeptIffKeys(idOf, texts, Live());
      if AllKeys(idOf, texts) <= Keys(idOf, Live()) {
        copies := [];
      }
      Step(Check);
    }

    /** `reattach`: read the live log, append what only the copies hold, and drop them once the log has every key. */
    method Reattach()
      requires Valid() && Now().phase.Settled?
      modifies this
      ensures Valid() && start == old(start) && Now().phase.Cleaned? && head == old(head)
      ensures Now().attempt == old(Now()).attempt
      ensures AllKept(idOf, LoggedLines(idOf, start, trace), Live())
    {
      hide Ready, Exec, OnTimeRun, Terminated, Missing, AllLines, Keys, Texts, AllKept;
      var cur := Live();
      Step(ReadLive);
      Others();
      var texts := Texts(heap, copies);
      var add := CollectMissing(idOf, cur, texts);
      Others();
      EndedOrBroken(cur);
      WriteMissing(cur, add);
      Others();
      DropCopies();
      EventsAreKept(idOf, start, trace);
    }

    /** `ff_with_memory`: up to five rounds, then the re-attachment in every case. */
    method FastForward() returns (ok: bool)
      requires Valid() && trace == []
      modifies this
      ensures Valid() && start == old(start) && Now() == Exec(idOf, start, trace) && Now().phase.Cleaned?
      ensures if ok then head == target && Now().attempt < 5 else head == old(head) && Now().attempt == 5
      ensures Logged(idOf, start, trace) <= Keys(idOf, Live()) && copies == []
      ensures AllKept(idOf, LoggedLines(idOf, start, trace), Live())
    {
      hide Exec, OnTimeRun, Terminated, Logged, Keys, AllKeys, Copies, FilesOk, HeadKept, AllKept;
      assert Now() == start by { EmptyRun(idOf, start); }
      ok := false;
      var attempt := 0;
      while attempt < ATTEMPTS && !ok
        invariant attempt <= ATTEMPTS && Valid() && start == old(start)
        invariant Now().attempt == attempt
        invariant if ok then Now().phase.Settled? && head == target && attempt < ATTEMPTS
                  else head == old(head) && Now().phase == if attempt < ATTEMPTS then Attempting else Settled
        decreases ATTEMPTS - attempt, !ok
      {
        Others();
        LinkAndSwap();
        Others();
        ok := TryMerge();
        if !ok {
          attempt := attempt + 1;
        }
      }
      Others();
      Reattach();
      NoEventIsLost(idOf, start, trace);
      EventsAreKept(idOf, start, trace);
    }
  }

  lemma Ended(a: string, b: string)
    requires StartsLine(a, b) && Terminated(b)
    ensures a + b == a || Terminated(a + b)
  {
    if b == "" {
      assert a + b == a;
    } else {
      assert (a + b)[|a + b| - 1] == b[|b| - 1];
    }
  }

  lemma EmptyRun(idOf: Ids, s: State)
    ensures Exec(idOf, s, []) == s
  {
  }

  lemma PutKeeps(s: State, version: Option<string>)
    ensures Put(s, version).copies == s.copies && Put(s, version).head == s.head && Put(s, version).target == s.target
    ensures Put(s, version).attempt == s.attempt && Put(s, version).phase == s.phase
  {
  }

  lemma AppendKeepsRest(s: State, text: string)
    ensures var after := AppendLive(s, text);
            after.copies == s.copies && after.head == s.head && after.attempt == s.attempt
  {
  }

  /** Copies have no line of their own exactly when the log has all of theirs. */
  lemma KeptIffKeys(idOf: Ids, texts: seq<string>, text: string)
    ensures AllKeys(idOf, texts) <= Keys(idOf, text) <==> AllKept(idOf, AllLines(texts), text)
  {
    hide AllLines, Lines, KeySet, Has, AllKept;
    var lines := AllLines(texts);
    if AllKeys(idOf, texts) <= Keys(idOf, text) {
      KeptByKey(idOf, lines, text);
    }
    if AllKept(idOf, lines, text) {
      forall k | k in KeySet(idOf, lines) ensures k in KeySet(idOf, Lines(text)) {
        KeyOfLine(idOf, lines, k);
        var line :| line in lines && KeyOf(idOf, line) == k;
        KeptHas(idOf, lines, text, line);
        HasIsKey(idOf, Lines(text), line);
      }
    }
  }

  lemma KeyOfLine(idOf: Ids, lines: seq<string>, k: Key)
    requires k in KeySet(idOf, lines)
    ensures exists line :: line in lines && KeyOf(idOf, line) == k
  {
  }

  lemma KeptHas(idOf: Ids, lines: seq<string>, text: string, line: string)
    requires AllKept(idOf, lines, text) && line in lines
    ensures Has(idOf, Lines(text), line)
  {
  }

  /** What the abstract run guarantees at any point. */
  lemma Reached(idOf: Ids, start: State, trace: seq<Action>)
    requires Ready(idOf, start) && OnTimeRun(idOf, start, trace)
    ensures var s := Exec(idOf, start, trace);
            Inv(idOf, s) && (s.live.Some? ==> s.live.value in s.heap)
  {
    hide Ready, Exec, OnTimeRun, Terminated, Keys, AllKeys;
    RunKeeps(idOf, start, trace);
  }
}
