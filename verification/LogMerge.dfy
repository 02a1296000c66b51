/**
 * `publisher.py`, `ff_with_memory`: advancing a branch by fast-forward while the log it changes is being appended to.
 * Files are a heap of inodes and one live path; the live inode is hard-linked, replaced by the committed version, and
 * whatever only the links hold is re-attached at the end. Writers are steps between those of the supervisor.
 */
module LogMerge {
  import opened Prelude
  import opened Blanks
  import opened LogLines

  datatype Phase =
    | Attempting
    | Linked
    | Swapped
    | Settled
    | Reading(cur: string)
    | Written
    | Cleaned

  /**
   * `live` is the inode at the log's path; `copies` the hard links made so far; `head` and `target` the log in the
   * checked-out commit and in the one to advance to; `base` what the last swap put at the path.
   */
  datatype State = State(
    heap: map<nat, string>, next: nat, live: Option<nat>, copies: seq<nat>,
    head: Option<string>, target: Option<string>, attempt: nat, phase: Phase, base: string)

  datatype Action =
    | Append(text: string)
    | LateWrite(inode: nat, text: string)
    | Link
    | Skip
    | Swap
    | Merge(ok: bool)
    | ReadLive
    | Write
    | Check

  const ATTEMPTS := 5

  function Content(s: State): string {
    if s.live.Some? && s.live.value in s.heap then s.heap[s.live.value] else ""
  }

  function Texts(heap: map<nat, string>, inodes: seq<nat>): seq<string> {
    seq(|inodes|, i requires 0 <= i < |inodes| => if inodes[i] in heap then heap[inodes[i]] else "")
  }

  function Copies(s: State): seq<string> {
    Texts(s.heap, s.copies)
  }

  function Grow(s: State, inode: nat, text: string): State
    requires inode in s.heap
  {
    s.(heap := s.heap[inode := s.heap[inode] + text])
  }

  /** The path gets a new inode. */
  function Place(s: State, text: string): State {
    s.(heap := s.heap[s.next := text], next := s.next + 1, live := Some(s.next))
  }

  /** The path gets a committed version of the log, or goes away with it. */
  function Put(s: State, version: Option<string>): State {
    match version
    case Some(text) => Place(s, text)
    case None => s.(live := None)
  }

  /** One open-and-write on the path, in append mode. */
  function AppendLive(s: State, text: string): State {
    if s.live.Some? && s.live.value in s.heap then Grow(s, s.live.value, text) else Place(s, text)
  }

  /** Git replaces the log only when the working file would lose nothing: it is absent or holds a committed version. */
  predicate CanMerge(s: State) {
    s.head == s.target || s.live.None? || Some(Content(s)) == s.head || Some(Content(s)) == s.target
  }

  function Merged(s: State): State {
    if s.head == s.target then s
    else Put(s, s.target).(head := s.target)
  }

  predicate Enabled(s: State, a: Action) {
    match a
    case Append(_) => true
    case LateWrite(inode, _) => inode in s.heap
    case Link => s.phase.Attempting? && s.live.Some?
    case Skip => s.phase.Attempting? && s.live.None?
    case Swap => s.phase.Linked?
    case Merge(ok) => s.phase.Swapped? && (ok ==> CanMerge(s))
    case ReadLive => s.phase.Settled?
    case Write => s.phase.Reading?
    case Check => s.phase.Written?
  }

  /** One step; an action that is not enabled does nothing. */
  function Next(idOf: Ids, s: State, a: Action): State {
    if !Enabled(s, a) then s
    else
      match a
      case Append(text) => AppendLive(s, text)
      case LateWrite(inode, text) => Grow(s, inode, text)
      case Link => s.(copies := s.copies + [s.live.value], phase := Linked)
      case Skip => s.(phase := Swapped, base := "")
      case Swap =>
        Put(s, s.head).(phase := Swapped, base := s.head.GetOr(""))
      case Merge(ok) =>
        if ok then Merged(s).(phase := Settled)
        else s.(attempt := s.attempt + 1, phase := if s.attempt + 1 < ATTEMPTS then Attempting else Settled)
      case ReadLive => s.(phase := Reading(Content(s)))
      case Write =>
        var addition := Addition(idOf, s.phase.cur, Copies(s));
        var after := if addition == "" then s else AppendLive(s, addition);
        after.(phase := Written)
      case Check =>
        if AllKeys(idOf, Copies(s)) <= Keys(idOf, Content(s)) then s.(copies := [], phase := Cleaned)
        else s.(phase := Cleaned)
  }

  function Exec(idOf: Ids, s: State, actions: seq<Action>): State {
    if actions == [] then s else Next(idOf, Exec(idOf, s, actions[..|actions| - 1]), actions[|actions| - 1])
  }

  /**
   * Every write starts a new line, also the supervisor's, which puts a line break first exactly when the log it has
   * read needs one. A writer that opened the log earlier writes to the live log, or to a linked inode before the
   * re-attachment.
   */
  predicate OnTime(s: State, a: Action) {
    match a
    case Append(text) => StartsLine(Content(s), text)
    case LateWrite(inode, text) =>
      && (inode in s.heap ==> StartsLine(s.heap[inode], text))
      && (Some(inode) == s.live
          || (inode in s.copies && (s.phase.Attempting? || s.phase.Linked? || s.phase.Swapped? || s.phase.Settled?)))
    case Write => s.phase.Reading? ==> Terminated(Content(s)) || NeedsBreak(s.phase.cur)
    case _ => true
  }

  predicate OnTimeRun(idOf: Ids, s: State, actions: seq<Action>) {
    actions == [] ||
    (&& OnTimeRun(idOf, s, actions[..|actions| - 1])
     && OnTime(Exec(idOf, s, actions[..|actions| - 1]), actions[|actions| - 1]))
  }

  /** Keys a step writes to the log. */
  function Wrote(idOf: Ids, s: State, a: Action): set<Key> {
    if Enabled(s, a) && (a.Append? || a.LateWrite?) then Keys(idOf, a.text) else {}
  }

  /** Every key that was in the log at the start or has been appended since. */
  function Logged(idOf: Ids, s: State, actions: seq<Action>): set<Key> {
    if actions == [] then Keys(idOf, Content(s))
    else
      var front := actions[..|actions| - 1];
      Logged(idOf, s, front) + Wrote(idOf, Exec(idOf, s, front), actions[|actions| - 1])
  }

  // ---------------------------------------------------------------- invariant

  /** Advancing drops no key of the committed log. */
  predicate HeadKept(idOf: Ids, s: State) {
    s.head.Some? ==> Keys(idOf, s.head.value) <= Keys(idOf, s.target.GetOr(""))
  }

  predicate FilesOk(s: State) {
    && (forall i <- s.heap :: i < s.next)
    && (s.live.Some? ==> s.live.value in s.heap)
    && (forall i <- s.copies :: i in s.heap)
  }

  /** What has been written at the path since the last swap. */
  function Since(s: State): string {
    if |s.base| <= |Content(s)| then Content(s)[|s.base|..] else ""
  }

  predicate PhaseOk(idOf: Ids, s: State) {
    && (s.phase.Linked? || s.live.None? || s.live.value !in s.copies)
    && match s.phase
    case Attempting => s.live.None? && s.head.Some? ==> HeadKept(idOf, s)
    case Linked => s.live.Some? && s.live.value in s.copies
    case Swapped =>
      && s.base <= Content(s) && (Terminated(s.base) || Content(s) == s.base)
      && (s.head.Some? ==> HeadKept(idOf, s) || (s.live.Some? && s.base == s.head.value))
    case Reading(cur) => cur <= Content(s) && (Terminated(cur) || Content(s) == cur)
    case Written => AllKeys(idOf, Copies(s)) <= Keys(idOf, Content(s))
    case Cleaned => s.copies == []
    case Settled => true
  }

  predicate Inv(idOf: Ids, s: State) {
    FilesOk(s) && PhaseOk(idOf, s)
  }

  /** Where a logged key is to be found in each phase. */
  predicate Safe(idOf: Ids, s: State, k: Key) {
    match s.phase
    case Linked => k in AllKeys(idOf, Copies(s))
    case Swapped => k in AllKeys(idOf, Copies(s)) || k in Keys(idOf, Since(s))
    case Written => k in Keys(idOf, Content(s))
    case Cleaned => k in Keys(idOf, Content(s))
    case _ => k in AllKeys(idOf, Copies(s)) || k in Keys(idOf, Content(s))
  }

  // ---------------------------------------------------------------- copies

  lemma {:induction false} AllKeysMembers(idOf: Ids, copies: seq<string>, k: Key)
    ensures k in AllKeys(idOf, copies) <==> exists i :: 0 <= i < |copies| && k in Keys(idOf, copies[i])
  {
    hide Lines, KeySet;
    if copies == [] {
      assert KeySet(idOf, []) == {} by { EmptyKeySet(idOf); }
    } else {
      var front, last := copies[..|copies| - 1], copies[|copies| - 1];
      AllKeysMembers(idOf, front, k);
      KeySetConcat(idOf, AllLines(front), Lines(last));
      assert forall i :: 0 <= i < |front| ==> front[i] == copies[i];
    }
  }

  lemma EmptyKeySet(idOf: Ids)
    ensures KeySet(idOf, []) == {}
  {
  }

  /** Copies that lost nothing still hold every key. */
  lemma CopiesGrow(idOf: Ids, before: seq<string>, after: seq<string>, k: Key)
    requires |before| <= |after| && k in AllKeys(idOf, before)
    requires forall i :: 0 <= i < |before| ==> Keys(idOf, before[i]) <= Keys(idOf, after[i])
    ensures k in AllKeys(idOf, after)
  {
    hide Keys, AllKeys;
    AllKeysMembers(idOf, before, k);
    AllKeysMembers(idOf, after, k);
    var i :| 0 <= i < |before| && k in Keys(idOf, before[i]);
    assert k in Keys(idOf, after[i]);
  }

  // ---------------------------------------------------------------- writers

  lemma KeysEmpty(idOf: Ids)
    ensures Keys(idOf, "") == {}
  {
    hide KeySet;
    LinesOfEmpty();
    EmptyKeySet(idOf);
  }

  lemma TerminatedSuffix(a: string, n: nat)
    requires Terminated(a) && n <= |a|
    ensures Terminated(a[n..])
  {
    hide IsBreak;
  }

  lemma GrowContent(s: State, inode: nat, text: string)
    requires FilesOk(s) && inode in s.heap
    ensures Content(Grow(s, inode, text)) == if s.live == Some(inode) then Content(s) + text else Content(s)
  {
  }

  lemma GrowCopies(idOf: Ids, s: State, inode: nat, text: string)
    requires FilesOk(s) && inode in s.heap && StartsLine(s.heap[inode], text)
    ensures forall i :: 0 <= i < |s.copies| ==> Keys(idOf, Copies(s)[i]) <= Keys(idOf, Copies(Grow(s, inode, text))[i])
    ensures inode in s.copies ==> Keys(idOf, text) <= AllKeys(idOf, Copies(Grow(s, inode, text)))
    ensures AllKeys(idOf, Copies(Grow(s, inode, text))) <= AllKeys(idOf, Copies(s)) + Keys(idOf, text)
  {
    hide Keys, AllKeys, Terminated;
    KeysAppend(idOf, s.heap[inode], text);
    var after := Copies(Grow(s, inode, text));
    forall k | k in AllKeys(idOf, after) ensures k in AllKeys(idOf, Copies(s)) + Keys(idOf, text) {
      AllKeysMembers(idOf, after, k);
      var i :| 0 <= i < |after| && k in Keys(idOf, after[i]);
      assert k in Keys(idOf, Copies(s)[i]) + Keys(idOf, text);
      AllKeysMembers(idOf, Copies(s), k);
    }
    if inode in s.copies {
      var j :| 0 <= j < |s.copies| && s.copies[j] == inode;
      assert after[j] == s.heap[inode] + text;
      forall k | k in Keys(idOf, text) ensures k in AllKeys(idOf, after) {
        AllKeysMembers(idOf, after, k);
      }
    }
  }

  lemma GrowFilesOk(s: State, inode: nat, text: string)
    requires FilesOk(s) && inode in s.heap
    ensures FilesOk(Grow(s, inode, text))
  {
  }

  lemma SinceGrows(s: State, after: State, text: string)
    requires s.base <= Content(s) && Content(after) == Content(s) + text && after.base == s.base
    ensures after.base <= Content(after) && Since(after) == Since(s) + text
  {
  }

  /** What is added to the log also starts a line of what has been written since the swap. */
  lemma LandsOnSince(s: State, text: string)
    requires s.base <= Content(s) && StartsLine(Content(s), text) && (Terminated(s.base) || Content(s) == s.base)
    ensures StartsLine(Since(s), text)
    ensures Terminated(s.base) || Content(s) + text == s.base
  {
    hide Terminated;
    if text != "" {
      TerminatedSuffix(Content(s), |s.base|);
    } else {
      assert Content(s) + text == Content(s);
    }
  }

  /** Text added to an inode keeps the invariant and every key in its place. */
  lemma GrowKeeps(idOf: Ids, s: State, inode: nat, text: string)
    requires Inv(idOf, s) && inode in s.heap && OnTime(s, LateWrite(inode, text))
    ensures Inv(idOf, Grow(s, inode, text))
    ensures forall k :: Safe(idOf, s, k) ==> Safe(idOf, Grow(s, inode, text), k)
  {
    hide Keys, AllKeys, Terminated, Since, Copies, FilesOk;
    var after := Grow(s, inode, text);
    GrowFilesOk(s, inode, text);
    GrowContent(s, inode, text);
    GrowCopies(idOf, s, inode, text);
    if s.live == Some(inode) {
      assert StartsLine(Content(s), text);
      KeysAppend(idOf, Content(s), text);
      if text == "" {
        assert Content(s) + text == Content(s);
      }
    }
    if s.phase.Swapped? && s.live == Some(inode) {
      SinceGrows(s, after, text);
      LandsOnSince(s, text);
      KeysAppend(idOf, Since(s), text);
    } else if s.phase.Swapped? {
      assert Since(after) == Since(s) by { SinceSame(s, after); }
    }
    forall k | Safe(idOf, s, k) ensures Safe(idOf, after, k) {
      if k in AllKeys(idOf, Copies(s)) {
        CopiesSize(s);
        CopiesSize(after);
        CopiesGrow(idOf, Copies(s), Copies(after), k);
      }
    }
  }

  lemma CopiesSize(s: State)
    ensures |Copies(s)| == |s.copies|
  {
  }

  lemma SinceSame(s: State, after: State)
    requires Content(s) == Content(after) && s.base == after.base
    ensures Since(s) == Since(after)
  {
  }

  lemma EmptyTerminated()
    ensures Terminated("")
  {
  }

  /** Text written in time is safe. */
  lemma GrowAdds(idOf: Ids, s: State, inode: nat, text: string, k: Key)
    requires Inv(idOf, s) && Enabled(s, LateWrite(inode, text)) && OnTime(s, LateWrite(inode, text))
    requires k in Keys(idOf, text)
    ensures Safe(idOf, Grow(s, inode, text), k)
  {
    hide Keys, AllKeys, Terminated, Since, Copies, FilesOk;
    var after := Grow(s, inode, text);
    GrowContent(s, inode, text);
    GrowCopies(idOf, s, inode, text);
    if s.live == Some(inode) {
      assert StartsLine(Content(s), text);
      KeysAppend(idOf, Content(s), text);
    }
    if s.phase.Swapped? && s.live == Some(inode) {
      SinceGrows(s, after, text);
      LandsOnSince(s, text);
      KeysAppend(idOf, Since(s), text);
    }
  }

  lemma PlaceFiles(s: State, text: string)
    requires FilesOk(s)
    ensures FilesOk(Place(s, text)) && Content(Place(s, text)) == text && Copies(Place(s, text)) == Copies(s)
    ensures s.next !in s.copies
  {
  }

  /** A writer that finds no log creates it. */
  lemma CreateKeeps(idOf: Ids, s: State, text: string)
    requires Inv(idOf, s) && s.live.None?
    ensures Inv(idOf, Place(s, text))
    ensures forall k :: Safe(idOf, s, k) || k in Keys(idOf, text) ==> Safe(idOf, Place(s, text), k)
  {
    hide Keys, AllKeys, Terminated, Copies, FilesOk;
    var after := Place(s, text);
    PlaceFiles(s, text);
    KeysEmpty(idOf);
    assert Content(s) == "" && Content(after) == text;
    if s.phase.Swapped? {
      EmptyTerminated();
      assert s.base == "" && Since(after) == text && Since(s) == "";
    }
    if s.phase.Reading? {
      EmptyTerminated();
      assert s.phase.cur == "";
    }
  }

  lemma AppendKeeps(idOf: Ids, s: State, text: string)
    requires Inv(idOf, s) && OnTime(s, Append(text))
    ensures Inv(idOf, AppendLive(s, text))
    ensures forall k :: Safe(idOf, s, k) || k in Keys(idOf, text) ==> Safe(idOf, AppendLive(s, text), k)
  {
    hide Keys, Terminated, Safe, PhaseOk;
    if s.live.Some? {
      assert OnTime(s, LateWrite(s.live.value, text));
      GrowKeeps(idOf, s, s.live.value, text);
      forall k | k in Keys(idOf, text) ensures Safe(idOf, AppendLive(s, text), k) {
        GrowAdds(idOf, s, s.live.value, text, k);
      }
    } else {
      CreateKeeps(idOf, s, text);
    }
  }

  /** A late write is safe exactly when its inode is live or linked: a key nobody else holds is lost otherwise. */
  lemma LateWriteIsSafeIff(idOf: Ids, s: State, inode: nat, text: string, k: Key)
    requires Inv(idOf, s) && Enabled(s, LateWrite(inode, text)) && k in Keys(idOf, text) && !Safe(idOf, s, k)
    requires StartsLine(s.heap[inode], text)
    requires s.phase.Attempting? || s.phase.Linked? || s.phase.Swapped? || s.phase.Settled?
    ensures Safe(idOf, Next(idOf, s, LateWrite(inode, text)), k) <==> (Some(inode) == s.live || inode in s.copies)
  {
    hide Keys, AllKeys, Terminated, Content, Since, Copies, FilesOk;
    if Some(inode) == s.live || inode in s.copies {
      GrowAdds(idOf, s, inode, text, k);
    } else {
      var after := Grow(s, inode, text);
      GrowContent(s, inode, text);
      SinceSame(s, after);
      assert Copies(after) == Copies(s) by { OtherCopies(s, inode, text); }
    }
  }

  lemma OtherCopies(s: State, inode: nat, text: string)
    requires inode in s.heap && inode !in s.copies
    ensures Copies(Grow(s, inode, text)) == Copies(s)
  {
  }

  /** After the swap no append reaches a copy. */
  lemma CopiesStay(idOf: Ids, s: State, text: string)
    requires Inv(idOf, s) && !s.phase.Linked?
    ensures Copies(AppendLive(s, text)) == Copies(s)
  {
    hide Keys, AllKeys, Terminated;
  }

  // ---------------------------------------------------------------- the supervisor

  lemma LinkKeeps(idOf: Ids, s: State)
    requires Inv(idOf, s) && Enabled(s, Link)
    ensures Inv(idOf, Next(idOf, s, Link))
    ensures forall k :: Safe(idOf, s, k) ==> Safe(idOf, Next(idOf, s, Link), k)
  {
    hide Keys, AllKeys, Terminated;
    var after := Next(idOf, s, Link);
    assert Copies(after) == Copies(s) + [Content(s)];
    forall k | Safe(idOf, s, k) ensures Safe(idOf, after, k) {
      if k in AllKeys(idOf, Copies(s)) {
        CopiesGrow(idOf, Copies(s), Copies(after), k);
      } else {
        assert k in Keys(idOf, Copies(after)[|s.copies|]);
        AllKeysMembers(idOf, Copies(after), k);
      }
    }
  }

  lemma SwapKeeps(idOf: Ids, s: State)
    requires Inv(idOf, s) && (Enabled(s, Swap) || Enabled(s, Skip))
    ensures Enabled(s, Swap) ==> Inv(idOf, Next(idOf, s, Swap))
    ensures Enabled(s, Swap) ==> forall k :: Safe(idOf, s, k) ==> Safe(idOf, Next(idOf, s, Swap), k)
    ensures Enabled(s, Skip) ==> Inv(idOf, Next(idOf, s, Skip))
    ensures Enabled(s, Skip) ==> forall k :: Safe(idOf, s, k) ==> Safe(idOf, Next(idOf, s, Skip), k)
  {
    hide Keys, AllKeys, Terminated;
    KeysEmpty(idOf);
    EmptyTerminated();
    if s.head.Some? {
      PlaceFiles(s, s.head.value);
    }
  }

  /** A fast-forward that git accepts replaces only text the supervisor put there. */
  lemma MergeKeeps(idOf: Ids, s: State, ok: bool)
    requires Inv(idOf, s) && Enabled(s, Merge(ok))
    ensures Inv(idOf, Next(idOf, s, Merge(ok)))
    ensures forall k :: Safe(idOf, s, k) ==> Safe(idOf, Next(idOf, s, Merge(ok)), k)
  {
    hide Keys, AllKeys, Terminated, FilesOk, Copies;
    SinceKeys(idOf, s);
    var after := Next(idOf, s, Merge(ok));
    if ok && s.head != s.target {
      MergedFiles(s);
      KeysEmpty(idOf);
      if s.live.None? {
        assert Content(s) == "";
      } else if Some(Content(s)) == s.head && !HeadKept(idOf, s) {
        assert Since(s) == "";
      }
    } else {
      assert FilesOk(after) && Copies(after) == Copies(s) by { SameFiles(s, after); }
      assert Content(after) == Content(s);
    }
  }

  lemma MergedFiles(s: State)
    requires FilesOk(s) && s.head != s.target
    ensures var after := Merged(s).(phase := Settled);
            && FilesOk(after) && Copies(after) == Copies(s) && Content(after) == s.target.GetOr("")
            && (after.live.None? || after.live.value !in s.copies)
  {
    hide Terminated;
  }

  lemma SameFiles(s: State, after: State)
    requires FilesOk(s) && after.heap == s.heap && after.next == s.next && after.live == s.live
    requires after.copies == s.copies && after.head == s.head && after.target == s.target
    ensures FilesOk(after) && Copies(after) == Copies(s)
  {
  }

  lemma SinceKeys(idOf: Ids, s: State)
    requires Inv(idOf, s) && s.phase.Swapped?
    ensures Keys(idOf, Content(s)) == Keys(idOf, s.base) + Keys(idOf, Since(s))
  {
    hide Keys, Terminated;
    assert s.base + Since(s) == Content(s);
    KeysAppend(idOf, s.base, Since(s));
  }

  lemma ReadKeeps(idOf: Ids, s: State)
    requires Inv(idOf, s) && Enabled(s, ReadLive)
    ensures Inv(idOf, Next(idOf, s, ReadLive))
    ensures forall k :: Safe(idOf, s, k) ==> Safe(idOf, Next(idOf, s, ReadLive), k)
  {
    hide Keys, AllKeys, Terminated, FilesOk, Copies;
    SameFiles(s, Next(idOf, s, ReadLive));
  }

  /** The re-attachment brings every key of the copies to the live log, whoever appended since it was read. */
  lemma AdditionKeys(idOf: Ids, cur: string, copies: seq<string>, live: string)
    requires cur <= live && (Terminated(cur) || live == cur) && (Terminated(live) || NeedsBreak(cur))
    ensures Keys(idOf, live + Addition(idOf, cur, copies)) >= Keys(idOf, live) + AllKeys(idOf, copies)
  {
    hide Lines, Missing, AllLines, KeySet, Terminated;
    var add := Missing(idOf, Keys(idOf, cur), AllLines(copies));
    AdditionLines(idOf, cur, copies, live);
    MissingCovers(idOf, Keys(idOf, cur), AllLines(copies));
    KeySetConcat(idOf, Lines(live), add);
    assert live == cur + live[|cur|..];
    KeysAppend(idOf, cur, live[|cur|..]);
  }

  lemma WriteKeeps(idOf: Ids, s: State)
    requires Inv(idOf, s) && Enabled(s, Write) && OnTime(s, Write)
    ensures Inv(idOf, Next(idOf, s, Write))
    ensures forall k :: Safe(idOf, s, k) ==> Safe(idOf, Next(idOf, s, Write), k)
  {
    hide Keys, AllKeys, Terminated, Copies, Addition, FilesOk;
    var addition := Addition(idOf, s.phase.cur, Copies(s));
    AdditionKeys(idOf, s.phase.cur, Copies(s), Content(s));
    assert Content(s) + "" == Content(s);
    var after := Next(idOf, s, Write);
    AppendLiveContent(s, addition);
    assert Content(after) == Content(s) + addition && FilesOk(after);
    CopiesStay(idOf, s, addition);
    assert Copies(after) == Copies(s) by { SamePhaseCopies(s); SamePhaseCopies(AppendLive(s, addition)); }
  }

  lemma SamePhaseCopies(s: State)
    ensures forall phase :: Copies(s.(phase := phase)) == Copies(s)
  {
  }

  lemma AppendLiveContent(s: State, text: string)
    requires FilesOk(s)
    ensures forall phase :: Content(AppendLive(s, text).(phase := phase)) == Content(s) + text
    ensures forall phase :: FilesOk(AppendLive(s, text).(phase := phase))
    ensures AppendLive(s, text).live == s.live || AppendLive(s, text).live.value !in s.copies
    ensures forall phase :: FilesOk(s.(phase := phase)) && Content(s.(phase := phase)) == Content(s)
  {
    hide Terminated;
    if s.live.Some? {
      GrowFilesOk(s, s.live.value, text);
    } else {
      PlaceFiles(s, text);
    }
  }

  lemma Dropped(s: State)
    requires FilesOk(s)
    ensures FilesOk(s.(copies := [], phase := Cleaned)) && FilesOk(s.(phase := Cleaned))
  {
    hide Terminated;
  }

  lemma CheckKeeps(idOf: Ids, s: State)
    requires Inv(idOf, s) && Enabled(s, Check)
    ensures Inv(idOf, Next(idOf, s, Check))
    ensures forall k :: Safe(idOf, s, k) ==> Safe(idOf, Next(idOf, s, Check), k)
  {
    hide Keys, AllKeys, FilesOk, Copies;
    Dropped(s);
  }

  // ---------------------------------------------------------------- runs

  /** Every step on time keeps the invariant, every safe key safe, and makes what it writes safe. */
  lemma NextKeeps(idOf: Ids, s: State, a: Action)
    requires Inv(idOf, s) && OnTime(s, a)
    ensures Inv(idOf, Next(idOf, s, a))
    ensures forall k :: Safe(idOf, s, k) || k in Wrote(idOf, s, a) ==> Safe(idOf, Next(idOf, s, a), k)
  {
    hide Inv, Safe, Keys, Terminated;
    if Enabled(s, a) {
      match a
      case Append(text) => AppendKeeps(idOf, s, text);
      case LateWrite(inode, text) =>
        GrowKeeps(idOf, s, inode, text);
        forall k | k in Keys(idOf, text) ensures Safe(idOf, Grow(s, inode, text), k) {
          GrowAdds(idOf, s, inode, text, k);
        }
      case Link => LinkKeeps(idOf, s);
      case Skip => SwapKeeps(idOf, s);
      case Swap => SwapKeeps(idOf, s);
      case Merge(ok) => MergeKeeps(idOf, s, ok);
      case ReadLive => ReadKeeps(idOf, s);
      case Write => WriteKeeps(idOf, s);
      case Check => CheckKeeps(idOf, s);
    }
  }

  /** A merge about to start: no copies yet. */
  predicate Begins(s: State) {
    FilesOk(s) && s.phase.Attempting? && s.attempt == 0 && s.copies == []
  }

  /** A log missing on disk is not rewritten by the commit: what a caller can check before the merge. */
  predicate Guarded(idOf: Ids, s: State) {
    s.live.None? && s.head.Some? ==> HeadKept(idOf, s)
  }

  predicate Ready(idOf: Ids, s: State) {
    Begins(s) && Guarded(idOf, s)
  }

  lemma {:induction false} RunKeeps(idOf: Ids, s: State, actions: seq<Action>)
    requires Ready(idOf, s) && OnTimeRun(idOf, s, actions)
    ensures Inv(idOf, Exec(idOf, s, actions))
    ensures forall k :: k in Logged(idOf, s, actions) ==> Safe(idOf, Exec(idOf, s, actions), k)
    decreases |actions|
  {
    hide Keys, AllKeys, FilesOk, HeadKept, Content, OnTime;
    if actions != [] {
      hide Safe, Inv, Next, Wrote;
      var front := actions[..|actions| - 1];
      RunKeeps(idOf, s, front);
      NextKeeps(idOf, Exec(idOf, s, front), actions[|actions| - 1]);
    }
  }

  /**
   * No event is lost: whatever writers interleave, and whether git accepts an attempt or all five fail, every key
   * logged so far is in a copy or in the live log; once the re-attachment is done, all are in the live log, and the
   * copies are gone.
   */
  lemma NoEventIsLost(idOf: Ids, s: State, actions: seq<Action>)
    requires Ready(idOf, s) && OnTimeRun(idOf, s, actions)
    ensures var after, logged := Exec(idOf, s, actions), Logged(idOf, s, actions);
            && logged <= Keys(idOf, Content(after)) + AllKeys(idOf, Copies(after))
            && (after.phase.Written? || after.phase.Cleaned? ==> logged <= Keys(idOf, Content(after)))
            && (after.phase.Cleaned? ==> after.copies == [])
  {
    hide Keys, AllKeys, FilesOk, Exec, Logged, OnTimeRun, Ready;
    RunKeeps(idOf, s, actions);
    var after := Exec(idOf, s, actions);
    if after.phase.Swapped? {
      SinceKeys(idOf, after);
    }
  }

  /** Every line that was in the log at the start or has been written to it since, by whoever. */
  function LoggedLines(idOf: Ids, s: State, actions: seq<Action>): seq<string> {
    if actions == [] then Lines(Content(s))
    else
      var front, a := actions[..|actions| - 1], actions[|actions| - 1];
      LoggedLines(idOf, s, front)
      + (if Enabled(Exec(idOf, s, front), a) && (a.Append? || a.LateWrite?) then Lines(a.text) else [])
  }

  lemma {:induction false} LoggedIsKeys(idOf: Ids, s: State, actions: seq<Action>)
    ensures Logged(idOf, s, actions) == KeySet(idOf, LoggedLines(idOf, s, actions))
    decreases |actions|
  {
    hide Exec, KeySet, Lines, Content, Enabled;
    if actions != [] {
      var front, a := actions[..|actions| - 1], actions[|actions| - 1];
      LoggedIsKeys(idOf, s, front);
      EmptyKeySet(idOf);
      var more := if Enabled(Exec(idOf, s, front), a) && (a.Append? || a.LateWrite?) then Lines(a.text) else [];
      KeySetConcat(idOf, LoggedLines(idOf, s, front), more);
    }
  }

  /** Each of these lines is in the log: by its id, or word for word if it has none. */
  predicate AllKept(idOf: Ids, lines: seq<string>, text: string) {
    forall line <- lines ::
      match idOf(line)
      case Some(id) => exists kept <- Lines(text) :: idOf(kept) == Some(id)
      case None => line in Lines(text)
  }

  lemma KeptByKey(idOf: Ids, lines: seq<string>, text: string)
    requires KeySet(idOf, lines) <= Keys(idOf, text)
    ensures AllKept(idOf, lines, text)
  {
    hide Lines, KeySet, Has;
    forall line | line in lines ensures Has(idOf, Lines(text), line) {
      KeyIsIn(idOf, lines, line);
      HasIsKey(idOf, Lines(text), line);
    }
    assert forall line <- lines :: exists kept <- Lines(text) :: SameEvent(idOf, line, kept) by {
      forall line | line in lines ensures exists kept <- Lines(text) :: SameEvent(idOf, line, kept) {
        HasOne(idOf, Lines(text), line);
      }
    }
  }

  lemma HasOne(idOf: Ids, lines: seq<string>, line: string)
    requires Has(idOf, lines, line)
    ensures exists l <- lines :: SameEvent(idOf, line, l)
  {
  }

  /**
   * The same of the events themselves: once the re-attachment has written, for every line that was in the log or has
   * been written to it, the log has a line with its id; a line without an id is there as it was.
   */
  lemma EventsAreKept(idOf: Ids, s: State, actions: seq<Action>)
    requires Ready(idOf, s) && OnTimeRun(idOf, s, actions)
    requires Exec(idOf, s, actions).phase.Written? || Exec(idOf, s, actions).phase.Cleaned?
    ensures AllKept(idOf, LoggedLines(idOf, s, actions), Content(Exec(idOf, s, actions)))
  {
    hide Keys, FilesOk, Exec, Logged, OnTimeRun, Ready, AllKept;
    NoEventIsLost(idOf, s, actions);
    LoggedIsKeys(idOf, s, actions);
    KeptByKey(idOf, LoggedLines(idOf, s, actions), Content(Exec(idOf, s, actions)));
  }

  // ---------------------------------------------------------------- what the conditions are for

  /** The run keeps what has been logged, once the re-attachment has written. */
  predicate Keeps(idOf: Ids, s: State, actions: seq<Action>) {
    var after := Exec(idOf, s, actions);
    after.phase.Written? || after.phase.Cleaned? ==> Logged(idOf, s, actions) <= Keys(idOf, Content(after))
  }

  /**
   * Exactly when events can be lost: a log that is missing on disk is not linked, so that a writer that recreates
   * exactly its committed version loses the lines the commit drops.
   */
  lemma NoEventIsLostIff(idOf: Ids, s: State)
    requires Begins(s)
    ensures Guarded(idOf, s) <==> forall actions :: OnTimeRun(idOf, s, actions) ==> Keeps(idOf, s, actions)
  {
    hide Keys, AllKeys, FilesOk, Exec, Logged, OnTimeRun, HeadKept;
    if Guarded(idOf, s) {
      forall actions | OnTimeRun(idOf, s, actions) ensures Keeps(idOf, s, actions) {
        NoEventIsLost(idOf, s, actions);
      }
    } else {
      RecreatedIsLost(idOf, s);
    }
  }

  /** A writer recreates the committed version, git accepts it, and there is no copy to re-attach. */
  function Recreating(text: string): seq<Action> {
    [Skip] + [Append(text)] + [Merge(true)] + [ReadLive] + [Write]
  }

  /** The state after the writer's turn, and after git's. */
  function Recreated(s: State): State
    requires s.head.Some?
  {
    Place(s.(phase := Swapped, base := ""), s.head.value)
  }

  function Advanced(s: State, phase: Phase): State
    requires s.head.Some?
  {
    Put(Recreated(s), s.target).(head := s.target, phase := phase)
  }

  lemma RecreatingSteps(idOf: Ids, s: State)
    requires Begins(s) && s.live.None? && s.head.Some? && s.head != s.target
    ensures var text := s.head.value;
            && Next(idOf, s, Skip) == s.(phase := Swapped, base := "")
            && Next(idOf, s.(phase := Swapped, base := ""), Append(text)) == Recreated(s)
            && Next(idOf, Recreated(s), Merge(true)) == Advanced(s, Settled)
            && Content(Advanced(s, Written)) == s.target.GetOr("")
  {
    hide Terminated;
  }

  lemma AdvancedSteps(idOf: Ids, s: State)
    requires Begins(s) && s.live.None? && s.head.Some?
    ensures var cur := Content(Advanced(s, Settled));
            && Next(idOf, Advanced(s, Settled), ReadLive) == Advanced(s, Reading(cur))
            && Next(idOf, Advanced(s, Reading(cur)), Write) == Advanced(s, Written)
  {
    hide Keys, AllKeys, Addition, Terminated;
    var cur := Content(Advanced(s, Settled));
    NothingToAdd(idOf, cur);
    assert Copies(Advanced(s, Reading(cur))) == [];
  }

  lemma RecreatedIsLost(idOf: Ids, s: State)
    requires Begins(s) && !Guarded(idOf, s)
    ensures OnTimeRun(idOf, s, Recreating(s.head.value)) && !Keeps(idOf, s, Recreating(s.head.value))
  {
    hide Keys, Next, Recreated, Advanced, Begins, Place, Content, OnTime;
    var text := s.head.value;
    assert s.head != s.target;
    RecreatingSteps(idOf, s);
    AdvancedSteps(idOf, s);
    var s1, cur := s.(phase := Swapped, base := ""), Content(Advanced(s, Settled));
    assert [] + [Skip] == [Skip];
    RecreatingIsOnTime(s);
    RunOf(idOf, s, [], Skip, s, s1);
    var a2, a3 := [Skip] + [Append(text)], [Skip] + [Append(text)] + [Merge(true)];
    RunOf(idOf, s, [Skip], Append(text), s1, Recreated(s));
    RunOf(idOf, s, a2, Merge(true), Recreated(s), Advanced(s, Settled));
    RunOf(idOf, s, a3, ReadLive, Advanced(s, Settled), Advanced(s, Reading(cur)));
    RunOf(idOf, s, a3 + [ReadLive], Write, Advanced(s, Reading(cur)), Advanced(s, Written));
    assert Wrote(idOf, s1, Append(text)) == Keys(idOf, text);
    AdvancedIsWritten(s);
  }

  lemma RecreatingIsOnTime(s: State)
    requires Begins(s) && s.live.None? && s.head.Some?
    ensures OnTime(s.(phase := Swapped, base := ""), Append(s.head.value))
    ensures OnTime(Advanced(s, Reading(Content(Advanced(s, Settled)))), Write)
    ensures forall u: State :: OnTime(u, Skip) && OnTime(u, Merge(true)) && OnTime(u, ReadLive)
  {
    EmptyTerminated();
  }

  lemma AdvancedIsWritten(s: State)
    requires s.head.Some?
    ensures Advanced(s, Written).phase == Written
  {
  }

  /** A run, one step longer. */
  lemma RunOf(idOf: Ids, s: State, front: seq<Action>, a: Action, before: State, after: State)
    requires Exec(idOf, s, front) == before && Next(idOf, before, a) == after
    requires OnTimeRun(idOf, s, front) && OnTime(before, a)
    ensures Exec(idOf, s, front + [a]) == after && OnTimeRun(idOf, s, front + [a])
    ensures Logged(idOf, s, front + [a]) == Logged(idOf, s, front) + Wrote(idOf, before, a)
  {
    hide Next, OnTime, Keys, Wrote;
    assert (front + [a])[..|front|] == front;
  }

  lemma NothingToAdd(idOf: Ids, cur: string)
    ensures Addition(idOf, cur, []) == ""
  {
    hide Keys;
    assert AllLines([]) == [];
  }

  // ---------------------------------------------------------------- unfinished lines

  /** An append to the live log adds exactly its lines if and only if it starts a line there. */
  lemma AppendIsOnTimeIff(s: State, text: string)
    requires FilesOk(s) && s.live.Some? && !Blank(Split(text)[0])
    ensures Lines(Content(AppendLive(s, text))) == Lines(Content(s)) + Lines(text) <==> OnTime(s, Append(text))
  {
    hide Lines, Blank, Terminated;
    GrowContent(s, s.live.value, text);
    AppendNeedsLineEnd(Content(s), text);
    assert text != "" by { BlankStart(text); }
  }

  /** The write of the re-attachment adds exactly the missing lines if and only if there are none or it is on time. */
  lemma WriteIsOnTimeIff(idOf: Ids, s: State)
    requires FilesOk(s) && s.phase.Reading?
    ensures var add := Missing(idOf, Keys(idOf, s.phase.cur), AllLines(Copies(s)));
            Lines(Content(Next(idOf, s, Write))) == Lines(Content(s)) + add <==> add == [] || OnTime(s, Write)
  {
    hide Lines, Terminated, Missing, Keys, AllLines, Copies, NeedsBreak, FilesOk, Join;
    var addition := Addition(idOf, s.phase.cur, Copies(s));
    AdditionLinesIff(idOf, s.phase.cur, Copies(s), Content(s));
    AppendLiveContent(s, addition);
    assert Content(s) + "" == Content(s);
    if Missing(idOf, Keys(idOf, s.phase.cur), AllLines(Copies(s))) != [] {
      JoinEnds(Missing(idOf, Keys(idOf, s.phase.cur), AllLines(Copies(s))));
    }
  }

  lemma BlankStart(text: string)
    requires !Blank(Split(text)[0])
    ensures text != ""
  {
  }

  /** A log whose only line is unfinished. */
  const UNFINISHED := State(map[0 := "a"], 1, Some(0), [], None, None, 0, Attempting, "")
  const GLUED := State(map[0 := "ab\n"], 1, Some(0), [], None, None, 0, Attempting, "")

  /** An event is appended to the unfinished line, and the merge goes on as usual. */
  const GLUING: seq<Action> := [Append("b\n")] + [Link] + [Swap] + [Merge(true)] + [ReadLive] + [Write]

  lemma GluingSteps(idOf: Ids)
    ensures Next(idOf, UNFINISHED, Append("b\n")) == GLUED
    ensures var linked := GLUED.(copies := [0], phase := Linked);
            var swapped := linked.(live := None, phase := Swapped);
            && Next(idOf, GLUED, Link) == linked && Next(idOf, linked, Swap) == swapped
            && Next(idOf, swapped, Merge(true)) == swapped.(phase := Settled)
            && Next(idOf, swapped.(phase := Settled), ReadLive) == swapped.(phase := Reading(""))
  {
    hide Addition;
    assert "a" + "b\n" == "ab\n";
    assert [] + [0] == [0];
  }

  lemma GluedLines()
    ensures Lines("ab\n") == ["ab"] && Lines("b\n") == ["b"]
  {
    hide Lines;
    assert !IsSpace('a') && !IsSpace('b');
    assert "ab" + "\n" == "ab\n" && "b" + "\n" == "b\n";
    assert !IsSpace("ab"[0]) && !IsSpace("b"[0]);
    EventIsOneLine("ab");
    EventIsOneLine("b");
  }

  lemma GluedWrite(idOf: Ids)
    requires idOf("ab") == None
    ensures var after := Next(idOf, GLUED.(copies := [0], live := None, phase := Reading("")), Write);
            after.phase == Written && Keys(idOf, Content(after)) == {Text("ab")}
  {
    hide Lines, Missing, Join;
    var s := GLUED.(copies := [0], live := None, phase := Reading(""));
    GluedLines();
    KeysEmpty(idOf);
    assert Copies(s) == ["ab\n"];
    AllLinesOne("ab\n");
    EmptyTerminated();
    MissingOne(idOf, "ab");
    AdditionLines(idOf, "", Copies(s), "");
    LinesOfEmpty();
    var addition := Addition(idOf, "", Copies(s));
    assert "" + addition == addition && [] + ["ab"] == ["ab"];
    assert Lines(addition) == ["ab"];
    assert "ab" in ["ab"] && KeyOf(idOf, "ab") == Text("ab");
    assert KeySet(idOf, ["ab"]) == {Text("ab")};
    assert addition != "";
  }

  lemma MissingOne(idOf: Ids, a: string)
    ensures Missing(idOf, {}, [a]) == [a]
  {
    hide KeyOf;
    assert [a][..0] == [] && Missing(idOf, {}, []) == [];
  }

  /** A run, one step longer, on time or not. */
  lemma Longer(idOf: Ids, s: State, front: seq<Action>, a: Action, before: State, after: State)
    requires Exec(idOf, s, front) == before && Next(idOf, before, a) == after
    ensures Exec(idOf, s, front + [a]) == after
    ensures Logged(idOf, s, front + [a]) == Logged(idOf, s, front) + Wrote(idOf, before, a)
  {
    hide Next, Keys, Wrote;
    assert (front + [a])[..|front|] == front;
  }

  /** What the hypothesis is for: an event appended to an unfinished line is not in the log once the merge is done. */
  lemma UnfinishedLineLosesEvent(idOf: Ids)
    requires idOf("ab") == None && idOf("b") == None
    ensures Ready(idOf, UNFINISHED) && !OnTimeRun(idOf, UNFINISHED, GLUING) && !Keeps(idOf, UNFINISHED, GLUING)
  {
    hide Next, Keys, Wrote, UNFINISHED, GLUED, Lines;
    assert Ready(idOf, UNFINISHED) by { UnfinishedIsReady(idOf); }
    GluingSteps(idOf);
    GluedWrite(idOf);
    GluedLines();
    var s, linked := UNFINISHED, GLUED.(copies := [0], phase := Linked);
    var swapped := linked.(live := None, phase := Swapped);
    var reading := swapped.(phase := Reading(""));
    assert reading == GLUED.(copies := [0], live := None, phase := Reading(""));
    var a1 := [Append("b\n")];
    assert [] + a1 == a1;
    Longer(idOf, s, [], Append("b\n"), s, GLUED);
    assert Text("b") in Wrote(idOf, s, Append("b\n")) by { WroteB(idOf); }
    Longer(idOf, s, a1, Link, GLUED, linked);
    var a3 := a1 + [Link] + [Swap];
    Longer(idOf, s, a1 + [Link], Swap, linked, swapped);
    Longer(idOf, s, a3, Merge(true), swapped, swapped.(phase := Settled));
    var a5 := a3 + [Merge(true)] + [ReadLive];
    Longer(idOf, s, a3 + [Merge(true)], ReadLive, swapped.(phase := Settled), reading);
    Longer(idOf, s, a5, Write, reading, Next(idOf, reading, Write));
    assert GLUING == a5 + [Write];
    if OnTimeRun(idOf, s, GLUING) {
      NoEventIsLost(idOf, s, GLUING);
    }
  }

  lemma UnfinishedIsReady(idOf: Ids)
    ensures Ready(idOf, UNFINISHED)
  {
  }

  lemma WroteB(idOf: Ids)
    requires idOf("b") == None
    ensures Text("b") in Wrote(idOf, UNFINISHED, Append("b\n"))
  {
    hide Lines;
    GluedLines();
    assert KeyOf(idOf, "b") in KeySet(idOf, ["b"]);
  }

  /** A log with one event. */
  const ONE_EVENT := State(map[0 := "a\n"], 1, Some(0), [], None, None, 0, Attempting, "")

  /** The merge goes on as usual until the new log has been read empty; then a writer leaves an unfinished line. */
  const TRAILING: seq<Action> := [Link] + [Swap] + [Merge(true)] + [ReadLive] + [Append("x")]
  const READ_EMPTY := State(map[0 := "a\n"], 1, None, [0], None, None, 0, Reading(""), "")
  const TRAILED := State(map[0 := "a\n", 1 := "x"], 2, Some(1), [0], None, None, 0, Reading(""), "")

  lemma TrailingSteps(idOf: Ids)
    ensures var linked := ONE_EVENT.(copies := [0], phase := Linked);
            var swapped := linked.(live := None, phase := Swapped);
            && Next(idOf, ONE_EVENT, Link) == linked && Next(idOf, linked, Swap) == swapped
            && Next(idOf, swapped, Merge(true)) == swapped.(phase := Settled)
            && Next(idOf, swapped.(phase := Settled), ReadLive) == READ_EMPTY
            && Next(idOf, READ_EMPTY, Append("x")) == TRAILED
  {
    hide Addition;
    assert [] + [0] == [0];
  }

  lemma TrailingIsOnTime()
    ensures forall u: State :: OnTime(u, Link) && OnTime(u, Swap) && OnTime(u, Merge(true)) && OnTime(u, ReadLive)
    ensures OnTime(READ_EMPTY, Append("x")) && !OnTime(TRAILED, Write)
  {
    assert Content(TRAILED) == "x" && "x"[|"x"| - 1] == 'x';
  }

  lemma TrailedRun(idOf: Ids)
    ensures Exec(idOf, ONE_EVENT, TRAILING) == TRAILED && OnTimeRun(idOf, ONE_EVENT, TRAILING)
    ensures Keys(idOf, "a\n") <= Logged(idOf, ONE_EVENT, TRAILING)
  {
    hide Next, OnTime, Keys, Wrote, ONE_EVENT, READ_EMPTY, TRAILED;
    TrailingSteps(idOf);
    TrailingIsOnTime();
    OneEventText();
    var s := ONE_EVENT;
    var linked := s.(copies := [0], phase := Linked);
    var swapped := linked.(live := None, phase := Swapped);
    assert [] + [Link] == [Link];
    RunOf(idOf, s, [], Link, s, linked);
    RunOf(idOf, s, [Link], Swap, linked, swapped);
    var a2 := [Link] + [Swap];
    RunOf(idOf, s, a2, Merge(true), swapped, swapped.(phase := Settled));
    RunOf(idOf, s, a2 + [Merge(true)], ReadLive, swapped.(phase := Settled), READ_EMPTY);
    RunOf(idOf, s, a2 + [Merge(true)] + [ReadLive], Append("x"), READ_EMPTY, TRAILED);
  }

  lemma OneEventText()
    ensures Content(ONE_EVENT) == "a\n"
  {
  }

  lemma TrailedLines()
    ensures Lines("xa\n") == ["xa"] && Lines("a\n") == ["a"]
  {
    hide Lines;
    assert !IsSpace('a') && !IsSpace('x');
    assert "xa" + "\n" == "xa\n" && "a" + "\n" == "a\n";
    assert !IsSpace("xa"[0]) && !IsSpace("a"[0]);
    EventIsOneLine("xa");
    EventIsOneLine("a");
  }

  lemma TrailedWrite(idOf: Ids)
    requires idOf("xa") == None
    ensures var after := Next(idOf, TRAILED, Write);
            after.phase == Written && Keys(idOf, Content(after)) == {Text("xa")}
  {
    hide Lines, Missing, Join;
    TrailedLines();
    KeysEmpty(idOf);
    assert Copies(TRAILED) == ["a\n"];
    AllLinesOne("a\n");
    MissingOne(idOf, "a");
    JoinOne("a");
    assert Addition(idOf, "", Copies(TRAILED)) == "a\n" && "x" + "a\n" == "xa\n";
    assert "xa" in ["xa"] && KeyOf(idOf, "xa") == Text("xa");
    assert KeySet(idOf, ["xa"]) == {Text("xa")};
  }

  lemma JoinOne(line: string)
    ensures Join([line]) == line + "\n"
  {
    assert [line][..0] == [] && "" + line + "\n" == line + "\n";
  }

  /**
   * What the hypothesis on the supervisor's own write is for: all writes before it start a line, but it is glued to one
   * that was left unfinished after the log had been read, and the event it was to bring back is in no line.
   */
  lemma UnfinishedWriteLosesEvent(idOf: Ids)
    requires idOf("xa") == None && idOf("a") == None
    ensures Ready(idOf, ONE_EVENT) && OnTimeRun(idOf, ONE_EVENT, TRAILING)
    ensures !OnTime(Exec(idOf, ONE_EVENT, TRAILING), Write) && !Keeps(idOf, ONE_EVENT, TRAILING + [Write])
  {
    hide Next, OnTime, Keys, Wrote, ONE_EVENT, TRAILED, Lines, TRAILING;
    assert Ready(idOf, ONE_EVENT) by { OneEventIsReady(idOf); }
    TrailedRun(idOf);
    TrailingSteps(idOf);
    TrailingIsOnTime();
    TrailedWrite(idOf);
    Longer(idOf, ONE_EVENT, TRAILING, Write, TRAILED, Next(idOf, TRAILED, Write));
    assert Text("a") in Keys(idOf, "a\n") by { KeyOfA(idOf); }
  }

  lemma OneEventIsReady(idOf: Ids)
    ensures Ready(idOf, ONE_EVENT)
  {
  }

  lemma KeyOfA(idOf: Ids)
    requires idOf("a") == None
    ensures Text("a") in Keys(idOf, "a\n")
  {
    hide Lines;
    TrailedLines();
    assert KeyOf(idOf, "a") in KeySet(idOf, ["a"]);
  }

  /**
   * An event whose text holds another line separator does not survive re-attachment as one line: its pieces are
   * added separately.
   */
  lemma SeparatorBreaksEvent(idOf: Ids)
    requires idOf("a") == None && idOf("b") == None
    ensures Addition(idOf, "", ["a\U{2028}b\n"]) == "a\nb\n"
    ensures KeyOf(idOf, "a\U{2028}b").Id? ==> KeyOf(idOf, "a\U{2028}b") !in Keys(idOf, "a\nb\n")
  {
    hide Split, NonBlank, Missing, Join, AllLines;
    LinesOfBroken();
    KeysEmpty(idOf);
    AllLinesOne("a\U{2028}b\n");
    MissingTwo(idOf, "a", "b");
    JoinTwo("a", "b");
    assert KeySet(idOf, ["a", "b"]) == {Text("a"), Text("b")};
  }

  lemma LinesOfBroken()
    ensures Lines("a\U{2028}b\n") == ["a", "b"] && Lines("a\nb\n") == ["a", "b"]
  {
    hide Blank, IsSpace, Split, NonBlank;
    assert Unbroken("a") && !Blank("a") && Unbroken("b") && !Blank("b") by { LettersAreLines(); }
    EventIsOneLine("a");
    EventIsOneLine("b");
    LinesOfEnded("a");
    LinesOfEnded("b");
    assert "a" + "\n" == "a\n" && "b" + "\n" == "b\n";
    LinesAppend("a\n", "b\n");
    assert "a\n" + "b\n" == "a\nb\n";
    LinesAppend("a\U{2028}", "b\n");
    assert "a\U{2028}" + "b\n" == "a\U{2028}b\n";
    assert Lines("a\U{2028}") == ["a"] by {
      LinesOfBreakEnded("a", '\U{2028}');
      assert "a" + ['\U{2028}'] == "a\U{2028}";
    }
  }

  lemma LettersAreLines()
    ensures Unbroken("a") && !Blank("a") && Unbroken("b") && !Blank("b")
  {
    assert !IsSpace("a"[0]) && !IsSpace("b"[0]);
  }

  lemma LinesOfBreakEnded(line: string, c: char)
    requires IsBreak(c)
    ensures Lines(line + [c]) == Lines(line)
  {
    hide NonBlank, Blank, IsSpace, IsBreak;
    var whole := line + [c];
    assert whole[..|whole| - 1] == line;
    assert Split(whole) == Split(line) + [""];
    NonBlankConcat(Split(line), [""]);
    EmptyIsBlank();
  }

  lemma AllLinesOne(text: string)
    ensures AllLines([text]) == Lines(text)
  {
    hide Lines;
    assert [text][..0] == [] && AllLines([]) == [];
  }

  lemma MissingTwo(idOf: Ids, a: string, b: string)
    requires KeyOf(idOf, a) != KeyOf(idOf, b)
    ensures Missing(idOf, {}, [a, b]) == [a, b]
  {
    hide KeyOf;
    assert [a, b][..1] == [a] && [a][..0] == [];
    assert Missing(idOf, {}, []) == [];
    assert Missing(idOf, {}, [a]) == [a];
  }

  lemma JoinTwo(a: string, b: string)
    ensures Join([a, b]) == a + "\n" + b + "\n"
  {
    assert [a, b][..1] == [a] && [a][..0] == [];
    assert Join([]) == "" && Join([a]) == a + "\n";
  }
}
