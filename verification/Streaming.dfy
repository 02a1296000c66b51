/**
 * `conversa.py` and `server.py`: what of a reply may be shown while it streams, the deltas a turn emits, and a client
 * that connects at any moment. Action blocks open with one of two marks and are never shown.
 */
module Streaming {
  import opened Prelude

  const MARK := "```destravar"
  const MARK_DELEGAR := "```delegar"

  // ---------------------------------------------------------------- the part that may be shown

  /** One of the marks is at position `i`. */
  predicate MarkAt(raw: string, i: nat) {
    i <= |raw| && (MARK <= raw[i..] || MARK_DELEGAR <= raw[i..])
  }

  /** The position of the first mark from `i` on. */
  function FirstMark(raw: string, i: nat): (found: Option<nat>)
    requires i <= |raw|
    ensures found.Some? ==> i <= found.value && MarkAt(raw, found.value)
    ensures forall j :: i <= j < (if found.Some? then found.value else |raw| + 1) ==> !MarkAt(raw, j)
    decreases |raw| - i
  {
    if MarkAt(raw, i) then Some(i) else if i == |raw| then None else FirstMark(raw, i + 1)
  }

  /** The last `k` characters are a proper prefix of a mark. */
  predicate EndsInPrefix(raw: string, k: nat) {
    0 < k <= |raw| && (raw[|raw| - k..] < MARK || raw[|raw| - k..] < MARK_DELEGAR)
  }

  /** The longest such ending of at most `k` characters, or 0. */
  function Held(raw: string, k: nat): (n: nat)
    ensures n <= k && (n == 0 || EndsInPrefix(raw, n))
    ensures forall j :: n < j <= k ==> !EndsInPrefix(raw, j)
  {
    if k == 0 then 0 else if EndsInPrefix(raw, k) then k else Held(raw, k - 1)
  }

  /** `streaming_display`. */
  function Display(raw: string): string {
    match FirstMark(raw, 0)
    case Some(i) => raw[..i]
    case None => var n := Held(raw, if |MARK| - 1 < |raw| then |MARK| - 1 else |raw|); raw[..|raw| - n]
  }

  /** From here on the text is, or may still become, an action block. */
  predicate Opens(raw: string, j: nat) {
    j < |raw| && (MARK <= raw[j..] || raw[j..] <= MARK || MARK_DELEGAR <= raw[j..] || raw[j..] <= MARK_DELEGAR)
  }

  /** Text that opens in an extension already opens in what was there. */
  lemma OpensEarlier(raw: string, more: string, j: nat)
    requires j < |raw| && Opens(raw + more, j)
    ensures Opens(raw, j)
  {
    assert (raw + more)[j..] == raw[j..] + more;
    OneComparable(raw[j..], more, MARK);
    OneComparable(raw[j..], more, MARK_DELEGAR);
  }

  lemma OneComparable(a: string, more: string, m: string)
    ensures m <= a + more || a + more <= m ==> m <= a || a <= m
  {
    if m <= a + more || a + more <= m {
      if |a| <= |m| {
        assert forall i :: 0 <= i < |a| ==> a[i] == (a + more)[i];
        assert a <= m;
      } else {
        assert forall i :: 0 <= i < |m| ==> a[i] == (a + more)[i];
        assert m <= a;
      }
    }
  }

  lemma MarkShape(raw: string, i: nat)
    requires MarkAt(raw, i)
    ensures i + 10 <= |raw| && raw[i] == '`' && raw[i + 1] == '`' && raw[i + 2] == '`'
  {
    var m := if MARK <= raw[i..] then MARK else MARK_DELEGAR;
    assert raw[i] == raw[i..][0] == m[0] && raw[i + 1] == raw[i..][1] == m[1] && raw[i + 2] == raw[i..][2] == m[2];
  }

  lemma PrefixShape(raw: string, j: nat)
    requires j <= |raw| && (raw[j..] <= MARK || raw[j..] <= MARK_DELEGAR)
    ensures forall p :: j <= p < |raw| ==> (raw[p] == '`' <==> p < j + 3)
  {
    var m := if raw[j..] <= MARK then MARK else MARK_DELEGAR;
    forall p | j <= p < |raw| ensures raw[p] == '`' <==> p < j + 3 {
      assert raw[p] == raw[j..][p - j] == m[p - j];
    }
  }

  /** A mark never begins inside another, even one that is not complete. */
  lemma MarksDoNotOverlap(raw: string, j: nat, i: nat)
    requires j <= |raw| && MarkAt(raw, i) && (raw[j..] <= MARK || raw[j..] <= MARK_DELEGAR)
    ensures i <= j
  {
    hide MarkAt;
    MarkShape(raw, i);
    PrefixShape(raw, j);
  }

  /** Without a mark, a position that opens one is the start of an ending that is held back. */
  lemma OpensIsHeld(raw: string, j: nat)
    requires j < |raw| && !MarkAt(raw, j)
    ensures Opens(raw, j) <==> EndsInPrefix(raw, |raw| - j)
    ensures EndsInPrefix(raw, |raw| - j) ==> |raw| - j < |MARK|
  {
    assert raw[|raw| - (|raw| - j)..] == raw[j..];
  }

  lemma DisplayWithMark(raw: string, i: nat)
    requires FirstMark(raw, 0) == Some(i)
    ensures Display(raw) == raw[..i] && i < |raw| && Opens(raw, i)
    ensures forall j :: 0 <= j < i ==> !Opens(raw, j)
  {
    hide EndsInPrefix;
    MarkShape(raw, i);
    forall j | 0 <= j < i ensures !Opens(raw, j) {
      assert !MarkAt(raw, j);
      if raw[j..] <= MARK || raw[j..] <= MARK_DELEGAR {
        MarksDoNotOverlap(raw, j, i);
      }
    }
  }

  lemma DisplayWithoutMark(raw: string)
    requires FirstMark(raw, 0).None?
    ensures Display(raw) <= raw
    ensures forall j :: 0 <= j < |Display(raw)| ==> !Opens(raw, j)
    ensures |Display(raw)| < |raw| ==> Opens(raw, |Display(raw)|)
  {
    hide EndsInPrefix, MarkAt, Opens;
    forall j | 0 <= j < |raw|
      ensures Opens(raw, j) <==> EndsInPrefix(raw, |raw| - j)
      ensures EndsInPrefix(raw, |raw| - j) ==> |raw| - j < |MARK|
    {
      assert !MarkAt(raw, j);
      OpensIsHeld(raw, j);
    }
    assert |raw| - (|raw| - |Display(raw)|) == |Display(raw)|;
  }

  /** What is shown is the text up to the first place where an action block is open or may be opening. */
  lemma DisplayMeaning(raw: string)
    ensures Display(raw) <= raw
    ensures forall j :: 0 <= j < |Display(raw)| ==> !Opens(raw, j)
    ensures |Display(raw)| < |raw| ==> Opens(raw, |Display(raw)|)
  {
    hide Display, Opens, MarkAt;
    match FirstMark(raw, 0)
    case Some(i) => DisplayWithMark(raw, i);
    case None => DisplayWithoutMark(raw);
  }

  /** The shown text only grows as the reply grows, whatever comes. */
  lemma DisplayGrows(raw: string, more: string)
    ensures Display(raw) <= Display(raw + more)
  {
    hide Display, Opens;
    DisplayMeaning(raw);
    DisplayMeaning(raw + more);
    var n := |Display(raw + more)|;
    if n < |Display(raw)| {
      OpensEarlier(raw, more, n);
    }
    assert forall i :: 0 <= i < |Display(raw)| ==> Display(raw)[i] == raw[i] == (raw + more)[i];
  }

  /** No shown character is ever part of an action block: in every continuation, all marks come after it. */
  lemma BlocksAreNeverShown(raw: string, more: string, i: nat)
    requires MarkAt(raw + more, i)
    ensures |Display(raw)| <= i
  {
    hide Display;
    DisplayMeaning(raw);
    if i < |raw| {
      OpensEarlier(raw, more, i);
    }
  }
}
