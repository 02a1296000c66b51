/**
 * `evidence_rules.py`, `_bracket_ends` and `_mask_records`: where the block opened by each bracket ends, computed in
 * one pass, and the spans that are masked. The candidate records found by the regular expression are a parameter.
 */
module RecordMask {
  predicate IsOpen(c: char) {
    c == '[' || c == '{' || c == '('
  }

  predicate IsClose(c: char) {
    c == ']' || c == '}' || c == ')'
  }

  /**
   * The naive scan, from `j` with `depth` brackets open: the block ends after the bracket that closes it, whatever the
   * types; unclosed, at the end of the line.
   */
  function Scan(text: string, j: nat, depth: nat): (end: nat)
    requires j <= |text| && depth > 0
    ensures j <= end <= |text|
    decreases |text| - j
  {
    if j == |text| || text[j] == '\n' then j
    else if IsOpen(text[j]) then Scan(text, j + 1, depth + 1)
    else if !IsClose(text[j]) then Scan(text, j + 1, depth)
    else if depth == 1 then j + 1
    else Scan(text, j + 1, depth - 1)
  }

  function BlockEnd(text: string, i: nat): (end: nat)
    requires i < |text|
    ensures i < end <= |text|
  {
    Scan(text, i + 1, 1)
  }

  /** The brackets still open at `j`, innermost last: each is as deep as there are brackets from it on. */
  ghost predicate Stacked(text: string, stack: seq<nat>, j: nat)
    requires j <= |text|
  {
    forall k :: 0 <= k < |stack| ==> stack[k] < j && BlockEnd(text, stack[k]) == Scan(text, j, |stack| - k)
  }

  /** The ends found are right, and every bracket before `j` has one or is still open. */
  ghost predicate Ended(text: string, ends: map<nat, nat>, stack: seq<nat>, j: nat)
    requires j <= |text|
  {
    && (forall i <- ends :: i < j && IsOpen(text[i]) && ends[i] == BlockEnd(text, i))
    && (forall i :: 0 <= i < j && IsOpen(text[i]) ==> i in ends || i in stack)
    && (forall k :: 0 <= k < |stack| ==> stack[k] < j && IsOpen(text[stack[k]]))
  }

  /** `_bracket_ends`. */
  method BracketEnds(text: string) returns (ends: map<nat, nat>)
    ensures forall i: nat :: i in ends <==> i < |text| && IsOpen(text[i])
    ensures forall i <- ends :: ends[i] == BlockEnd(text, i)
  {
    ends := map[];
    var stack: seq<nat> := [];
    for j := 0 to |text|
      invariant Stacked(text, stack, j) && Ended(text, ends, stack, j)
    {
      var c := text[j];
      ghost var open, found := stack, ends;
      if c == '\n' {
        ends := EndAll(text, ends, stack, j);
        stack := [];
      } else if IsOpen(c) {
        stack := stack + [j];
        Opened(text, open, j);
      } else if IsClose(c) && stack != [] {
        ends := ends[stack[|stack| - 1] := j + 1];
        stack := stack[..|stack| - 1];
        ClosedOne(text, found, open, j);
      } else {
        Passed(text, open, j);
      }
    }
    ends := EndAll(text, ends, stack, |text|);
  }

  lemma Opened(text: string, stack: seq<nat>, j: nat)
    requires j < |text| && IsOpen(text[j]) && Stacked(text, stack, j)
    ensures Stacked(text, stack + [j], j + 1)
  {
    forall k | 0 <= k < |stack| ensures BlockEnd(text, stack[k]) == Scan(text, j + 1, |stack| + 1 - k) {
      assert Scan(text, j, |stack| - k) == Scan(text, j + 1, |stack| - k + 1);
    }
  }

  lemma ClosedOne(text: string, ends: map<nat, nat>, stack: seq<nat>, j: nat)
    requires j < |text| && IsClose(text[j]) && stack != [] && Stacked(text, stack, j) && Ended(text, ends, stack, j)
    ensures Stacked(text, stack[..|stack| - 1], j + 1)
    ensures Ended(text, ends[stack[|stack| - 1] := j + 1], stack[..|stack| - 1], j + 1)
  {
    hide Ended;
    var n := |stack| - 1;
    forall k | 0 <= k < n ensures BlockEnd(text, stack[k]) == Scan(text, j + 1, n - k) {
      assert BlockEnd(text, stack[k]) == Scan(text, j, |stack| - k);
      assert Scan(text, j, |stack| - k) == Scan(text, j + 1, |stack| - k - 1);
    }
    assert BlockEnd(text, stack[n]) == Scan(text, j, 1) == j + 1;
    InnermostEnded(text, ends, stack, j);
  }

  lemma InnermostEnded(text: string, ends: map<nat, nat>, stack: seq<nat>, j: nat)
    requires j < |text| && IsClose(text[j]) && stack != [] && Ended(text, ends, stack, j)
    requires BlockEnd(text, stack[|stack| - 1]) == j + 1
    ensures Ended(text, ends[stack[|stack| - 1] := j + 1], stack[..|stack| - 1], j + 1)
  {
    hide BlockEnd;
    var n := |stack| - 1;
    assert stack == stack[..n] + [stack[n]];
  }

  /** A character that is no bracket, or a closing one with nothing open. */
  lemma Passed(text: string, stack: seq<nat>, j: nat)
    requires j < |text| && text[j] != '\n' && !IsOpen(text[j]) && (IsClose(text[j]) ==> stack == [])
    requires Stacked(text, stack, j)
    ensures Stacked(text, stack, j + 1)
  {
  }

  /** Every bracket still open ends here. */
  method EndAll(text: string, ends: map<nat, nat>, stack: seq<nat>, j: nat) returns (all: map<nat, nat>)
    requires j <= |text| && (j == |text| || text[j] == '\n')
    requires Stacked(text, stack, j) && Ended(text, ends, stack, j)
    ensures Ended(text, all, [], j)
  {
    all := ends;
    assert stack[..|stack|] == stack && stack[..0] == [];
    for k := 0 to |stack|
      invariant forall i <- all :: i < j && IsOpen(text[i]) && all[i] == BlockEnd(text, i)
      invariant forall i :: 0 <= i < j && IsOpen(text[i]) ==> i in all || i in stack[k..]
    {
      assert stack[k..] == [stack[k]] + stack[k + 1..];
      all := all[stack[k] := j];
    }
  }

  // ---------------------------------------------------------------- the test for `=`

  predicate Ascending(s: seq<nat>) {
    forall a, b :: 0 <= a < b < |s| ==> s[a] < s[b]
  }

  /** Positions of `=`. */
  method FindEquals(text: string) returns (eqs: seq<nat>)
    ensures Ascending(eqs) && forall p: nat :: p in eqs <==> p < |text| && text[p] == '='
  {
    eqs := [];
    for p := 0 to |text|
      invariant Ascending(eqs) && (forall a :: 0 <= a < |eqs| ==> eqs[a] < p)
      invariant forall q: nat :: q in eqs <==> q < p && text[q] == '='
    {
      if text[p] == '=' {
        eqs := eqs + [p];
      }
    }
  }

  /** `bisect.bisect_right`. */
  method BisectRight(s: seq<nat>, x: nat) returns (k: nat)
    requires Ascending(s)
    ensures k <= |s| && (forall a :: 0 <= a < k ==> s[a] <= x) && (forall a :: k <= a < |s| ==> x < s[a])
  {
    var low, high := 0, |s|;
    while low < high
      invariant 0 <= low <= high <= |s|
      invariant (forall a :: 0 <= a < low ==> s[a] <= x) && (forall a :: high <= a < |s| ==> x < s[a])
    {
      var middle := (low + high) / 2;
      if x < s[middle] {
        high := middle;
      } else {
        low := middle + 1;
      }
    }
    return low;
  }

  /** Some `=` strictly between two positions. */
  predicate EqualsBetween(text: string, i: nat, end: nat) {
    exists p :: i < p < end && p < |text| && text[p] == '='
  }

  method HasEquals(text: string, eqs: seq<nat>, i: nat, end: nat) returns (found: bool)
    requires Ascending(eqs) && forall p: nat :: p in eqs <==> p < |text| && text[p] == '='
    ensures found <==> EqualsBetween(text, i, end)
  {
    var k := BisectRight(eqs, i);
    found := k < |eqs| && eqs[k] < end;
    if found {
      assert eqs[k] in eqs && i < eqs[k] < end;
    }
    forall p | i < p < end && p < |text| && text[p] == '=' ensures found {
      assert (p as nat) in eqs;
      var a :| 0 <= a < |eqs| && eqs[a] == p;
    }
  }

  // ---------------------------------------------------------------- masking

  /** A candidate: where it starts, its bracket, what is kept in front of the mask, and whether it must hold an `=`. */
  datatype Candidate = Candidate(start: nat, bracket: nat, key: string, needsEquals: bool)

  datatype Span = Span(start: nat, end: nat, key: string)

  const MASKED := "MASCARADO:"
  const REPLACEMENT := "[MASCARADO:endereco]"

  predicate AlreadyMasked(text: string, bracket: nat) {
    bracket + 1 <= |text| && MASKED <= text[bracket + 1..]
  }

  /** Candidates as the regular expression yields them: in order, each with an opening bracket after its start. */
  predicate Candidates(text: string, found: seq<Candidate>) {
    && (forall k :: 0 <= k < |found| ==>
          found[k].start <= found[k].bracket < |text| && IsOpen(text[found[k].bracket]))
    && (forall k :: 0 < k < |found| ==> found[k - 1].bracket <= found[k].start)
  }

  predicate Records(text: string, m: Candidate)
    requires m.bracket < |text|
  {
    !AlreadyMasked(text, m.bracket) && (m.needsEquals ==> EqualsBetween(text, m.bracket, BlockEnd(text, m.bracket)))
  }

  /** Spans in order, none overlapping, within the text. */
  predicate Disjoint(text: string, spans: seq<Span>) {
    && (forall k :: 0 <= k < |spans| ==> spans[k].start < spans[k].end <= |text|)
    && (forall k :: 0 < k < |spans| ==> spans[k - 1].end <= spans[k].start)
  }

  function EndOf(spans: seq<Span>): nat {
    if spans == [] then 0 else spans[|spans| - 1].end
  }

  /** The text up to the end of the last span with every span replaced. */
  function Replaced(text: string, spans: seq<Span>): string
    requires Disjoint(text, spans)
  {
    if spans == [] then ""
    else
      var front, last := spans[..|spans| - 1], spans[|spans| - 1];
      Replaced(text, front) + Between(text, EndOf(front), last.start) + last.key + REPLACEMENT
  }

  function Between(text: string, from: nat, to: nat): string {
    if from <= to <= |text| then text[from..to] else ""
  }

  predicate Covered(spans: seq<Span>, position: nat) {
    exists k :: 0 <= k < |spans| && spans[k].start <= position < spans[k].end
  }

  /** The span is a recorded address, from its start to the naive end of its block. */
  predicate IsRecord(text: string, found: seq<Candidate>, span: Span)
    requires Candidates(text, found)
  {
    exists m <- found :: m.bracket < |text| && m.start == span.start && m.key == span.key
                         && span.end == BlockEnd(text, m.bracket) && Records(text, m)
  }

  predicate Justified(text: string, found: seq<Candidate>, spans: seq<Span>)
    requires Candidates(text, found)
  {
    forall span <- spans :: IsRecord(text, found, span)
  }

  /** The state of the loop of `_mask_records` after `j` candidates. */
  ghost predicate MaskedTo(text: string, found: seq<Candidate>, spans: seq<Span>, j: nat)
    requires Candidates(text, found) && j <= |found|
  {
    && Disjoint(text, spans) && Justified(text, found, spans)
    && (spans != [] && j < |found| ==> spans[|spans| - 1].start <= found[j].start)
    && (forall k :: 0 <= k < j && Records(text, found[k]) ==> Covered(spans, found[k].start))
  }

  /**
   * `_mask_records`: the result is the text with disjoint spans replaced, each the whole block of a recorded address,
   * and no recorded address starts outside a replaced span.
   */
  method MaskRecords(text: string, found: seq<Candidate>) returns (out: string, spans: seq<Span>)
    requires Candidates(text, found)
    ensures Disjoint(text, spans) && Justified(text, found, spans)
    ensures out == Replaced(text, spans) + text[EndOf(spans)..]
    ensures forall j :: 0 <= j < |found| && Records(text, found[j]) ==> Covered(spans, found[j].start)
  {
    hide BlockEnd, EqualsBetween, AlreadyMasked, Justified, Covered, Replaced;
    out, spans := "", [];
    var pos := 0;
    var ends := BracketEnds(text);
    var eqs := FindEquals(text);
    NoSpans(text, found);
    for j := 0 to |found|
      invariant MaskedTo(text, found, spans, j) && pos == EndOf(spans) && out == Replaced(text, spans)
    {
      var m := found[j];
      if m.start < pos {
        LastCovers(text, found, spans, j);
      } else {
        var end := ends[m.bracket];
        var hasEquals := HasEquals(text, eqs, m.bracket, end);
        if AlreadyMasked(text, m.bracket) || (m.needsEquals && !hasEquals) {
          Skipped(text, found, spans, j);
        } else {
          OneMoreSpan(text, found, spans, j, end);
          spans := spans + [Span(m.start, end, m.key)];
          out := out + text[pos..m.start] + m.key + REPLACEMENT;
          pos := end;
        }
      }
    }
    out := out + text[pos..];
  }

  lemma NoSpans(text: string, found: seq<Candidate>)
    requires Candidates(text, found)
    ensures MaskedTo(text, found, [], 0) && Replaced(text, []) == ""
  {
  }

  /** The next candidate starts no earlier than this one's bracket. */
  lemma NextStart(text: string, found: seq<Candidate>, j: nat)
    requires Candidates(text, found) && j + 1 < |found|
    ensures found[j].start <= found[j + 1].start
  {
  }

  lemma LastCovers(text: string, found: seq<Candidate>, spans: seq<Span>, j: nat)
    requires Candidates(text, found) && j < |found| && MaskedTo(text, found, spans, j) && found[j].start < EndOf(spans)
    ensures MaskedTo(text, found, spans, j + 1)
  {
    hide Justified, Records, Disjoint;
    if j + 1 < |found| {
      NextStart(text, found, j);
    }
    assert spans[|spans| - 1].start <= found[j].start < spans[|spans| - 1].end;
    assert Covered(spans, found[j].start);
  }

  lemma Skipped(text: string, found: seq<Candidate>, spans: seq<Span>, j: nat)
    requires Candidates(text, found) && j < |found| && MaskedTo(text, found, spans, j) && !Records(text, found[j])
    ensures MaskedTo(text, found, spans, j + 1)
  {
    hide Justified, Records, Disjoint, Covered;
    if j + 1 < |found| {
      NextStart(text, found, j);
    }
  }

  lemma DisjointSnoc(text: string, spans: seq<Span>, span: Span)
    requires Disjoint(text, spans) && EndOf(spans) <= span.start < span.end <= |text|
    ensures Disjoint(text, spans + [span])
    ensures Replaced(text, spans + [span]) ==
            Replaced(text, spans) + text[EndOf(spans)..span.start] + span.key + REPLACEMENT
  {
    assert (spans + [span])[..|spans|] == spans;
  }

  lemma JustifiedSnoc(text: string, found: seq<Candidate>, spans: seq<Span>, j: nat, end: nat)
    requires Candidates(text, found) && j < |found| && Justified(text, found, spans)
    requires Records(text, found[j]) && end == BlockEnd(text, found[j].bracket)
    ensures Justified(text, found, spans + [Span(found[j].start, end, found[j].key)])
  {
    hide Records, BlockEnd;
    assert found[j] in found;
    assert IsRecord(text, found, Span(found[j].start, end, found[j].key));
  }

  lemma CoveredSnoc(spans: seq<Span>, span: Span, position: nat)
    ensures Covered(spans, position) || span.start <= position < span.end ==> Covered(spans + [span], position)
  {
    var more := spans + [span];
    assert more[|spans|] == span;
    if Covered(spans, position) {
      var k :| 0 <= k < |spans| && spans[k].start <= position < spans[k].end;
      assert more[k] == spans[k];
    }
  }

  lemma OneMoreSpan(text: string, found: seq<Candidate>, spans: seq<Span>, j: nat, end: nat)
    requires Candidates(text, found) && j < |found| && MaskedTo(text, found, spans, j)
    requires Records(text, found[j]) && end == BlockEnd(text, found[j].bracket) && EndOf(spans) <= found[j].start
    ensures var span := Span(found[j].start, end, found[j].key);
            && MaskedTo(text, found, spans + [span], j + 1)
            && Replaced(text, spans + [span]) ==
               Replaced(text, spans) + text[EndOf(spans)..found[j].start] + found[j].key + REPLACEMENT
  {
    hide BlockEnd, Records, Justified, Disjoint, Covered, Replaced;
    var span := Span(found[j].start, end, found[j].key);
    EndIsAfter(text, found[j].bracket);
    assert span.end <= |text| && EndOf(spans) <= span.start < span.end;
    DisjointSnoc(text, spans, span);
    JustifiedSnoc(text, found, spans, j, end);
    if j + 1 < |found| {
      NextStart(text, found, j);
    }
    forall k | 0 <= k < j + 1 && Records(text, found[k]) ensures Covered(spans + [span], found[k].start) {
      CoveredSnoc(spans, span, found[k].start);
    }
  }

  lemma EndIsAfter(text: string, i: nat)
    requires i < |text|
    ensures i < BlockEnd(text, i) <= |text|
  {
  }
}
