/** The shape of a finished reply: plain text between action blocks, the last of which may never be closed. */
module ReplyBlocks {
  import opened Prelude
  import opened Blanks
  import opened Streaming
  import opened Turns

  datatype Reply =
    | End(plain: string)
    | Cut(plain: string, delegate: bool, body: string)
    | Closed(plain: string, delegate: bool, body: string, rest: Reply)

  function Mark(delegate: bool): string {
    if delegate then "```delegar" else "```destravar"
  }

  /** A block, closed by a fence, between a text and its tail. */
  function Enclosed(plain: string, delegate: bool, body: string, tail: string): string {
    plain + (Mark(delegate) + (body + "```" + tail))
  }

  function Written(r: Reply): string {
    match r
    case End(plain) => plain
    case Cut(plain, delegate, body) => plain + (Mark(delegate) + body)
    case Closed(plain, delegate, body, rest) => Enclosed(plain, delegate, body, Written(rest))
  }

  /** The text without its blocks. */
  function Plain(r: Reply): string {
    match r
    case End(plain) => plain
    case Cut(plain, _, _) => plain
    case Closed(plain, _, _, rest) => plain + Plain(rest)
  }

  predicate Unmarked(plain: string) {
    forall j :: 0 <= j < |plain| ==> !(Mark(true) <= plain[j..]) && !(Mark(false) <= plain[j..])
  }

  /** Plain parts hold no mark; the body of a block ends at its first fence. */
  predicate Proper(r: Reply) {
    && Unmarked(r.plain)
    && match r
       case End(_) => true
       case Cut(_, _, body) => forall j :: 0 <= j <= |body| ==> !FenceAt(body, j)
       case Closed(_, _, body, rest) =>
         Proper(rest) && forall j :: 0 <= j < |body| ==> !FenceAt(body + "```", j)
  }

  /** In what is written, the first mark after plain text is where the block begins. */
  lemma FirstMarkAt(text: string, i: nat)
    requires i <= |text| && MarkAt(text, i) && Unmarked(text[..i])
    ensures FirstMark(text, 0) == Some(i)
  {
    forall j | 0 <= j < i ensures !MarkAt(text, j) {
      NoOverlap(text, j, i, MARK);
      NoOverlap(text, j, i, MARK_DELEGAR);
    }
    hide MarkAt;
  }

  lemma NoOverlap(text: string, j: nat, i: nat, m: string)
    requires j < i && MarkAt(text, i) && Unmarked(text[..i]) && (m == MARK || m == MARK_DELEGAR)
    ensures !(m <= text[j..])
  {
    MarkShape(text, i);
    var d, rest := i - j, text[j..];
    assert rest[d] == '`' && rest[d + 1] == '`' && rest[d + 2] == '`';
    if d < |m| {
      assert m[d] == '`' ==> d < 3;
      assert m[3] == 'd';
    } else {
      PrefixOf(m, text[..i][j..], rest);
      assert !(m <= text[..i][j..]);
      assert text[..i][j..] == rest[..d];
    }
  }

  lemma PrefixOf(m: string, a: string, b: string)
    requires a <= b
    ensures m <= a ==> m <= b
    ensures m <= b && |m| <= |a| ==> m <= a
  {
  }

  lemma MarkLength(text: string, i: nat, delegate: bool)
    requires i <= |text| && Mark(delegate) <= text[i..]
    ensures MarkAt(text, i) && MarkEnd(text, i) == i + |Mark(delegate)|
  {
    assert delegate ==> text[i..][5] == 'l' && MARK[5] == 's';
  }

  lemma {:induction false} FenceFrom(text: string, k: nat, n: nat)
    requires k + n + 3 <= |text| && FenceAt(text, k + n) && forall j :: k <= j < k + n ==> !FenceAt(text, j)
    ensures AfterFence(text, k) == k + n + 3
    decreases n
  {
    hide FenceAt;
    if n > 0 {
      FenceFrom(text, k + 1, n - 1);
    }
  }

  lemma {:induction false} NoFenceFrom(text: string, k: nat)
    requires k <= |text| && forall j :: k <= j < |text| ==> !FenceAt(text, j)
    ensures AfterFence(text, k) == |text|
    decreases |text| - k
  {
    hide FenceAt;
    if k < |text| {
      NoFenceFrom(text, k + 1);
    }
  }

  lemma CutIsRemoved(plain: string, delegate: bool, body: string)
    requires Proper(Cut(plain, delegate, body))
    ensures WithoutBlocks(plain + (Mark(delegate) + body)) == plain
  {
    hide MarkAt, FirstMark, AfterFence, MarkEnd, FenceAt;
    var text, i := plain + (Mark(delegate) + body), |plain|;
    var k := i + |Mark(delegate)|;
    assert text[..i] == plain && text[i..] == Mark(delegate) + body && text[k..] == body;
    MarkLength(text, i, delegate);
    FirstMarkAt(text, i);
    forall j | k <= j < |text| ensures !FenceAt(text, j) {
      SameWindow(text, body, k, j - k);
    }
    NoFenceFrom(text, k);
    assert text[|text|..] == "" && plain + "" == plain;
    NothingLeft();
  }

  /** Where the parts of a text with a closed block stand. */
  lemma ClosedParts(plain: string, delegate: bool, body: string, tail: string)
    ensures var text, i, k := Enclosed(plain, delegate, body, tail), |plain|, |plain| + |Mark(delegate)|;
            && k + |body| + 3 <= |text| && text[..i] == plain && Mark(delegate) <= text[i..]
            && body + "```" <= text[k..] && text[k + |body| + 3..] == tail
  {
    hide Mark;
    var block := body + "```" + tail;
    var marked := Mark(delegate) + block;
    Suffix(plain, marked);
    Suffix(Mark(delegate), block);
    Suffix(body + "```", tail);
    assert (plain + marked)[|plain| + |Mark(delegate)|..] == marked[|Mark(delegate)|..];
    assert (plain + marked)[|plain| + |Mark(delegate)| + |body| + 3..] == block[|body| + 3..];
  }

  lemma Suffix(a: string, b: string)
    ensures (a + b)[..|a|] == a && (a + b)[|a|..] == b
  {
  }

  lemma BodyEnds(text: string, k: nat, body: string)
    requires k <= |text| && body + "```" <= text[k..] && forall j :: 0 <= j < |body| ==> !FenceAt(body + "```", j)
    ensures k + |body| + 3 <= |text| && AfterFence(text, k) == k + |body| + 3
  {
    var after := body + "```";
    assert after[|body|..|body| + 3] == "```";
    assert FenceAt(after, |body|);
    hide FenceAt, AfterFence;
    forall j | k <= j < k + |body| ensures !FenceAt(text, j) {
      SameWindow(text, after, k, j - k);
    }
    SameWindow(text, after, k, |body|);
    FenceFrom(text, k, |body|);
  }

  lemma Unfolded(text: string, i: nat)
    requires FirstMark(text, 0) == Some(i)
    ensures WithoutBlocks(text) == text[..i] + WithoutBlocks(text[AfterFence(text, MarkEnd(text, i))..])
  {
    hide MarkAt, FirstMark, AfterFence, MarkEnd;
  }

  lemma ClosedIsRemoved(plain: string, delegate: bool, body: string, tail: string)
    requires Unmarked(plain) && forall j :: 0 <= j < |body| ==> !FenceAt(body + "```", j)
    ensures WithoutBlocks(Enclosed(plain, delegate, body, tail)) == plain + WithoutBlocks(tail)
  {
    hide WithoutBlocks, Mark, Unmarked, FenceAt, MarkAt, MarkEnd, FirstMark, Enclosed;
    ClosedParts(plain, delegate, body, tail);
    var text, i := Enclosed(plain, delegate, body, tail), |plain|;
    MarkLength(text, i, delegate);
    FirstMarkAt(text, i);
    BodyEnds(text, i + |Mark(delegate)|, body);
    hide AfterFence;
    Unfolded(text, i);
  }

  /** The final text is the plain text, blanks at its ends aside. */
  lemma {:induction false} BlocksAreRemoved(r: Reply)
    requires Proper(r)
    ensures WithoutBlocks(Written(r)) == Plain(r) && FinalText(Written(r)) == Strip(Plain(r))
    decreases r
  {
    hide WithoutBlocks, Strip;
    match r
    case End(plain) => PlainStays(plain);
    case Cut(plain, delegate, body) => CutIsRemoved(plain, delegate, body);
    case Closed(plain, delegate, body, rest) =>
      BlocksAreRemoved(rest);
      ClosedIsRemoved(plain, delegate, body, Written(rest));
  }

  lemma PlainStays(plain: string)
    requires Unmarked(plain)
    ensures WithoutBlocks(plain) == plain
  {
    PlainHasNoMark(plain);
  }

  lemma NothingLeft()
    ensures WithoutBlocks("") == ""
  {
    if FirstMark("", 0).Some? {
      MarkShape("", 0);
    }
  }

  /** Three characters of a part, where it stands in the text. */
  lemma SameWindow(text: string, part: string, k: nat, j: nat)
    requires k <= |text| && part <= text[k..]
    ensures j + 3 <= |part| ==> (FenceAt(text, k + j) <==> FenceAt(part, j))
    ensures part == text[k..] ==> (FenceAt(text, k + j) <==> FenceAt(part, j))
  {
    if j + 3 <= |part| {
      assert text[k + j..k + j + 3] == text[k..][j..j + 3] == part[j..j + 3];
    }
  }

  lemma PlainHasNoMark(plain: string)
    requires Unmarked(plain)
    ensures FirstMark(plain, 0) == None
  {
    forall j | 0 <= j <= |plain| ensures !MarkAt(plain, j) {
      if MarkAt(plain, j) {
        MarkShape(plain, j);
      }
    }
    hide MarkAt;
  }

  /** A block in a text, from its mark on: cut, or closed by its first fence. */
  lemma FirstBlock(text: string, i: nat, delegate: bool) returns (body: string, end: Option<nat>)
    requires i <= |text| && Mark(delegate) <= text[i..]
    ensures match end
            case None =>
              text == text[..i] + (Mark(delegate) + body) && forall j :: 0 <= j <= |body| ==> !FenceAt(body, j)
            case Some(n) =>
              && i < n <= |text| && text == Enclosed(text[..i], delegate, body, text[n..])
              && forall j :: 0 <= j < |body| ==> !FenceAt(body + "```", j)
  {
    var k := i + |Mark(delegate)|;
    var n := FirstFence(text, k);
    assert text == text[..i] + (Mark(delegate) + text[k..]);
    if n.None? {
      body, end := text[k..], None;
      forall j | 0 <= j <= |body| ensures !FenceAt(body, j) {
        SameWindow(text, body, k, j);
      }
    } else {
      body, end := text[k..n.value], Some(n.value + 3);
      assert text[k..] == body + "```" + text[end.value..];
      forall j | 0 <= j < |body| ensures !FenceAt(body + "```", j) {
        SameWindow(text, body + "```", k, j);
      }
    }
  }

  /** Every text is a proper reply, so that this says what the final text of any reply is. */
  lemma {:induction false} EveryReplyIsProper(text: string) returns (r: Reply)
    ensures Proper(r) && Written(r) == text
    decreases |text|
  {
    hide FenceAt, Unmarked, Mark;
    match FirstMark(text, 0)
    case None =>
      r := End(text);
      NoMarks(text, |text|);
      assert text[..|text|] == text;
    case Some(i) =>
      var delegate := !(MARK <= text[i..]);
      NoMarks(text, i);
      MarkOf(text, i, delegate);
      var body, end := FirstBlock(text, i, delegate);
      if end.None? {
        r := Cut(text[..i], delegate, body);
      } else {
        var rest := EveryReplyIsProper(text[end.value..]);
        r := Closed(text[..i], delegate, body, rest);
      }
  }

  lemma MarkOf(text: string, i: nat, delegate: bool)
    requires MarkAt(text, i) && delegate == !(MARK <= text[i..])
    ensures Mark(delegate) <= text[i..]
  {
  }

  lemma NoMarks(text: string, i: nat)
    requires i <= |text| && forall j :: 0 <= j < i ==> !MarkAt(text, j)
    ensures Unmarked(text[..i])
  {
    forall j | 0 <= j < i ensures !(Mark(true) <= text[..i][j..]) && !(Mark(false) <= text[..i][j..]) {
      assert !MarkAt(text, j);
      assert text[..i][j..] <= text[j..];
      PrefixOf(MARK, text[..i][j..], text[j..]);
      PrefixOf(MARK_DELEGAR, text[..i][j..], text[j..]);
    }
  }

  lemma {:induction false} FirstFence(text: string, k: nat) returns (n: Option<nat>)
    requires k <= |text|
    ensures n.Some? ==> k <= n.value && FenceAt(text, n.value) && forall j :: k <= j < n.value ==> !FenceAt(text, j)
    ensures n.None? ==> forall j :: k <= j <= |text| ==> !FenceAt(text, j)
    decreases |text| - k
  {
    if FenceAt(text, k) {
      n := Some(k);
    } else if k == |text| {
      n := None;
    } else {
      n := FirstFence(text, k + 1);
    }
  }
}
