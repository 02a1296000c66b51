/** Python's blanks and line breaks, and `str.strip`. */
module Blanks {
  /** The characters at which Python's `str.splitlines` ends a line. */
  predicate IsBreak(c: char) {
    '\n' <= c <= '\r' || '\U{1C}' <= c <= '\U{1E}' || c == '\U{85}' || c == '\U{2028}' || c == '\U{2029}'
  }

  /** Python's `str.isspace`. */
  predicate IsSpace(c: char) {
    IsBreak(c) || c == '\t' || c == '\U{1F}' || c == ' ' || c == '\U{A0}' || c == '\U{1680}'
    || '\U{2000}' <= c <= '\U{200A}' || c == '\U{202F}' || c == '\U{205F}' || c == '\U{3000}'
  }

  /** The ten line ends of `str.splitlines`, and the nineteen characters that are blank besides. */
  lemma BlanksAre(c: char)
    ensures IsBreak(c) <==>
            c in {'\n', '\U{B}', '\U{C}', '\r', '\U{1C}', '\U{1D}', '\U{1E}', '\U{85}', '\U{2028}', '\U{2029}'}
    ensures IsSpace(c) <==>
            || IsBreak(c)
            || c in {'\t', '\U{1F}', ' ', '\U{A0}', '\U{1680}', '\U{202F}', '\U{205F}', '\U{3000}'}
            || c in {'\U{2000}', '\U{2001}', '\U{2002}', '\U{2003}', '\U{2004}', '\U{2005}', '\U{2006}', '\U{2007}',
                     '\U{2008}', '\U{2009}', '\U{200A}'}
  {
    var n := c as int;
    if 0x2000 <= n <= 0x200A {
      assert c in {'\U{2000}', '\U{2001}', '\U{2002}', '\U{2003}', '\U{2004}', '\U{2005}', '\U{2006}', '\U{2007}',
                   '\U{2008}', '\U{2009}', '\U{200A}'};
    }
  }

  predicate Blank(line: string) {
    forall i :: 0 <= i < |line| ==> IsSpace(line[i])
  }

  function LStrip(s: string): string {
    if s == "" || !IsSpace(s[0]) then s else LStrip(s[1..])
  }

  function RStrip(s: string): string {
    if s == "" || !IsSpace(s[|s| - 1]) then s else RStrip(s[..|s| - 1])
  }

  /** `str.strip`. */
  function Strip(s: string): string {
    RStrip(LStrip(s))
  }

  lemma {:induction false} LStripConcat(a: string, b: string)
    requires LStrip(a) != ""
    ensures LStrip(a + b) == LStrip(a) + b
    decreases |a|
  {
    hide IsSpace;
    if IsSpace(a[0]) {
      LStripConcat(a[1..], b);
      assert (a + b)[1..] == a[1..] + b;
    }
  }

  lemma {:induction false} RStripKeeps(a: string, b: string)
    requires a != "" && !IsSpace(a[|a| - 1])
    ensures a <= RStrip(a + b)
    decreases |b|
  {
    hide IsSpace;
    if b == "" {
      assert a + b == a;
    } else {
      RStripKeeps(a, b[..|b| - 1]);
      assert (a + b)[..|a + b| - 1] == a + b[..|b| - 1];
    }
  }

  lemma {:induction false} RStripMeaning(s: string)
    ensures RStrip(s) <= s && (RStrip(s) != "" ==> !IsSpace(RStrip(s)[|RStrip(s)| - 1]))
  {
    hide IsSpace;
    if s != "" && IsSpace(s[|s| - 1]) {
      RStripMeaning(s[..|s| - 1]);
    }
  }

  lemma StripConcat(a: string, b: string)
    ensures Strip(a) <= Strip(a + b)
  {
    hide IsSpace, LStrip, RStrip;
    var core := Strip(a);
    if core != "" {
      RStripMeaning(LStrip(a));
      assert LStrip(a) == core + LStrip(a)[|core|..];
      LStripConcat(a, b);
      assert LStrip(a + b) == core + (LStrip(a)[|core|..] + b);
      RStripKeeps(core, LStrip(a)[|core|..] + b);
    } else {
      assert core <= Strip(a + b);
    }
  }
}
