/** `evidence_rules.py`, `_strip_png`: the chunks of section 3.2 of RFC 2083, without the ones that carry metadata. */
module PngImages {
  import opened Prelude
  import opened ImageBytes

  const SIGNATURE: Bytes := [0x89, 0x50, 0x4E, 0x47, 0x0D, 0x0A, 0x1A, 0x0A]
  const IEND: Bytes := [0x49, 0x45, 0x4E, 0x44]
  const IHDR: Bytes := [0x49, 0x48, 0x44, 0x52]
  const TEXT: Bytes := [0x74, 0x45, 0x58, 0x74]
  const ITXT: Bytes := [0x69, 0x54, 0x58, 0x74]
  const ZTXT: Bytes := [0x7A, 0x54, 0x58, 0x74]
  const EXIF: Bytes := [0x65, 0x58, 0x49, 0x66]
  const TIME: Bytes := [0x74, 0x49, 0x4D, 0x45]

  /** Length, type, data and checksum. */
  predicate IsChunk(c: Bytes) {
    |c| >= 12 && |c| == 12 + Big32(c[..4])
  }

  function Type(c: Bytes): Bytes
    requires |c| >= 8
  {
    c[4..8]
  }

  predicate Keep(c: Bytes) {
    |c| >= 8 && Type(c) != TEXT && Type(c) != ITXT && Type(c) != ZTXT && Type(c) != EXIF && Type(c) != TIME
  }

  /** The chunks up to `IEND`; none for a file that is cut or has no `IEND`. */
  function Chunks(s: Bytes): Option<seq<Bytes>> {
    if |s| < 8 then None
    else
      var n := 12 + Big32(s[..4]);
      if n > |s| then None
      else if Type(s) == IEND then Some([s[..n]])
      else
        match Chunks(s[n..])
        case None => None
        case Some(rest) => Some([s[..n]] + rest)
  }

  /** A chunk list as it stands in a file: only the last one is `IEND`. */
  predicate IsFile(cs: seq<Bytes>) {
    && cs != []
    && (forall i :: 0 <= i < |cs| ==> IsChunk(cs[i]))
    && (forall i :: 0 <= i < |cs| ==> (Type(cs[i]) == IEND <==> i == |cs| - 1))
  }

  lemma {:induction false} ChunksAreFile(s: Bytes)
    ensures Chunks(s).Some? ==> IsFile(Chunks(s).value) && Concat(Chunks(s).value) <= s
    decreases |s|
  {
    if Chunks(s).Some? {
      var n := 12 + Big32(s[..4]);
      var c := s[..n];
      assert c[..4] == s[..4] && Type(c) == Type(s);
      if Type(s) == IEND {
        assert Concat([c]) == c + [] == c;
      } else {
        ChunksAreFile(s[n..]);
        var rest := Chunks(s[n..]).value;
        assert Chunks(s).value == [c] + rest;
        assert Concat([c] + rest) == c + Concat(rest) by { assert ([c] + rest)[1..] == rest; }
        assert s == c + s[n..];
      }
    }
  }

  /** A chunk at the front is read as it is. */
  lemma FrontChunk(c: Bytes, rest: Bytes)
    requires IsChunk(c)
    ensures Chunks(c + rest) ==
            if Type(c) == IEND then Some([c])
            else match Chunks(rest) case None => None case Some(more) => Some([c] + more)
  {
    var s := c + rest;
    assert s[..4] == c[..4] && Type(s) == Type(c) && s[..|c|] == c && s[|c|..] == rest;
  }

  /** Printing a chunk list and parsing it gives the list back, whatever follows. */
  lemma {:induction false} ChunksReadBack(cs: seq<Bytes>, after: Bytes)
    requires IsFile(cs)
    ensures Chunks(Concat(cs) + after) == Some(cs)
    decreases |cs|
  {
    hide IsFile, IsChunk, Chunks;
    FileTail(cs);
    var c, tail := cs[0], cs[1..];
    assert Concat(cs) + after == c + (Concat(tail) + after);
    FrontChunk(c, Concat(tail) + after);
    if |cs| == 1 {
      assert cs == [c];
    } else {
      assert cs == [c] + tail;
      ChunksReadBack(tail, after);
    }
  }

  lemma FileTail(cs: seq<Bytes>)
    requires IsFile(cs)
    ensures cs != [] && IsChunk(cs[0]) && (Type(cs[0]) == IEND <==> |cs| == 1)
    ensures |cs| > 1 ==> IsFile(cs[1..])
  {
    hide IsChunk;
    assert forall i :: 0 <= i < |cs| - 1 ==> cs[1..][i] == cs[i + 1];
  }

  lemma FileCons(c: Bytes, rest: seq<Bytes>)
    requires IsFile(rest) && IsChunk(c) && Type(c) != IEND
    ensures IsFile([c] + rest)
  {
    hide IsChunk;
  }

  lemma {:induction false} KeptIsFile(cs: seq<Bytes>)
    requires IsFile(cs)
    ensures IsFile(Kept(cs, Keep))
    decreases |cs|
  {
    hide IsFile, IsChunk;
    FileTail(cs);
    var c, tail := cs[0], cs[1..];
    if |cs| == 1 {
      LastIsKept(cs);
    } else {
      KeptIsFile(tail);
      var rest := Kept(tail, Keep);
      FileCons(c, rest);
      assert Kept(cs, Keep) == if Keep(c) then [c] + rest else rest by { assert [] + rest == rest; }
    }
  }

  lemma LastIsKept(cs: seq<Bytes>)
    requires |cs| == 1 && IsChunk(cs[0]) && Type(cs[0]) == IEND
    ensures Kept(cs, Keep) == cs
  {
    assert cs[1..] == [] && Keep(cs[0]);
  }

  /** The signature and the chunks that are kept. */
  function Strip(data: Bytes): Option<Stripped>
    requires |data| >= 8
  {
    match Chunks(data[8..])
    case None => None
    case Some(cs) =>
      KeptMembers(cs, Keep);
      Some(Stripped(data[..8] + Concat(Kept(cs, Keep)), |cs| - |Kept(cs, Keep)|))
  }

  /** `image_size` of a PNG. */
  function Size(data: Bytes): Option<(nat, nat)> {
    if |data| >= 24 && data[12..16] == IHDR then Some((Big32(data[16..20]), Big32(data[20..24]))) else None
  }

  /**
   * The stripped file reads as the kept chunks, in order and with their bytes; stripping again removes nothing and
   * changes no byte; the signature stays.
   */
  lemma StripIsIdempotent(data: Bytes)
    requires |data| >= 8 && Strip(data).Some?
    ensures var out := Strip(data).value.bytes;
            && |out| >= 8 && out[..8] == data[..8] && Strip(out) == Some(Stripped(out, 0))
            && Chunks(out[8..]) == Some(Kept(Chunks(data[8..]).value, Keep))
  {
    hide Chunks, IsFile, Kept, Concat, Keep;
    var cs := Chunks(data[8..]).value;
    ChunksAreFile(data[8..]);
    KeptIsFile(cs);
    KeptMembers(cs, Keep);
    var kept := Kept(cs, Keep);
    var out := Strip(data).value.bytes;
    ChunksReadBack(kept, []);
    assert Concat(kept) + [] == Concat(kept);
    assert out[8..] == Concat(kept) && out[..8] == data[..8];
  }

  /** The size is kept when the header chunk is long enough to hold the bytes it is read from. */
  lemma StripKeepsSize(data: Bytes)
    requires |data| >= 8 && Strip(data).Some? && Size(data).Some? && Big32(data[8..12]) >= 4
    ensures Size(Strip(data).value.bytes) == Size(data)
  {
    hide IsFile, Chunks, Kept, Concat;
    var n := 12 + Big32(data[8..12]);
    FirstIsKept(data);
    var out := Strip(data).value.bytes;
    assert out[12..16] == out[..8 + n][12..16] && data[12..16] == data[..8 + n][12..16];
    assert out[16..20] == out[..8 + n][16..20] && data[16..20] == data[..8 + n][16..20];
    assert out[20..24] == out[..8 + n][20..24] && data[20..24] == data[..8 + n][20..24];
  }

  /** A header chunk that comes first stays first. */
  lemma FirstIsKept(data: Bytes)
    requires |data| >= 16 && Strip(data).Some? && data[12..16] == IHDR
    ensures var n, out := 12 + Big32(data[8..12]), Strip(data).value.bytes;
            8 + n <= |out| && 8 + n <= |data| && out[..8 + n] == data[..8 + n]
  {
    hide IsFile, Concat;
    var s := data[8..];
    var cs, n := Chunks(s).value, 12 + Big32(s[..4]);
    assert s[..4] == data[8..12] && Type(s) == data[12..16];
    var c := s[..n];
    assert cs[0] == c && Type(c) == Type(s);
    FirstOfKept(cs, c);
    var rest := Concat(Kept(cs, Keep)[1..]);
    assert Strip(data).value.bytes == data[..8] + (c + rest);
    assert (data[..8] + (c + rest))[..8 + n] == data[..8] + c == data[..8 + n];
  }

  lemma FirstOfKept(cs: seq<Bytes>, c: Bytes)
    requires cs != [] && cs[0] == c && |c| >= 12 && Type(c) == IHDR
    ensures Kept(cs, Keep) != [] && Concat(Kept(cs, Keep)) == c + Concat(Kept(cs, Keep)[1..])
  {
    assert Keep(c);
    assert Kept(cs, Keep)[0] == c;
  }

  /** A file that can be stripped and whose size is defined. */
  predicate Sized(data: Bytes) {
    |data| >= 8 && Strip(data).Some? && Size(data).Some?
  }

  predicate KeepsSize(data: Bytes) {
    |data| >= 8 && Strip(data).Some? && Size(Strip(data).value.bytes) == Size(data)
  }

  /**
   * Exactly the header chunks with at least four bytes of data keep the size whatever follows them: a shorter one has
   * its height read from the length of the next chunk, which may be removed.
   */
  lemma HeaderHoldsSizeIff(header: Bytes)
    requires IsChunk(header) && Type(header) == IHDR
    ensures (forall tail: Bytes ::
               Sized(SIGNATURE + (header + tail)) ==> KeepsSize(SIGNATURE + (header + tail)))
       <==> |header| >= 16
  {
    hide Strip, Size, Big32;
    if |header| >= 16 {
      forall tail: Bytes | Sized(SIGNATURE + (header + tail)) ensures KeepsSize(SIGNATURE + (header + tail)) {
        var data := SIGNATURE + (header + tail);
        assert data[8..12] == header[..4];
        StripKeepsSize(data);
      }
    } else {
      ShortHeader(header);
    }
  }

  /** A text chunk of 16 MiB: the first byte of its length is not zero. */
  function LongText(): Bytes {
    [1, 0, 0, 0] + TEXT + seq(0x100_0004, _ => 0)
  }

  function End(): Bytes {
    [0, 0, 0, 0] + IEND + [0, 0, 0, 0]
  }

  lemma ShortHeader(header: Bytes)
    requires IsChunk(header) && Type(header) == IHDR && |header| < 16
    ensures var data := SIGNATURE + (header + (LongText() + End())); Sized(data) && !KeepsSize(data)
  {
    hide Chunks, Kept, Concat, Size;
    var text, end := LongText(), End();
    var data, out := SIGNATURE + (header + (text + end)), SIGNATURE + (header + end);
    assert text[..4] == [1, 0, 0, 0] && end[..4] == [0, 0, 0, 0];
    assert Type(text) == TEXT && Type(end) == IEND;
    Three(header, text, end);
    ChunksReadBack([header, text, end], []);
    assert data[8..] == Concat([header, text, end]) + [] && data[..8] == SIGNATURE;
    assert Strip(data).value.bytes == out;
    assert forall i :: 1 <= i < 4 ==> text[i] == text[..4][i] == 0 && end[i] == end[..4][i] == 0;
    assert text[0] == text[..4][0] == 1 && end[0] == end[..4][0] == 0;
    OtherHeight(header, text + end, end);
  }

  lemma OtherHeight(header: Bytes, a: Bytes, b: Bytes)
    requires 12 <= |header| < 16 && Type(header) == IHDR && |a| >= 12 && |b| >= 12
    requires a[0] == 1 && b[0] == 0 && forall i :: 1 <= i < 4 ==> a[i] == b[i]
    ensures Size(SIGNATURE + (header + a)).Some? && Size(SIGNATURE + (header + b)).Some?
    ensures Size(SIGNATURE + (header + a)) != Size(SIGNATURE + (header + b))
  {
    hide Big32;
    var x, y := SIGNATURE + (header + a), SIGNATURE + (header + b);
    assert x[12..16] == y[12..16] == Type(header);
    var n := 8 + |header|;
    assert x[n] == a[0] && y[n] == b[0];
    forall i | 20 <= i < 24 && i != n ensures x[i] == y[i] {
      if i > n {
        assert x[i] == a[i - n] && y[i] == b[i - n];
      }
    }
    OtherNumber(x[20..24], y[20..24], n - 20);
  }

  lemma OtherNumber(a: Bytes, b: Bytes, n: nat)
    requires |a| == |b| == 4 && n < 4 && a[n] != b[n] && forall i :: 0 <= i < 4 && i != n ==> a[i] == b[i]
    ensures Big32(a) != Big32(b)
  {
    assert forall i :: 0 <= i < 4 && i != n ==> Num(a[i]) == Num(b[i]);
  }

  lemma Three(a: Bytes, b: Bytes, c: Bytes)
    ensures Concat([a, b, c]) == a + (b + c) && Concat([a, c]) == a + c
    ensures Keep(a) && !Keep(b) && Keep(c) ==> Kept([a, b, c], Keep) == [a, c]
  {
    hide Keep;
    assert [a, b, c][1..] == [b, c] && [b, c][1..] == [c] && [c][1..] == [] && [a, c][1..] == [c];
    assert c + [] == c;
    assert Concat([c]) == c;
    var keep := Keep;
    if keep(a) && !keep(b) && keep(c) {
      assert Kept([c], keep) == [c];
      assert Kept([b, c], keep) == [c];
    }
  }

  // ---------------------------------------------------------------- the loop

  function Prepend(cs: seq<Bytes>, rest: Option<seq<Bytes>>): Option<seq<Bytes>> {
    match rest
    case None => None
    case Some(more) => Some(cs + more)
  }

  /** One more chunk read: what it adds to the output and to the count. */
  lemma NextChunk(data: Bytes, pos: nat, cs: seq<Bytes>)
    requires pos + 8 <= |data|
    ensures var n := 12 + Big32(data[pos..pos + 4]);
            if pos + n > |data| then Chunks(data[pos..]).None?
            else
              var c := data[pos..pos + n];
              && data[pos..][4..8] == data[pos + 4..pos + 8]
              && (if data[pos + 4..pos + 8] == IEND then Chunks(data[pos..]) == Some([c])
                  else Prepend(cs, Chunks(data[pos..])) == Prepend(cs + [c], Chunks(data[pos + n..])))
              && Concat(Kept(cs + [c], Keep)) == Concat(Kept(cs, Keep)) + (if Keep(c) then c else [])
              && |Kept(cs + [c], Keep)| == |Kept(cs, Keep)| + (if Keep(c) then 1 else 0)
  {
    hide Kept, Concat, Keep, Big32, Prepend;
    var s := data[pos..];
    assert s[..4] == data[pos..pos + 4] && Type(s) == data[pos + 4..pos + 8];
    var n := 12 + Big32(s[..4]);
    if pos + n <= |data| {
      var c := s[..n];
      assert c == data[pos..pos + n] && s[n..] == data[pos + n..];
      KeptSnoc(cs, c, Keep);
      ConcatSnoc(Kept(cs, Keep), c);
      assert Kept(cs, Keep) + [] == Kept(cs, Keep) && Concat(Kept(cs, Keep)) + [] == Concat(Kept(cs, Keep));
      PrependOne(cs, c, Chunks(s[n..]));
      assert Chunks(s) == if Type(s) == IEND then Some([c]) else Prepend([c], Chunks(s[n..])) by {
        PrependOne([], c, Chunks(s[n..]));
      }
    }
  }

  lemma PrependOne(cs: seq<Bytes>, c: Bytes, rest: Option<seq<Bytes>>)
    ensures Prepend(cs, Prepend([c], rest)) == Prepend(cs + [c], rest)
    ensures Prepend([c], rest) == match rest case None => None case Some(more) => Some([c] + more)
  {
    if rest.Some? {
      assert cs + ([c] + rest.value) == (cs + [c]) + rest.value;
    }
  }

  /** `_strip_png`: none is the refusal of a file that is cut or has no `IEND`. */
  method StripPng(data: Bytes) returns (r: Option<Stripped>)
    requires |data| >= 8
    ensures r == Strip(data)
  {
    hide Chunks, Kept, Concat;
    var out, pos, removed := data[..8], 8, 0;
    ghost var cs: seq<Bytes> := [];
    NothingKept(data[8..]);
    while pos + 8 <= |data|
      invariant 8 <= pos <= |data| && Chunks(data[8..]) == Prepend(cs, Chunks(data[pos..]))
      invariant out == data[..8] + Concat(Kept(cs, Keep)) && removed == |cs| - |Kept(cs, Keep)|
    {
      NextChunk(data, pos, cs);
      var end := pos + 12 + Big32(data[pos..pos + 4]);
      if end > |data| {
        return None;
      }
      var ctype, c := data[pos + 4..pos + 8], data[pos..end];
      if Keep(c) {
        out := out + c;
      } else {
        removed := removed + 1;
      }
      cs := cs + [c];
      pos := end;
      if ctype == IEND {
        assert Chunks(data[8..]) == Some(cs) && out == data[..8] + Concat(Kept(cs, Keep));
        return Some(Stripped(out, removed));
      }
    }
    TooShort(data[pos..]);
    return None;
  }

  lemma NothingKept(s: Bytes)
    ensures Kept([], Keep) == [] && Concat([]) == [] && Prepend([], Chunks(s)) == Chunks(s)
  {
    if Chunks(s).Some? {
      assert [] + Chunks(s).value == Chunks(s).value;
    }
  }

  lemma TooShort(s: Bytes)
    requires |s| < 8
    ensures Chunks(s).None?
  {
  }
}
