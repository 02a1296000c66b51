/**
 * `evidence_rules.py`, `_strip_webp`: the chunks of the container of section 2 of RFC 9649, without EXIF and XMP and
 * with their flags cleared.
 */
module WebpImages {
  import opened Prelude
  import opened ImageBytes

  const RIFF: Bytes := [0x52, 0x49, 0x46, 0x46]
  const WEBP: Bytes := [0x57, 0x45, 0x42, 0x50]
  const EXIF: Bytes := [0x45, 0x58, 0x49, 0x46]
  const XMP: Bytes := [0x58, 0x4D, 0x50, 0x20]
  const VP8X: Bytes := [0x56, 0x50, 0x38, 0x58]
  const VP8: Bytes := [0x56, 0x50, 0x38, 0x20]
  const VP8L: Bytes := [0x56, 0x50, 0x38, 0x4C]

  /** Header, data and, for an odd size, one byte of padding. */
  function Padded(s: Bytes): nat
    requires |s| >= 8
  {
    var size := Little32(s[4..8]);
    8 + size + size % 2
  }

  /** The chunks; the last one may be cut, and fewer than eight bytes at the end are no chunk. */
  function Chunks(s: Bytes): seq<Bytes>
    decreases |s|
  {
    if |s| < 8 then [] else [Take(s, Padded(s))] + Chunks(Drop(s, Padded(s)))
  }

  predicate Keep(c: Bytes) {
    |c| >= 4 && c[..4] != EXIF && c[..4] != XMP
  }

  /** `b & ~0x0C`. */
  function Cleared(b: Byte): Byte {
    var n: int := b;
    (n - n / 4 % 4 * 4) as Byte
  }

  /** The metadata flags of the extended header cleared. */
  function Clean(c: Bytes): Bytes {
    if |c| >= 9 && c[..4] == VP8X then c[8 := Cleared(c[8])] else c
  }

  function CleanAll(cs: seq<Bytes>): seq<Bytes> {
    if cs == [] then [] else [Clean(cs[0])] + CleanAll(cs[1..])
  }

  /** What stays of the chunks. */
  function Remains(s: Bytes): seq<Bytes> {
    CleanAll(Kept(Chunks(s), Keep))
  }

  function Body(s: Bytes): Bytes {
    WEBP + Concat(Remains(s))
  }

  /** `_strip_webp`; none when the length does not fit its field. */
  function Strip(data: Bytes): Option<Stripped>
    requires |data| >= 12
  {
    var body := Body(data[12..]);
    if |body| >= 0x1_0000_0000 then None
    else
      KeptMembers(Chunks(data[12..]), Keep);
      Some(Stripped(RIFF + Pack32(|body|) + body, |Chunks(data[12..])| - |Kept(Chunks(data[12..]), Keep)|))
  }

  // ---------------------------------------------------------------- parsing and printing

  predicate IsChunk(c: Bytes, last: bool) {
    |c| >= 8 && (|c| == Padded(c) || (last && |c| < Padded(c)))
  }

  predicate IsFile(cs: seq<Bytes>) {
    forall i :: 0 <= i < |cs| ==> IsChunk(cs[i], i == |cs| - 1)
  }

  lemma FileCons(c: Bytes, rest: seq<Bytes>)
    requires IsFile(rest) && IsChunk(c, rest == [])
    ensures IsFile([c] + rest)
  {
    hide IsChunk;
    var cs := [c] + rest;
    forall i | 0 <= i < |cs| ensures IsChunk(cs[i], i == |cs| - 1) {
      if i > 0 {
        assert cs[i] == rest[i - 1];
      }
    }
  }

  lemma FileTail(cs: seq<Bytes>)
    requires IsFile(cs) && cs != []
    ensures IsChunk(cs[0], |cs| == 1) && IsFile(cs[1..])
  {
    hide IsChunk;
    assert forall i :: 0 <= i < |cs| - 1 ==> cs[1..][i] == cs[i + 1];
  }

  lemma NoChunks()
    ensures IsFile([]) && Chunks([]) == []
  {
  }

  lemma CutChunk(s: Bytes)
    requires |s| >= 8
    ensures var c, rest := Take(s, Padded(s)), Drop(s, Padded(s));
            c + rest == s && IsChunk(c, rest == []) && IsChunk(c, true) && c[..8] == s[..8]
  {
    var c := Take(s, Padded(s));
    assert c[4..8] == s[4..8];
  }

  lemma CompleteMayBeLast(c: Bytes)
    ensures IsChunk(c, false) ==> IsChunk(c, true)
  {
  }

  lemma {:induction false} ChunksAreFile(s: Bytes)
    ensures IsFile(Chunks(s))
    decreases |s|
  {
    hide IsFile, IsChunk, Padded;
    if |s| < 8 {
      NoChunks();
    } else {
      var rest := Drop(s, Padded(s));
      CutChunk(s);
      PaddedPositive(s);
      ChunksAreFile(rest);
      assert rest == [] ==> Chunks(rest) == [];
      FileCons(Take(s, Padded(s)), Chunks(rest));
    }
  }

  lemma PaddedPositive(s: Bytes)
    requires |s| >= 8
    ensures Padded(s) >= 8
  {
  }

  lemma FrontChunk(c: Bytes, rest: Bytes)
    requires IsChunk(c, rest == [])
    ensures Chunks(c + rest) == [c] + Chunks(rest)
  {
    var s := c + rest;
    assert s[4..8] == c[4..8];
    assert Take(s, Padded(s)) == c && Drop(s, Padded(s)) == rest;
  }

  lemma {:induction false} ChunksReadBack(cs: seq<Bytes>)
    requires IsFile(cs)
    ensures Chunks(Concat(cs)) == cs
    decreases |cs|
  {
    hide IsFile, Padded, Chunks;
    if cs == [] {
      NoChunks();
    } else {
      FileTail(cs);
      var c, tail := cs[0], cs[1..];
      ChunksReadBack(tail);
      if tail != [] {
        FileTail(tail);
      }
      CompleteMayBeLast(c);
      FrontChunk(c, Concat(tail));
      assert cs == [c] + tail;
    }
  }

  lemma {:induction false} KeptIsFile(cs: seq<Bytes>)
    requires IsFile(cs)
    ensures IsFile(Kept(cs, Keep))
    decreases |cs|
  {
    hide IsFile, IsChunk, Keep;
    if cs == [] {
      NoChunks();
    } else {
      FileTail(cs);
      var c, rest := cs[0], Kept(cs[1..], Keep);
      KeptIsFile(cs[1..]);
      CompleteMayBeLast(c);
      assert |cs| == 1 ==> rest == [];
      if IsChunk(c, rest == []) {
        FileCons(c, rest);
      }
      assert Kept(cs, Keep) == if Keep(c) then [c] + rest else rest by { assert [] + rest == rest; }
    }
  }

  // ---------------------------------------------------------------- clearing the flags

  lemma ClearedTwice(b: Byte)
    ensures Cleared(Cleared(b)) == Cleared(b)
  {
    var n: int := b;
    var q, r := n / 16, n % 4;
    assert n == 16 * q + 4 * (n / 4 % 4) + r;
    assert Cleared(b) as int == 16 * q + r;
  }

  lemma CleanChunk(c: Bytes, last: bool)
    requires |c| >= 8
    ensures |Clean(c)| == |c| && Clean(c)[..8] == c[..8] && Clean(Clean(c)) == Clean(c)
    ensures forall i :: 0 <= i < |c| && i != 8 ==> Clean(c)[i] == c[i]
    ensures IsChunk(c, last) ==> IsChunk(Clean(c), last)
    ensures Keep(Clean(c)) == Keep(c)
  {
    hide Cleared, Little32;
    var d := Clean(c);
    assert d[..8] == c[..8];
    assert d[..4] == d[..8][..4] && c[..4] == c[..8][..4];
    assert d[4..8] == d[..8][4..8] && c[4..8] == c[..8][4..8];
    if d != c {
      ClearedTwice(c[8]);
      assert Clean(d) == d;
    }
  }

  lemma {:induction false} CleanAllIsFile(cs: seq<Bytes>)
    requires IsFile(cs)
    ensures IsFile(CleanAll(cs)) && |CleanAll(cs)| == |cs| && CleanAll(CleanAll(cs)) == CleanAll(cs)
    ensures Kept(cs, Keep) == cs ==> Kept(CleanAll(cs), Keep) == CleanAll(cs)
    decreases |cs|
  {
    hide IsFile, IsChunk, Keep, Clean;
    if cs == [] {
      NoChunks();
    } else {
      FileTail(cs);
      var c, tail := cs[0], cs[1..];
      ChunkSize(c, |cs| == 1);
      CleanAllIsFile(tail);
      CleanChunk(c, |cs| == 1);
      FileCons(Clean(c), CleanAll(tail));
      assert CleanAll(cs)[1..] == CleanAll(tail);
      if Kept(cs, Keep) == cs {
        KeptTail(cs);
      }
    }
  }

  lemma ChunkSize(c: Bytes, last: bool)
    requires IsChunk(c, last)
    ensures |c| >= 8
  {
  }

  lemma KeptTail(cs: seq<Bytes>)
    requires cs != [] && Kept(cs, Keep) == cs
    ensures Keep(cs[0]) && Kept(cs[1..], Keep) == cs[1..]
  {
    hide Keep;
    KeptMembers(cs, Keep);
    assert cs[0] in cs;
    assert Kept(cs, Keep) == [cs[0]] + Kept(cs[1..], Keep);
    assert ([cs[0]] + Kept(cs[1..], Keep))[1..] == Kept(cs[1..], Keep);
  }

  // ---------------------------------------------------------------- stripping

  lemma RemainsReadBack(s: Bytes)
    ensures var kept := Remains(s);
            Chunks(Concat(kept)) == kept && Kept(kept, Keep) == kept && CleanAll(kept) == kept
  {
    hide Chunks, Keep, IsFile, CleanAll;
    var cs := Chunks(s);
    ChunksAreFile(s);
    KeptIsFile(cs);
    KeptMembers(cs, Keep);
    CleanAllIsFile(Kept(cs, Keep));
    ChunksReadBack(Remains(s));
  }

  /** The header of a stripped image: the marks of the container and its true length. */
  lemma StripHeader(data: Bytes)
    requires |data| >= 12 && Strip(data).Some?
    ensures var out := Strip(data).value.bytes;
            && |out| >= 12 && out[..4] == RIFF && out[8..12] == WEBP && Little32(out[4..8]) + 8 == |out|
            && out[12..] == Concat(Remains(data[12..]))
  {
    hide Remains, Little32, Concat, Pack32;
    var body := Body(data[12..]);
    var out := Strip(data).value.bytes;
    PackReadsBack(|body|);
    assert out == RIFF + Pack32(|body|) + WEBP + Concat(Remains(data[12..]));
    assert out[4..8] == Pack32(|body|);
  }

  /** The result reads as what remained of the chunks; stripping again removes nothing and changes no byte. */
  lemma StripIsIdempotent(data: Bytes)
    requires |data| >= 12 && Strip(data).Some?
    ensures var out := Strip(data).value.bytes;
            |out| >= 12 && Strip(out) == Some(Stripped(out, 0)) && Chunks(out[12..]) == Remains(data[12..])
  {
    hide Chunks, CleanAll, Concat, Pack32, Little32, Keep;
    StripHeader(data);
    RemainsReadBack(data[12..]);
  }

  // ---------------------------------------------------------------- size

  /** `int.from_bytes(data[i:j], "little")`. */
  function Little(data: Bytes, i: nat, j: nat): nat
    requires i <= j
    decreases j - i
  {
    if i == j || i >= |data| then 0 else Num(data[i]) + 256 * Little(data, i + 1, j)
  }

  /** `image_size` of a WebP: by the kind of its first chunk. */
  function Size(data: Bytes): Option<(nat, nat)>
    requires |data| >= 12
  {
    if |data| < 16 then None
    else if data[12..16] == VP8X then Some((Little(data, 24, 27) + 1, Little(data, 27, 30) + 1))
    else if data[12..16] == VP8 then
      if |data| >= 30 && data[23..26] == [0x9D, 0x01, 0x2A]
      then Some((Little(data, 26, 28) % 0x4000, Little(data, 28, 30) % 0x4000))
      else None
    else if data[12..16] == VP8L then
      if |data| >= 21 && data[20] == 0x2F
      then var bits := Little(data, 21, 25); Some((bits % 0x4000 + 1, bits / 0x4000 % 0x4000 + 1))
      else None
    else None
  }

  predicate ImageType(kind: Bytes) {
    kind == VP8X || kind == VP8 || kind == VP8L
  }

  /**
   * The first chunk holds the bytes its size is read from; or nothing follows it; or it is so short that they lie in
   * the first eight bytes of the next chunk, whose type is then that of no metadata.
   */
  predicate HoldsSize(data: Bytes)
    requires |data| >= 12
  {
    |data| >= 20 &&
    var s := data[12..];
    var c := Take(s, Padded(s));
    c == s || LongHeader(s[..4], |c|)
  }

  predicate LongHeader(kind: Bytes, n: nat) {
    n >= (if kind == VP8L then 13 else 18) || (kind == VP8 && n < 12)
  }

  lemma {:induction false} LittleSame(a: Bytes, b: Bytes, i: nat, j: nat)
    requires i <= j <= |a| && j <= |b| && forall k :: i <= k < j ==> a[k] == b[k]
    ensures Little(a, i, j) == Little(b, i, j)
    decreases j - i
  {
    if i < j {
      LittleSame(a, b, i + 1, j);
    }
  }

  /** An image chunk that comes first stays first, with the same bytes but for the flags of an extended header. */
  lemma FirstStays(s: Bytes)
    requires |s| >= 8 && (s[..4] == VP8X || s[..4] == VP8 || s[..4] == VP8L)
    ensures var c, out := Take(s, Padded(s)), Concat(Remains(s));
            |c| <= |out| && |c| <= |s| && out[..4] == s[..4]
            && (forall i :: 0 <= i < |c| && i != 8 ==> out[i] == s[i])
            && (s[..4] != VP8X && |c| > 8 ==> out[8] == s[8])
  {
    hide Little32, Cleared;
    var c := Take(s, Padded(s));
    CutChunk(s);
    assert c[..4] == c[..8][..4] == s[..8][..4] == s[..4];
    assert Keep(c);
    CleanChunk(c, true);
    var cs := Chunks(s);
    assert cs[0] == c;
    var kept := Kept(cs, Keep);
    assert kept[0] == c;
    var out := Concat(Remains(s));
    assert out == Clean(c) + Concat(Remains(s)[1..]);
    assert out[..4] == Clean(c)[..8][..4];
    assert forall i :: 0 <= i < |c| ==> c[i] == s[i];
  }

  lemma SizeShape(data: Bytes, out: Bytes, k: nat)
    requires |data| >= 20 && |out| >= 20 && 13 <= k && 12 + k <= |data| && 12 + k <= |out|
    requires data[12..16] == out[12..16]
    requires forall i :: 12 <= i < 12 + k && i != 20 ==> out[i] == data[i]
    requires data[12..16] != VP8X ==> out[20] == data[20]
    requires data[12..16] != VP8L ==> k >= 18
    ensures Size(out) == Size(data)
  {
    if data[12..16] == VP8X {
      LittleSame(data, out, 24, 27);
      LittleSame(data, out, 27, 30);
    } else if data[12..16] == VP8L {
      LittleSame(data, out, 21, 25);
    } else if data[12..16] == VP8 {
      LittleSame(data, out, 26, 28);
      LittleSame(data, out, 28, 30);
      assert data[23..26] == out[23..26];
    }
  }

  /** Nothing but the flags changes in a file of one chunk. */
  lemma OneChunk(data: Bytes)
    requires |data| >= 20 && Strip(data).Some? && Size(data).Some? && Take(data[12..], Padded(data[12..])) == data[12..]
    ensures var out := Strip(data).value.bytes; |out| >= 12 && Size(out) == Size(data)
  {
    hide Little32, Pack32, Cleared, Little;
    var s, out := data[12..], Strip(data).value.bytes;
    StripHeader(data);
    CutChunk(s);
    AfterLast(s, []);
    assert s + [] == s && out[12..] == Clean(s);
    CleanChunk(s, true);
    assert |out| == |data|;
    assert forall i :: 12 <= i < |out| ==> out[i] == Clean(s)[i - 12] && data[i] == s[i - 12];
    SameSize(data, out);
  }

  /** A chunk of an image with fewer than eight bytes after it is all that remains. */
  lemma AfterLast(c: Bytes, tail: Bytes)
    requires IsChunk(c, tail == []) && ImageType(c[..4]) && |tail| < 8
    ensures Remains(c + tail) == [Clean(c)] && Concat(Remains(c + tail)) == Clean(c)
  {
    hide Padded, Clean;
    FrontChunk(c, tail);
    assert Chunks(tail) == [] && [c] + [] == [c];
    assert Kept([c], Keep) == [c] by { assert [c][1..] == []; }
    assert CleanAll([c]) == [Clean(c)] by { assert [c][1..] == []; }
    assert Concat([Clean(c)]) == Clean(c) by { assert [Clean(c)][1..] == []; }
  }

  lemma SameSize(data: Bytes, out: Bytes)
    requires |data| == |out| >= 20 && forall i :: 12 <= i < |out| && i != 20 ==> out[i] == data[i]
    requires data[12..16] != VP8X && |data| > 20 ==> out[20] == data[20]
    ensures Size(out) == Size(data)
  {
    hide Little;
    assert data[12..16] == out[12..16];
    LittleSuffix(data, out, 21, 25);
    LittleSuffix(data, out, 24, 27);
    LittleSuffix(data, out, 27, 30);
    LittleSuffix(data, out, 26, 28);
    LittleSuffix(data, out, 28, 30);
    if |data| >= 30 && data[12..16] == VP8 {
      assert data[23..26] == out[23..26];
    }
  }

  lemma {:induction false} LittleSuffix(a: Bytes, b: Bytes, i: nat, j: nat)
    requires i <= j && |a| == |b| && forall k :: i <= k < |a| ==> a[k] == b[k]
    ensures Little(a, i, j) == Little(b, i, j)
    decreases j - i
  {
    if i < j {
      LittleSuffix(a, b, i + 1, j);
    }
  }

  lemma StripKeepsSize(data: Bytes)
    requires |data| >= 12 && Strip(data).Some? && Size(data).Some? && HoldsSize(data)
    ensures |Strip(data).value.bytes| >= 12 && Size(Strip(data).value.bytes) == Size(data)
  {
    hide Chunks, CleanAll, Concat, Pack32, Little32, Keep, Kept, Strip, Little, Remains;
    var s, out := data[12..], Strip(data).value.bytes;
    var c := Take(s, Padded(s));
    StripHeader(data);
    if c == s {
      OneChunk(data);
    } else {
      assert s[..4] == data[12..16] && s[4..8] == data[16..20];
      FirstStays(s);
      var k := if |c| < 12 then 18 else |c|;
      if |c| < 12 {
        SecondStays(data);
      }
      var rest := out[12..];
      assert forall i :: 12 <= i < |out| ==> out[i] == rest[i - 12];
      assert forall i :: 12 <= i < |data| ==> data[i] == s[i - 12];
      assert out[12..16] == rest[..4];
      SizeShape(data, out, k);
    }
  }

  /** After a chunk of at most two bytes of data, the size lies in the header of the next chunk, which stays. */
  lemma SecondStays(data: Bytes)
    requires |data| >= 30 && data[12..16] == VP8 && data[23..26] == [0x9D, 0x01, 0x2A]
    requires |Take(data[12..], Padded(data[12..]))| < 12
    ensures var s := data[12..];
            |Concat(Remains(s))| >= 18 && Concat(Remains(s))[..18] == s[..18]
  {
    hide Little32, Cleared, Chunks, Keep, Clean, Remains, Concat;
    var s := data[12..];
    var c, rest := Take(s, Padded(s)), Drop(s, Padded(s));
    CutChunk(s);
    assert |c| == 8 || |c| == 10;
    assert c[..4] == c[..8][..4] == s[..8][..4] == data[12..16] == VP8;
    assert forall i :: 0 <= i < |rest| ==> rest[i] == s[|c| + i];
    assert s[11] == data[23..26][0] && s[12] == data[23..26][1] && s[13] == data[23..26][2];
    var d := Take(rest, Padded(rest));
    CutChunk(rest);
    assert rest[..4] == d[..8][..4] == d[..4];
    LongSecond(rest, |c|);
    PlainChunk(c);
    MarkIsPlain(d, |c|);
    NextChunk(s);
    NextChunk(rest);
    assert c + d <= s;
    TwoRemain(s, c, d);
  }

  lemma PlainChunk(c: Bytes)
    requires |c| >= 4 && c[..4] == VP8
    ensures Keep(c) && Clean(c) == c
  {
  }

  /** A chunk whose type overlaps the mark of a lossy image is none of the named ones. */
  lemma MarkIsPlain(d: Bytes, n: nat)
    requires |d| >= 4 && ((n == 8 && d[3] == 0x9D) || (n == 10 && d[1] == 0x9D))
    ensures Keep(d) && Clean(d) == d
  {
    assert d[..4][1] == d[1] && d[..4][3] == d[3];
  }

  lemma LongSecond(rest: Bytes, n: nat)
    requires |rest| >= 8 && n + |rest| >= 18
    requires n == 10 || (n == 8 && rest[4] == 0x01 && rest[5] == 0x2A)
    ensures n + |Take(rest, Padded(rest))| >= 18
  {
  }

  lemma TwoRemain(s: Bytes, c: Bytes, d: Bytes)
    requires |s| >= 8 && Chunks(s) == [c] + Chunks(Drop(s, Padded(s)))
    requires |Drop(s, Padded(s))| >= 8 && Chunks(Drop(s, Padded(s)))[0] == d
    requires Keep(c) && Keep(d) && Clean(c) == c && Clean(d) == d
    requires c + d <= s && |c + d| >= 18
    ensures |Concat(Remains(s))| >= 18 && Concat(Remains(s))[..18] == s[..18]
  {
    hide Padded, Clean, Keep;
    var cs := Chunks(s);
    assert cs[0] == c && cs[1] == d && cs[1..][0] == d;
    var kept := Kept(cs, Keep);
    assert kept == [c] + Kept(cs[1..], Keep);
    assert kept[1] == d && kept[1..][0] == d;
    var clean := CleanAll(kept);
    assert clean[0] == c && clean[1..] == CleanAll(kept[1..]) && clean[1..][0] == d;
    assert Concat(clean) == c + (d + Concat(clean[1..][1..]));
    assert Concat(clean) == (c + d) + Concat(clean[1..][1..]);
    assert Concat(clean)[..18] == (c + d)[..18] == s[..18];
  }

  // ---------------------------------------------------------------- which headers hold their size

  /** A file that can be stripped and whose size is defined. */
  predicate Sized(data: Bytes) {
    |data| >= 12 && Strip(data).Some? && Size(data).Some?
  }

  predicate KeepsSize(data: Bytes) {
    |data| >= 12 && Strip(data).Some? && |Strip(data).value.bytes| >= 12
    && Size(Strip(data).value.bytes) == Size(data)
  }

  /**
   * Given one file with a size, that begins with the chunk `c`: all such files keep their size exactly when `c` is
   * long enough, or, for the lossy format, very short.
   */
  lemma HeaderHoldsSizeIff(start: Bytes, c: Bytes, tail: Bytes)
    requires |start| == 12 && IsChunk(c, false) && Sized(start + (c + tail))
    ensures (forall more: Bytes :: Sized(start + (c + more)) ==> KeepsSize(start + (c + more)))
       <==> LongHeader(c[..4], |c|)
  {
    hide Strip, Size, Little32, LongHeader;
    assert (start + (c + tail))[12..16] == c[..4];
    if LongHeader(c[..4], |c|) {
      forall more: Bytes | Sized(start + (c + more)) ensures KeepsSize(start + (c + more)) {
        var data := start + (c + more);
        var s := data[12..];
        assert s == c + more && s[4..8] == c[4..8] && s[..4] == c[..4];
        assert Take(s, Padded(s)) == c;
        StripKeepsSize(data);
      }
    } else {
      ShortHeader(start, c, tail);
    }
  }

  /** Too few bytes to be a chunk: they are dropped. */
  function Remnant(kind: Bytes): Bytes {
    if kind == VP8L then [0x2F] else [0x01, 0x2A, 1, 1, 1, 1]
  }

  lemma ShortHeader(start: Bytes, c: Bytes, tail: Bytes)
    requires |start| == 12 && IsChunk(c, false) && Sized(start + (c + tail)) && !LongHeader(c[..4], |c|)
    ensures var data := start + (c + Remnant(c[..4])); Sized(data) && !KeepsSize(data)
  {
    hide Little32, Little, Clean, Size, LongHeader, Strip, IsChunk;
    ChunkSize(c, false);
    var n := 12 + |c|;
    var before, data := start + (c + tail), start + (c + Remnant(c[..4]));
    assert before[12..16] == c[..4] == data[12..16];
    SizeHasType(before);
    ShortRemnant(c);
    LeftAlone(start, c, Remnant(c[..4]));
    var out := Strip(data).value.bytes;
    assert forall i :: 12 <= i < n ==> data[i] == before[i] == c[i - 12];
    assert forall i :: n <= i < |data| ==> data[i] == Remnant(c[..4])[i - n];
    if c[..4] == VP8 {
      ShortLossy(before, data, out, |c|);
    } else if c[..4] == VP8L {
      ShortLossless(before, data, out, |c|);
    } else {
      ShortExtended(data, out, |c|);
    }
  }

  /** What remains of a file of one chunk and a few bytes. */
  lemma LeftAlone(start: Bytes, c: Bytes, rem: Bytes)
    requires |start| == 12 && IsChunk(c, false) && ImageType(c[..4]) && |c| <= 16 && 0 < |rem| < 8
    ensures var data := start + (c + rem);
            && Strip(data).Some?
            && var out := Strip(data).value.bytes;
            && |out| == 12 + |c| && out[12..16] == c[..4]
            && (forall i :: 12 <= i < |out| && i != 20 ==> out[i] == c[i - 12])
            && (c[..4] != VP8X && |out| > 20 ==> out[20] == c[8])
  {
    hide Little32, Pack32, Remains, Clean, Padded;
    var data := start + (c + rem);
    assert data[12..] == c + rem;
    AfterLast(c, rem);
    CleanChunk(c, false);
    assert Strip(data).Some?;
    StripHeader(data);
    var out, clean := Strip(data).value.bytes, Clean(c);
    assert out[12..] == clean;
    assert out[12..16] == clean[..4] == clean[..8][..4] == c[..8][..4] == c[..4];
    assert forall i :: 12 <= i < |out| ==> out[i] == clean[i - 12];
    if c[..4] != VP8X {
      CleanOther(c);
    }
  }

  lemma SizeHasType(data: Bytes)
    requires |data| >= 12 && Size(data).Some?
    ensures |data| >= 16 && ImageType(data[12..16])
  {
  }

  lemma CleanOther(c: Bytes)
    requires |c| >= 4 && c[..4] != VP8X
    ensures Clean(c) == c
  {
  }

  lemma ShortRemnant(c: Bytes)
    requires IsChunk(c, false) && !LongHeader(c[..4], |c|)
    ensures |c| <= 16 && |c| % 2 == 0 && (c[..4] == VP8L ==> |c| <= 12) && (c[..4] == VP8 ==> |c| >= 12)
    ensures 0 < |Remnant(c[..4])| < 8
  {
    hide Little32;
  }

  lemma ShortLossy(before: Bytes, data: Bytes, out: Bytes, n: nat)
    requires 12 <= n <= 16 && n % 2 == 0 && |out| == 12 + n && |data| == |out| + 6 && |before| >= |out|
    requires before[12..16] == data[12..16] == out[12..16] == VP8 && Size(before).Some?
    requires forall i :: 12 <= i < |out| ==> data[i] == before[i]
    requires data[|out|] == 0x01 && data[|out| + 1] == 0x2A
    ensures Size(data).Some? && Size(out).None?
  {
    hide Little;
    var mark := before[23..26];
    assert mark[0] == before[23] && mark[1] == before[24] && mark[2] == before[25];
    assert data[23..26] == [0x9D, 0x01, 0x2A];
  }

  lemma ShortLossless(before: Bytes, data: Bytes, out: Bytes, n: nat)
    requires 8 <= n <= 12 && n % 2 == 0 && |out| == 12 + n && |data| == |out| + 1 && |before| >= |out|
    requires before[12..16] == data[12..16] == out[12..16] == VP8L && Size(before).Some?
    requires forall i :: 12 <= i < |out| ==> data[i] == before[i] == out[i]
    requires data[|out|] == 0x2F
    ensures Size(data).Some? && Size(out) != Size(data)
  {
    hide Little;
    assert data[20] == 0x2F;
    if n > 8 {
      LastByte(data, out);
    }
  }

  /** One more byte, in the width or in the height. */
  lemma LastByte(data: Bytes, out: Bytes)
    requires |out| == 22 || |out| == 24
    requires |data| == |out| + 1 && data[|out|] == 0x2F && forall i :: 21 <= i < |out| ==> out[i] == data[i]
    ensures var a, b := Little(data, 21, 25), Little(out, 21, 25);
            a % 0x4000 != b % 0x4000 || a / 0x4000 % 0x4000 != b / 0x4000 % 0x4000
  {
    if |out| == 22 {
      var b := Num(out[21]);
      assert Little(out, 21, 25) == b by { assert Little(out, 22, 25) == 0; }
      assert Little(data, 22, 25) == 0x2F by { assert Little(data, 23, 25) == 0; }
      assert Little(data, 21, 25) == b + 0x2F00;
    } else {
      var b := Little(out, 21, 24);
      ThreeBytes(out);
      LittleSame(out, data, 21, 24);
      FourBytes(out);
      FourBytes(data);
      HigherBits(b);
    }
  }

  lemma ThreeBytes(data: Bytes)
    requires |data| >= 24
    ensures Little(data, 21, 24) == Num(data[21]) + 256 * (Num(data[22]) + 256 * Num(data[23]))
    ensures Little(data, 21, 24) < 0x100_0000
  {
    assert Little(data, 23, 24) == Num(data[23]) by { assert Little(data, 24, 24) == 0; }
    assert Little(data, 22, 24) == Num(data[22]) + 256 * Num(data[23]);
  }

  lemma FourBytes(data: Bytes)
    requires |data| == 24 || |data| == 25
    ensures Little(data, 21, 25) == Little(data, 21, 24) + 0x100_0000 * (if |data| == 25 then Num(data[24]) else 0)
  {
    ThreeBytes(data);
    var last := if |data| == 25 then Num(data[24]) else 0;
    assert Little(data, 24, 25) == last by { assert Little(data, 25, 25) == 0; }
    assert Little(data, 23, 25) == Num(data[23]) + 256 * last;
    assert Little(data, 22, 25) == Num(data[22]) + 256 * Little(data, 23, 25);
  }

  lemma HigherBits(b: nat)
    requires b < 0x100_0000
    ensures (b + 0x100_0000 * 0x2F) / 0x4000 % 0x4000 != b / 0x4000 % 0x4000
  {
    assert (b + 0x100_0000 * 0x2F) / 0x4000 == b / 0x4000 + 0x400 * 0x2F;
    assert b / 0x4000 < 0x400;
  }

  lemma ShortExtended(data: Bytes, out: Bytes, n: nat)
    requires 8 <= n <= 16 && n % 2 == 0 && |out| == 12 + n && |data| == |out| + 6
    requires data[12..16] == out[12..16] == VP8X
    requires forall i :: 12 <= i < |out| && i != 20 ==> data[i] == out[i]
    requires forall i :: |out| <= i < |data| ==> data[i] > 0
    ensures Size(data).Some? && Size(out) != Size(data)
  {
  }

  // ---------------------------------------------------------------- the loops

  /** The chunks of the file, and how many were left out. */
  method SplitChunks(data: Bytes) returns (chunks: seq<Bytes>, removed: nat)
    requires |data| >= 12
    ensures chunks == Kept(Chunks(data[12..]), Keep) && removed == |Chunks(data[12..])| - |chunks|
  {
    hide Chunks, Kept, Padded;
    chunks, removed := [], 0;
    var pos := 12;
    ghost var cs: seq<Bytes> := [];
    assert cs + Chunks(data[12..]) == Chunks(data[12..]);
    assert Kept(cs, Keep) == [] by { NothingKept(); }
    while pos + 8 <= |data|
      invariant 12 <= pos <= |data| && Chunks(data[12..]) == cs + Chunks(data[pos..])
      invariant chunks == Kept(cs, Keep) && removed == |cs| - |chunks|
      decreases |data| - pos
    {
      ghost var s := data[pos..];
      var n := Padded(data[pos..]);
      PaddedPositive(s);
      var c := Take(data[pos..], n);
      NextChunk(s);
      KeptSnoc(cs, c, Keep);
      assert Kept(cs, Keep) + [] == Kept(cs, Keep);
      if Keep(c) {
        chunks := chunks + [c];
      } else {
        removed := removed + 1;
      }
      assert cs + ([c] + Chunks(Drop(s, n))) == cs + [c] + Chunks(Drop(s, n));
      cs := cs + [c];
      pos := if pos + n <= |data| then pos + n else |data|;
      assert Drop(s, n) == data[pos..];
    }
    NextChunk(data[pos..]);
    assert cs + [] == cs;
  }

  lemma NothingKept()
    ensures Kept([], Keep) == []
  {
  }

  lemma NextChunk(s: Bytes)
    ensures Chunks(s) == if |s| < 8 then [] else [Take(s, Padded(s))] + Chunks(Drop(s, Padded(s)))
  {
  }

  lemma {:induction false} CleanAllAt(cs: seq<Bytes>)
    ensures |CleanAll(cs)| == |cs| && forall i :: 0 <= i < |cs| ==> CleanAll(cs)[i] == Clean(cs[i])
  {
    hide Clean;
    if cs != [] {
      CleanAllAt(cs[1..]);
      assert forall i :: 0 < i < |cs| ==> cs[i] == cs[1..][i - 1];
    }
  }

  /** `_strip_webp`: the flags are cleared in place, then the container is written with its length. */
  method StripWebp(data: Bytes) returns (r: Option<Stripped>)
    requires |data| >= 12
    ensures r == Strip(data)
  {
    hide Chunks, Kept, Clean, Concat, CleanAll, Keep, Pack32;
    var chunks, removed := SplitChunks(data);
    ghost var kept := chunks;
    CleanAllAt(kept);
    for i := 0 to |chunks|
      invariant |chunks| == |kept|
      invariant (forall k :: 0 <= k < i ==> chunks[k] == Clean(kept[k])) && chunks[i..] == kept[i..]
    {
      assert chunks[i] == chunks[i..][0] == kept[i..][0] == kept[i];
      chunks := chunks[i := Clean(chunks[i])];
    }
    assert chunks == CleanAll(kept);
    var body := WEBP + Concat(chunks);
    if |body| >= 0x1_0000_0000 {
      return None;
    }
    return Some(Stripped(RIFF + Pack32(|body|) + body, removed));
  }
}
