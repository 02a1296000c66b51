/** What stripping removes from an image and what its header says, told by the names and numbers of the formats. */
module ImageMeaning {
  import opened Prelude
  import opened ImageBytes
  import Png = PngImages
  import Jpeg = JpegImages
  import Webp = WebpImages
  import Images

  // ---------------------------------------------------------------- the three kinds

  predicate StartsWith(data: Bytes, start: seq<int>) {
    |data| >= |start| && forall i :: 0 <= i < |start| ==> data[i] as int == start[i]
  }

  /**
   * A PNG starts with its eight bytes, a JPEG with FF D8 FF, a WebP with RIFF and, after the length, WEBP. The size is
   * read and the metadata removed as that kind asks, and any other file is refused.
   */
  lemma KindMeaning(data: Bytes)
    ensures var png := StartsWith(data, [0x89, 0x50, 0x4E, 0x47, 0x0D, 0x0A, 0x1A, 0x0A]);
            var jpeg := StartsWith(data, [0xFF, 0xD8, 0xFF]);
            var webp := IsNamed(data, 0, "RIFF") && IsNamed(data, 8, "WEBP");
            && (Images.ImageKind(data) == Some(Images.PNG) <==> png)
            && (Images.ImageKind(data) == Some(Images.JPEG) <==> jpeg)
            && (Images.ImageKind(data) == Some(Images.WEBP) <==> webp)
            && (png ==> Images.ImageSize(data) == Png.Size(data) && Images.StripMetadata(data) == Png.Strip(data))
            && (jpeg ==>
                 && Images.ImageSize(data) == Jpeg.SizeFrom(data[2..])
                 && Images.StripMetadata(data) == Jpeg.Strip(data))
            && (webp ==> Images.ImageSize(data) == Webp.Size(data) && Images.StripMetadata(data) == Webp.Strip(data))
            && (!png && !jpeg && !webp ==> Images.ImageSize(data).None? && Images.StripMetadata(data).None?)
  {
    if |data| >= 8 {
      assert data[..8] == [data[0], data[1], data[2], data[3], data[4], data[5], data[6], data[7]];
    }
    if |data| >= 12 {
      assert data[..4] == [data[0], data[1], data[2], data[3]];
      assert data[8..12] == [data[8], data[9], data[10], data[11]];
    }
    hide Png.Size, Webp.Size, Jpeg.SizeFrom, Png.Strip, Webp.Strip, Jpeg.Strip;
  }

  // ---------------------------------------------------------------- what is removed

  /** A four-letter name at a position. */
  predicate IsNamed(c: Bytes, at: nat, name: string)
    requires |name| == 4
  {
    && |c| >= at + 4 && c[at] as int == name[0] as int && c[at + 1] as int == name[1] as int
    && c[at + 2] as int == name[2] as int && c[at + 3] as int == name[3] as int
  }

  /** `some` are the parts of `all` that are not metadata: each as often as it was there. */
  ghost predicate OnlyWithout(some: seq<Bytes>, all: seq<Bytes>, metadata: Bytes -> bool) {
    && (forall c <- some :: !metadata(c))
    && forall c :: !metadata(c) ==> multiset(some)[c] == multiset(all)[c]
  }

  lemma {:induction false} KeptIsWithout(parts: seq<Bytes>, keep: Bytes -> bool)
    ensures forall c :: multiset(Kept(parts, keep))[c] == if keep(c) then multiset(parts)[c] else 0
  {
    if parts != [] {
      KeptIsWithout(parts[1..], keep);
      assert parts == [parts[0]] + parts[1..];
    }
  }

  /** Where only metadata is not kept, only metadata goes. */
  lemma FromKept(all: seq<Bytes>, keep: Bytes -> bool, metadata: Bytes -> bool)
    requires forall c <- all :: keep(c) <==> !metadata(c)
    ensures OnlyWithout(Kept(all, keep), all, metadata)
  {
    KeptIsWithout(all, keep);
    KeptMembers(all, keep);
    hide Kept;
    forall c | !metadata(c) ensures multiset(Kept(all, keep))[c] == multiset(all)[c] {
      if c in all {
        assert keep(c);
      } else {
        assert c !in Kept(all, keep);
      }
    }
  }

  predicate PngMetadata(c: Bytes) {
    || IsNamed(c, 4, "tEXt") || IsNamed(c, 4, "iTXt") || IsNamed(c, 4, "zTXt")
    || IsNamed(c, 4, "eXIf") || IsNamed(c, 4, "tIME")
  }

  lemma PngKeeps(c: Bytes)
    requires |c| >= 8
    ensures Png.Keep(c) <==> !PngMetadata(c)
  {
    var t := Png.Type(c);
    assert t == [c[4], c[5], c[6], c[7]];
  }

  /** A stripped PNG has all chunks of the file but texts, Exif and time, and none of these. */
  lemma PngStripMeaning(data: Bytes)
    requires |data| >= 8 && Png.Strip(data).Some?
    ensures var all, out := Png.Chunks(data[8..]).value, Png.Strip(data).value;
            && |out.bytes| >= 8 && out.bytes[..8] == data[..8] && Png.Chunks(out.bytes[8..]).Some?
            && OnlyWithout(Png.Chunks(out.bytes[8..]).value, all, PngMetadata)
            && out.removed == |all| - |Png.Chunks(out.bytes[8..]).value|
  {
    var all := Png.Chunks(data[8..]).value;
    Png.StripIsIdempotent(data);
    Png.ChunksAreFile(data[8..]);
    Removed(data);
    hide Png.Keep, Kept, PngMetadata, Png.Strip, Png.Chunks;
    forall c | c in all ensures Png.Keep(c) <==> !PngMetadata(c) {
      assert Png.IsChunk(c);
      PngKeeps(c);
    }
    FromKept(all, Png.Keep, PngMetadata);
  }

  lemma Removed(data: Bytes)
    requires |data| >= 8 && Png.Strip(data).Some?
    ensures Png.Chunks(data[8..]).Some?
    ensures Png.Strip(data).value.removed ==
            |Png.Chunks(data[8..]).value| - |Kept(Png.Chunks(data[8..]).value, Png.Keep)|
  {
  }

  /** Application segments after the first kind, and comments. */
  predicate JpegMetadata(p: Bytes) {
    |p| >= 2 && (p[1] as int - 0xE0 in {1, 2, 3, 4, 5, 6, 7, 8, 9, 10, 11, 12, 13, 14, 15} || p[1] == 0xFE)
  }

  lemma JpegStripMeaning(data: Bytes)
    requires |data| >= 2 && Jpeg.Strip(data).Some?
    ensures var all, out := Jpeg.Pieces(data[2..]).value, Jpeg.Strip(data).value;
            && |out.bytes| >= 2 && out.bytes[..2] == data[..2] && Jpeg.Pieces(out.bytes[2..]).Some?
            && OnlyWithout(Jpeg.Pieces(out.bytes[2..]).value, all, JpegMetadata)
            && out.removed == |all| - |Jpeg.Pieces(out.bytes[2..]).value|
  {
    var all := Jpeg.Pieces(data[2..]).value;
    Jpeg.StripIsIdempotent(data);
    Jpeg.PiecesAreFile(data[2..]);
    KeptMembers(all, Jpeg.Keep);
    hide Kept, Jpeg.Pieces;
    forall p | p in all ensures Jpeg.Keep(p) <==> !JpegMetadata(p) {
      var i :| 0 <= i < |all| && all[i] == p;
      assert Jpeg.IsPiece(all[i], i == |all| - 1);
    }
    FromKept(all, Jpeg.Keep, JpegMetadata);
    hide Jpeg.Keep, JpegMetadata;
  }

  predicate WebpMetadata(c: Bytes) {
    IsNamed(c, 0, "EXIF") || IsNamed(c, 0, "XMP ")
  }

  lemma WebpKeeps(c: Bytes)
    requires |c| >= 4
    ensures Webp.Keep(c) <==> !WebpMetadata(c)
  {
    var t := c[..4];
    assert t == [c[0], c[1], c[2], c[3]];
  }

  /** The same chunk; in an extended header the flags of Exif (8) and XMP (4) are off and the others as they were. */
  predicate IsCleaned(before: Bytes, after: Bytes) {
    && |after| == |before| && (forall i :: 0 <= i < |before| && i != 8 ==> after[i] == before[i])
    && (|before| > 8 ==>
         if IsNamed(before, 0, "VP8X") then
           && after[8] as int % 4 == before[8] as int % 4 && after[8] as int / 4 % 4 == 0
           && after[8] as int / 16 == before[8] as int / 16
         else after[8] == before[8])
  }

  lemma ClearedBits(b: Byte)
    ensures var n: int, m: int := b as int, Webp.Cleared(b) as int; m % 4 == n % 4 && m / 4 % 4 == 0 && m / 16 == n / 16
  {
    var n: int := b;
    var q, r := n / 16, n % 4;
    assert n == 16 * q + 4 * (n / 4 % 4) + r;
  }

  lemma CleanMeaning(c: Bytes)
    requires |c| >= 4
    ensures IsCleaned(c, Webp.Clean(c))
  {
    var t := c[..4];
    assert t == [c[0], c[1], c[2], c[3]];
    assert t == Webp.VP8X <==> IsNamed(c, 0, "VP8X");
    if |c| > 8 {
      ClearedBits(c[8]);
    }
    hide Webp.Cleared;
  }

  lemma {:induction false} CleanAllAt(cs: seq<Bytes>)
    ensures |Webp.CleanAll(cs)| == |cs| && forall i :: 0 <= i < |cs| ==> Webp.CleanAll(cs)[i] == Webp.Clean(cs[i])
  {
    hide Webp.Clean;
    if cs != [] {
      CleanAllAt(cs[1..]);
    }
  }

  /** What is left of a WebP: the chunks other than Exif and XMP, each as it was but for those two flags. */
  lemma WebpStripMeaning(data: Bytes) returns (left: seq<Bytes>)
    requires |data| >= 12 && Webp.Strip(data).Some?
    ensures var out := Webp.Strip(data).value;
            && OnlyWithout(left, Webp.Chunks(data[12..]), WebpMetadata) && |out.bytes| >= 12
            && var after := Webp.Chunks(out.bytes[12..]);
               && |after| == |left| && (forall i :: 0 <= i < |left| ==> IsCleaned(left[i], after[i]))
               && out.removed == |Webp.Chunks(data[12..])| - |after|
  {
    var all := Webp.Chunks(data[12..]);
    left := Kept(all, Webp.Keep);
    Webp.StripIsIdempotent(data);
    RemovedChunks(data);
    CleanAllAt(left);
    WebpLeft(data[12..]);
    hide Kept, Webp.Chunks, Webp.Clean, Webp.Keep, WebpMetadata, IsCleaned, OnlyWithout, Webp.Strip;
    forall i | 0 <= i < |left| ensures IsCleaned(left[i], Webp.Clean(left[i])) {
      CleanMeaning(left[i]);
    }
  }

  lemma RemovedChunks(data: Bytes)
    requires |data| >= 12 && Webp.Strip(data).Some?
    ensures var all := Webp.Chunks(data[12..]); Webp.Strip(data).value.removed == |all| - |Kept(all, Webp.Keep)|
  {
    hide Webp.Body, Kept, Webp.Chunks;
  }

  lemma WebpLeft(s: Bytes)
    ensures OnlyWithout(Kept(Webp.Chunks(s), Webp.Keep), Webp.Chunks(s), WebpMetadata)
    ensures forall c <- Kept(Webp.Chunks(s), Webp.Keep) :: |c| >= 4
  {
    var all := Webp.Chunks(s);
    Webp.ChunksAreFile(s);
    KeptMembers(all, Webp.Keep);
    hide Kept, Webp.Chunks, Webp.Padded;
    forall c | c in all ensures |c| >= 4 && (Webp.Keep(c) <==> !WebpMetadata(c)) {
      var i :| 0 <= i < |all| && all[i] == c;
      assert Webp.IsChunk(all[i], i == |all| - 1);
      WebpKeeps(c);
    }
    FromKept(all, Webp.Keep, WebpMetadata);
  }

  // ---------------------------------------------------------------- what a header says

  /** A number in `k` bytes, the most significant one first. */
  function BigBytes(n: nat, k: nat): (b: Bytes)
    ensures |b| == k
  {
    if k == 0 then [] else BigBytes(n / 256, k - 1) + [n % 256]
  }

  function LittleBytes(n: nat, k: nat): (b: Bytes)
    ensures |b| == k
  {
    if k == 0 then [] else [n % 256] + LittleBytes(n / 256, k - 1)
  }

  lemma Big2(n: nat)
    ensures BigBytes(n, 2) == [n / 256 % 256, n % 256]
  {
    assert BigBytes(n / 256, 1) == [n / 256 % 256];
  }

  lemma Big4(n: nat)
    ensures var b := n / 256 / 256; BigBytes(n, 4) == [b / 256 % 256, b % 256, n / 256 % 256, n % 256]
  {
    var a, b := n / 256, n / 256 / 256;
    Big2(b);
    assert BigBytes(a, 3) == [b / 256 % 256, b % 256, a % 256];
  }

  lemma BigReadsBack(n: nat)
    ensures n < 0x1_0000 ==> Big16(BigBytes(n, 2)) == n
    ensures n < 0x1_0000_0000 ==> Big32(BigBytes(n, 4)) == n
  {
    hide BigBytes;
    Big2(n);
    Big4(n);
  }

  lemma {:induction false} LittleReadsBack(data: Bytes, i: nat, n: nat, k: nat, limit: nat)
    requires i + k <= |data| && data[i..i + k] == LittleBytes(n, k) && n < limit && limit == Power(k)
    ensures Webp.Little(data, i, i + k) == n
    decreases k
  {
    if k > 0 {
      assert data[i] == data[i..i + k][0];
      assert data[i + 1..i + k] == data[i..i + k][1..] == LittleBytes(n / 256, k - 1);
      LittleReadsBack(data, i + 1, n / 256, k - 1, Power(k - 1));
    }
  }

  function Power(k: nat): nat {
    if k == 0 then 1 else 256 * Power(k - 1)
  }

  /** A PNG whose first chunk is `IHDR` has the width and the height that stand there. */
  lemma PngSizeReadsBack(data: Bytes, width: nat, height: nat)
    requires width < 0x1_0000_0000 && height < 0x1_0000_0000 && |data| >= 24 && IsNamed(data, 12, "IHDR")
    requires data[16..20] == BigBytes(width, 4) && data[20..24] == BigBytes(height, 4)
    ensures Png.Size(data) == Some((width, height))
  {
    BigReadsBack(width);
    BigReadsBack(height);
    assert data[12..16] == [data[12], data[13], data[14], data[15]];
  }

  /** Frame headers: the markers C0 to CF but for C4, C8 and CC. */
  predicate IsFrame(p: Bytes) {
    && |p| >= 2
    && p[1] in {0xC0, 0xC1, 0xC2, 0xC3, 0xC5, 0xC6, 0xC7, 0xC9, 0xCA, 0xCB, 0xCD, 0xCE, 0xCF}
  }

  /** A JPEG has the size of its first frame header, where the height stands before the width. */
  lemma {:induction false} JpegSizeReadsBack(ps: seq<Bytes>, k: nat, width: nat, height: nat)
    requires k < |ps| && width < 0x1_0000 && height < 0x1_0000
    requires forall i :: 0 <= i < k ==> |ps[i]| >= 2 && !IsFrame(ps[i]) && ps[i][1] != 0xD9 && ps[i][1] != 0xDA
    requires IsFrame(ps[k]) && |ps[k]| >= 9
    requires ps[k][5..7] == BigBytes(height, 2) && ps[k][7..9] == BigBytes(width, 2)
    ensures Jpeg.SizeOf(ps) == Some((width, height))
    decreases k
  {
    if k == 0 {
      BigReadsBack(width);
      BigReadsBack(height);
    } else {
      assert |ps[0]| >= 2 && !IsFrame(ps[0]);
      JpegSizeReadsBack(ps[1..], k - 1, width, height);
    }
  }

  /** Without a frame header, or with a scan or the end before the first, there is no size. */
  lemma {:induction false} JpegWithoutSize(ps: seq<Bytes>, k: nat)
    requires k <= |ps| && forall i :: 0 <= i < k ==> !IsFrame(ps[i])
    requires k < |ps| ==> |ps[k]| >= 2 && ps[k][1] in {0xD9, 0xDA}
    ensures Jpeg.SizeOf(ps).None?
    decreases k
  {
    if k > 0 {
      assert !IsFrame(ps[0]);
      JpegWithoutSize(ps[1..], k - 1);
    }
  }

  /**
   * A segment: the marker alone, for TEM, the restart markers and, at the end, EOI; at the end also a scan or what a
   * file that breaks off has left; otherwise the marker, a length of at least 2, and as many bytes as it says.
   */
  predicate IsSegment(p: Bytes, last: bool) {
    && |p| >= 2 && p[0] == 0xFF && p[1] != 0xFF
    && (if p[1] in {0x01, 0xD0, 0xD1, 0xD2, 0xD3, 0xD4, 0xD5, 0xD6, 0xD7} then |p| == 2
        else if p[1] == 0xD9 then last && |p| == 2
        else
          && |p| >= 4
          && (if p[1] == 0xDA then last
              else
                var n := 256 * p[2] as int + p[3] as int;
                n >= 2 && (|p| == 2 + n || (last && |p| < 2 + n))))
  }

  /** After segments that are no frame headers, bytes that are no marker, or too few, give no size. */
  lemma {:induction false} JpegSizeStops(ps: seq<Bytes>, rest: Bytes)
    requires forall i :: 0 <= i < |ps| ==> IsSegment(ps[i], false) && !IsFrame(ps[i])
    requires |rest| < 4 || rest[0] != 0xFF
    ensures Jpeg.SizeFrom(Concat(ps) + rest).None?
    decreases |ps|
  {
    if ps == [] {
      assert Concat(ps) + rest == rest;
    } else {
      var p, more := ps[0], Concat(ps[1..]) + rest;
      assert IsSegment(p, false) && !IsFrame(p);
      JpegSizeStops(ps[1..], rest);
      assert Concat(ps) + rest == p + more;
      SizePasses(p, more);
    }
  }

  lemma SizePasses(p: Bytes, more: Bytes)
    requires IsSegment(p, false) && !IsFrame(p) && Jpeg.SizeFrom(more).None?
    ensures Jpeg.SizeFrom(p + more).None?
  {
    var s := p + more;
    assert s[0] == p[0] && s[1] == p[1];
    if |p| == 2 {
      assert s[2..] == more;
    } else {
      assert s[2..4] == [p[2], p[3]];
      assert Drop(s, |p|) == more;
    }
  }

  /** Segments written one after the other are read back as they were. */
  lemma JpegSegmentsReadBack(ps: seq<Bytes>)
    requires forall i :: 0 <= i < |ps| ==> IsSegment(ps[i], i == |ps| - 1)
    ensures Jpeg.Pieces(Concat(ps)) == Some(ps)
  {
    forall i | 0 <= i < |ps| ensures Jpeg.IsPiece(ps[i], i == |ps| - 1) {
      SegmentIsPiece(ps[i], i == |ps| - 1);
    }
    Jpeg.PiecesReadBack(ps);
  }

  lemma SegmentIsPiece(p: Bytes, last: bool)
    requires IsSegment(p, last)
    ensures Jpeg.IsPiece(p, last)
  {
    if |p| >= 4 {
      assert p[2..4] == [p[2], p[3]];
    }
  }

  /** A chunk type by its letters. */
  lemma FirstType(data: Bytes)
    requires |data| >= 16
    ensures data[12..16] == Webp.VP8X <==> IsNamed(data, 12, "VP8X")
    ensures data[12..16] == Webp.VP8 <==> IsNamed(data, 12, "VP8 ")
    ensures data[12..16] == Webp.VP8L <==> IsNamed(data, 12, "VP8L")
  {
    assert data[12..16] == [data[12], data[13], data[14], data[15]];
  }

  lemma Powers()
    ensures Power(2) == 0x1_0000 && Power(3) == 0x100_0000 && Power(4) == 0x1_0000_0000
  {
    assert Power(0) == 1 && Power(1) == 256;
  }

  /** An extended WebP: 24 bits each, less one. */
  lemma ExtendedSizeReadsBack(data: Bytes, width: nat, height: nat)
    requires |data| >= 30 && IsNamed(data, 12, "VP8X") && 1 <= width <= 0x100_0000 && 1 <= height <= 0x100_0000
    requires data[24..27] == LittleBytes(width - 1, 3) && data[27..30] == LittleBytes(height - 1, 3)
    ensures Webp.Size(data) == Some((width, height))
  {
    hide LittleBytes, Webp.Little, Power;
    Powers();
    FirstType(data);
    LittleReadsBack(data, 24, width - 1, 3, Power(3));
    LittleReadsBack(data, 27, height - 1, 3, Power(3));
  }

  /** A lossy one: 14 bits each, under two bits of scale. */
  lemma LossySizeReadsBack(data: Bytes, width: nat, height: nat, scaleX: nat, scaleY: nat)
    requires |data| >= 30 && IsNamed(data, 12, "VP8 ") && data[23..26] == [0x9D, 0x01, 0x2A]
    requires width < 0x4000 && height < 0x4000 && scaleX < 4 && scaleY < 4
    requires data[26..28] == LittleBytes(width + 0x4000 * scaleX, 2)
    requires data[28..30] == LittleBytes(height + 0x4000 * scaleY, 2)
    ensures Webp.Size(data) == Some((width, height))
  {
    hide LittleBytes, Webp.Little, Power;
    Powers();
    FirstType(data);
    LittleReadsBack(data, 26, width + 0x4000 * scaleX, 2, Power(2));
    LittleReadsBack(data, 28, height + 0x4000 * scaleY, 2, Power(2));
  }

  /** A lossless one: 14 bits each, less one, in one word. */
  lemma LosslessSizeReadsBack(data: Bytes, width: nat, height: nat, high: nat)
    requires |data| >= 25 && IsNamed(data, 12, "VP8L") && data[20] == 0x2F
    requires 1 <= width <= 0x4000 && 1 <= height <= 0x4000 && high < 16
    requires data[21..25] == LittleBytes(width - 1 + 0x4000 * (height - 1 + 0x4000 * high), 4)
    ensures Webp.Size(data) == Some((width, height))
  {
    hide LittleBytes, Webp.Little, Power;
    Powers();
    FirstType(data);
    LittleReadsBack(data, 21, width - 1 + 0x4000 * (height - 1 + 0x4000 * high), 4, Power(4));
  }
}
