/**
 * `evidence_rules.py`, `_strip_jpeg`: the marker segments of Annex B, section B.1.1 of ITU-T T.81, without
 * application segments other than the first kind and without comments.
 */
module JpegImages {
  import opened Prelude
  import opened ImageBytes

  const EOI: Byte := 0xD9
  const SOS: Byte := 0xDA

  /** Markers without a length. */
  predicate Bare(m: Byte) {
    m == 0x01 || 0xD0 <= m <= 0xD7
  }

  predicate Metadata(m: Byte) {
    0xE1 <= m <= 0xEF || m == 0xFE
  }

  /** `_JPEG_SOF`. */
  predicate Frame(m: Byte) {
    0xC0 <= m <= 0xCF && m != 0xC4 && m != 0xC8 && m != 0xCC
  }

  /** Size of the segment that starts here, from its length field. */
  function SegmentSize(s: Bytes): nat
    requires |s| >= 4
  {
    2 + Big16(s[2..4])
  }

  function Prepend(p: Bytes, rest: Option<seq<Bytes>>): Option<seq<Bytes>> {
    match rest
    case None => None
    case Some(more) => Some([p] + more)
  }

  /** What `_strip_jpeg` reads after the first two bytes: fill bytes skipped, everything from SOS on in one piece. */
  function Pieces(s: Bytes): Option<seq<Bytes>>
    decreases |s|
  {
    if s == [] then Some([])
    else if s[0] != 0xFF || |s| < 2 then None
    else if s[1] == 0xFF then Pieces(s[1..])
    else if Bare(s[1]) then Prepend(s[..2], Pieces(s[2..]))
    else if s[1] == EOI then Some([s[..2]])
    else if |s| < 4 then None
    else if s[1] == SOS then Some([s])
    else Prepend(Take(s, SegmentSize(s)), Pieces(Drop(s, SegmentSize(s))))
  }

  /** A piece; only the last one may be EOI, the scan, or a segment cut by the end of the file. */
  predicate IsPiece(p: Bytes, last: bool) {
    && |p| >= 2 && p[0] == 0xFF && p[1] != 0xFF
    && (if Bare(p[1]) then |p| == 2
        else if p[1] == EOI then last && |p| == 2
        else if p[1] == SOS then last && |p| >= 4
        else |p| >= 4 && SegmentSize(p) >= 4 && (|p| == SegmentSize(p) || (last && |p| < SegmentSize(p))))
  }

  predicate IsFile(ps: seq<Bytes>) {
    forall i :: 0 <= i < |ps| ==> IsPiece(ps[i], i == |ps| - 1)
  }

  predicate Keep(p: Bytes) {
    |p| >= 2 && !Metadata(p[1])
  }

  // ---------------------------------------------------------------- parsing and printing

  lemma FileCons(p: Bytes, rest: seq<Bytes>)
    requires IsFile(rest) && IsPiece(p, rest == [])
    ensures IsFile([p] + rest)
  {
    hide IsPiece;
    var ps := [p] + rest;
    forall i | 0 <= i < |ps| ensures IsPiece(ps[i], i == |ps| - 1) {
      if i > 0 {
        assert ps[i] == rest[i - 1];
      }
    }
  }

  lemma FileTail(ps: seq<Bytes>)
    requires IsFile(ps) && ps != []
    ensures IsPiece(ps[0], |ps| == 1) && IsFile(ps[1..])
  {
    hide IsPiece;
    assert forall i :: 0 <= i < |ps| - 1 ==> ps[1..][i] == ps[i + 1];
  }

  /** A length below two leads to a byte that is no marker. */
  lemma ShortLengthFails(s: Bytes)
    requires |s| >= 4 && s[0] == 0xFF && !Bare(s[1]) && s[1] != 0xFF && s[1] != EOI && s[1] != SOS
    requires SegmentSize(s) < 4
    ensures Pieces(s).None?
  {
    hide Bare;
    var n := SegmentSize(s);
    assert Num(s[2]) == 0 && Num(s[3]) == n - 2;
    var rest := Drop(s, n);
    assert rest == s[n..] && rest[0] == s[n];
    assert Pieces(rest).None?;
  }

  lemma CutSegment(s: Bytes)
    requires |s| >= 4 && SegmentSize(s) >= 4 && s[0] == 0xFF
    requires !Bare(s[1]) && s[1] != 0xFF && s[1] != EOI && s[1] != SOS
    ensures var p, rest := Take(s, SegmentSize(s)), Drop(s, SegmentSize(s));
            p + rest == s && IsPiece(p, rest == []) && p[1] == s[1] && |p| >= 4 && (rest != [] ==> IsPiece(p, false))
  {
    hide Bare;
    var p := Take(s, SegmentSize(s));
    assert p[2..4] == s[2..4];
  }

  lemma {:induction false} PiecesAreFile(s: Bytes)
    requires Pieces(s).Some?
    ensures IsFile(Pieces(s).value)
    decreases |s|, 1
  {
    hide IsFile, Bare, SegmentSize, IsPiece;
    if s == [] {
      assert IsFile([]) by { NoPieces(); }
    } else if s[1] == 0xFF {
      PiecesAreFile(s[1..]);
    } else if Bare(s[1]) {
      PiecesAreFile(s[2..]);
      BarePiece(s[..2], Pieces(s[2..]).value == []);
      FileCons(s[..2], Pieces(s[2..]).value);
    } else if s[1] == EOI || s[1] == SOS {
      EndPiece(s);
    } else {
      SegmentPiece(s);
    }
  }

  lemma NoPieces()
    ensures IsFile([])
  {
  }

  lemma BarePiece(p: Bytes, last: bool)
    requires |p| == 2 && p[0] == 0xFF && Bare(p[1])
    ensures IsPiece(p, last)
  {
  }

  lemma EndPiece(s: Bytes)
    requires |s| >= 2 && s[0] == 0xFF && ((s[1] == EOI) || (s[1] == SOS && |s| >= 4))
    ensures IsFile([if s[1] == EOI then s[..2] else s])
  {
  }

  lemma SegmentPiece(s: Bytes)
    requires |s| >= 4 && s[0] == 0xFF && !Bare(s[1]) && s[1] != 0xFF && s[1] != EOI && s[1] != SOS
    requires Pieces(s).Some?
    ensures IsFile(Pieces(s).value)
    decreases |s|, 0
  {
    hide IsFile, Bare, IsPiece, Big16, Take, Drop;
    if SegmentSize(s) < 4 {
      ShortLengthFails(s);
    } else {
      var p, rest := Take(s, SegmentSize(s)), Drop(s, SegmentSize(s));
      CutSegment(s);
      PiecesAreFile(rest);
      PiecesOfNothing(rest);
      CompleteMayBeLast(p);
      FileCons(p, Pieces(rest).value);
    }
  }

  lemma CompleteMayBeLast(p: Bytes)
    ensures IsPiece(p, false) ==> IsPiece(p, true)
  {
  }

  lemma PiecesOfNothing(s: Bytes)
    ensures s == [] ==> Pieces(s) == Some([])
  {
  }

  /** A complete piece at the front is read as it is. */
  lemma FrontPiece(p: Bytes, rest: Bytes)
    requires IsPiece(p, false)
    ensures Pieces(p + rest) == Prepend(p, Pieces(rest))
  {
    var s := p + rest;
    assert s[0] == p[0] && s[1] == p[1];
    if Bare(p[1]) {
      assert s[..2] == p && s[2..] == rest;
      assert Pieces(s) == Prepend(s[..2], Pieces(s[2..]));
    } else {
      assert s[2..4] == p[2..4];
      assert Take(s, SegmentSize(s)) == p && Drop(s, SegmentSize(s)) == rest;
    }
  }

  /** So is any piece that ends the file. */
  lemma LastPiece(p: Bytes)
    requires IsPiece(p, true)
    ensures Pieces(p) == Some([p])
  {
    assert [p] + [] == [p];
    if Bare(p[1]) {
      assert p[..2] == p && Pieces(p[2..]) == Some([]);
    } else if p[1] == EOI {
      assert p[..2] == p;
    } else if p[1] != SOS {
      assert Take(p, SegmentSize(p)) == p;
      assert Drop(p, SegmentSize(p)) == [] && Pieces([]) == Some([]);
    }
  }

  lemma {:induction false} PiecesReadBack(ps: seq<Bytes>)
    requires IsFile(ps)
    ensures Pieces(Concat(ps)) == Some(ps)
    decreases |ps|
  {
    hide IsFile, IsPiece, Pieces;
    if ps == [] {
      PiecesOfNothing([]);
    } else {
      FileTail(ps);
      var p, tail := ps[0], ps[1..];
      if tail == [] {
        assert Concat(ps) == p + [] == p && ps == [p];
        LastPiece(p);
      } else {
        PiecesReadBack(tail);
        FrontPiece(p, Concat(tail));
        assert ps == [p] + tail;
      }
    }
  }

  lemma {:induction false} KeptIsFile(ps: seq<Bytes>)
    requires IsFile(ps)
    ensures IsFile(Kept(ps, Keep))
    decreases |ps|
  {
    hide IsFile, IsPiece, Keep;
    if ps == [] {
      NoPieces();
    } else {
      FileTail(ps);
      var p, rest := ps[0], Kept(ps[1..], Keep);
      KeptIsFile(ps[1..]);
      CompleteMayBeLast(p);
      assert |ps| == 1 ==> rest == [];
      if IsPiece(p, rest == []) {
        FileCons(p, rest);
      }
      assert Kept(ps, Keep) == if Keep(p) then [p] + rest else rest by { assert [] + rest == rest; }
    }
  }

  // ---------------------------------------------------------------- stripping

  function Strip(data: Bytes): Option<Stripped>
    requires |data| >= 2
  {
    match Pieces(data[2..])
    case None => None
    case Some(ps) =>
      KeptMembers(ps, Keep);
      Some(Stripped(data[..2] + Concat(Kept(ps, Keep)), |ps| - |Kept(ps, Keep)|))
  }

  /** Whether anything of the image is left: the condition for the result still to be one. */
  predicate Survives(data: Bytes)
    requires |data| >= 2
  {
    Pieces(data[2..]).Some? && Kept(Pieces(data[2..]).value, Keep) != []
  }

  /** The result reads as the kept pieces, with their bytes; stripping again removes nothing and changes no byte. */
  lemma StripIsIdempotent(data: Bytes)
    requires |data| >= 2 && Strip(data).Some?
    ensures var out := Strip(data).value.bytes;
            && |out| >= 2 && out[..2] == data[..2] && Strip(out) == Some(Stripped(out, 0))
            && Pieces(out[2..]) == Some(Kept(Pieces(data[2..]).value, Keep))
  {
    hide Pieces, IsFile, Kept, Concat, Keep;
    var ps := Pieces(data[2..]).value;
    PiecesAreFile(data[2..]);
    KeptIsFile(ps);
    KeptMembers(ps, Keep);
    PiecesReadBack(Kept(ps, Keep));
    var out := Strip(data).value.bytes;
    assert out[2..] == Concat(Kept(ps, Keep)) && out[..2] == data[..2];
  }

  /** The result still starts like a JPEG exactly when some piece survives. */
  lemma StartsLikeJpegIff(data: Bytes)
    requires |data| >= 2 && Strip(data).Some?
    ensures var out := Strip(data).value.bytes;
            (|out| >= 3 && out[2] == 0xFF) <==> Survives(data)
  {
    hide Pieces, Keep;
    var ps := Pieces(data[2..]).value;
    var kept := Kept(ps, Keep);
    PiecesAreFile(data[2..]);
    KeptIsFile(ps);
    var out := Strip(data).value.bytes;
    if kept == [] {
      assert out == data[..2] + [];
    } else {
      FileTail(kept);
      assert Concat(kept)[0] == kept[0][0] == 0xFF;
      assert out[2] == Concat(kept)[0];
    }
  }

  // ---------------------------------------------------------------- size

  /** `image_size` from a position on: the first frame header. */
  function SizeFrom(s: Bytes): Option<(nat, nat)>
    decreases |s|
  {
    if |s| < 4 || s[0] != 0xFF then None
    else if s[1] == 0xFF then SizeFrom(s[1..])
    else if Bare(s[1]) then SizeFrom(s[2..])
    else if s[1] == EOI || s[1] == SOS then None
    else if Frame(s[1]) then
      if |s| >= 9 then Some((Big16(s[7..9]), Big16(s[5..7]))) else None
    else SizeFrom(Drop(s, SegmentSize(s)))
  }

  function SizeOf(ps: seq<Bytes>): Option<(nat, nat)> {
    if ps == [] || |ps[0]| < 2 || ps[0][1] == EOI || ps[0][1] == SOS then None
    else if Frame(ps[0][1]) then
      if |ps[0]| >= 9 then Some((Big16(ps[0][7..9]), Big16(ps[0][5..7]))) else None
    else SizeOf(ps[1..])
  }

  /** The first frame header, which the size is read from, holds it. */
  predicate LongFrame(ps: seq<Bytes>) {
    if ps == [] || |ps[0]| < 2 || ps[0][1] == EOI || ps[0][1] == SOS then true
    else if Frame(ps[0][1]) then |ps[0]| >= 9
    else LongFrame(ps[1..])
  }

  lemma LongCons(p: Bytes, rest: seq<Bytes>)
    requires |p| >= 2
    ensures LongFrame([p] + rest) <==>
            (p[1] == EOI || p[1] == SOS || (if Frame(p[1]) then |p| >= 9 else LongFrame(rest)))
  {
    hide Frame;
    assert ([p] + rest)[1..] == rest;
  }

  lemma SizeOfCons(p: Bytes, rest: seq<Bytes>)
    requires |p| >= 2
    ensures SizeOf([p] + rest) ==
            if p[1] == EOI || p[1] == SOS then None
            else if Frame(p[1]) then if |p| >= 9 then Some((Big16(p[7..9]), Big16(p[5..7]))) else None
            else SizeOf(rest)
  {
    hide Frame, Big16;
    assert ([p] + rest)[1..] == rest;
  }

  /** The size read by position is that of the first frame among the pieces. */
  lemma {:induction false} SizeOfPieces(s: Bytes)
    requires Pieces(s).Some? && LongFrame(Pieces(s).value)
    ensures SizeFrom(s) == SizeOf(Pieces(s).value)
    decreases |s|, 1
  {
    hide Frame, Bare, Big16, LongFrame, SegmentSize, Take, Drop, SizeOf;
    if s == [] {
      SizeOfNothing();
    } else if s[1] == 0xFF {
      SizeOfPieces(s[1..]);
      FewAreNoSize(s);
    } else if Bare(s[1]) {
      var rest := Pieces(s[2..]).value;
      BareIsNoFrame(s[1]);
      LongCons(s[..2], rest);
      SizeOfPieces(s[2..]);
      SizeOfCons(s[..2], rest);
      FewAreNoSize(s[2..]);
    } else if s[1] == EOI || s[1] == SOS {
      var p := if s[1] == EOI then s[..2] else s;
      SizeOfCons(p, []);
      assert [p] + [] == [p];
    } else {
      SizeOfSegment(s);
    }
  }

  lemma SizeOfNothing()
    ensures SizeOf([]) == None && SizeFrom([]) == None
  {
  }

  lemma BareIsNoFrame(m: Byte)
    requires Bare(m)
    ensures !Frame(m) && m != EOI && m != SOS
  {
  }

  /** Fewer than four bytes hold no size. */
  lemma FewAreNoSize(s: Bytes)
    ensures |s| < 4 ==> SizeFrom(s) == None
  {
  }

  lemma SizeOfSegment(s: Bytes)
    requires |s| >= 4 && s[0] == 0xFF && !Bare(s[1]) && s[1] != 0xFF && s[1] != EOI && s[1] != SOS
    requires Pieces(s).Some? && LongFrame(Pieces(s).value)
    ensures SizeFrom(s) == SizeOf(Pieces(s).value)
    decreases |s|, 0
  {
    hide Frame, Bare, Big16, LongFrame, SizeOf;
    var n := SegmentSize(s);
    var p, rest := Take(s, n), Drop(s, n);
    LongCons(p, Pieces(rest).value);
    SizeOfCons(p, Pieces(rest).value);
    assert p[1] == s[1];
    if Frame(s[1]) {
      assert p[7..9] == s[7..9] && p[5..7] == s[5..7];
    } else {
      SizeOfPieces(rest);
    }
  }

  /** Dropped segments are neither frames nor the end of the search. */
  lemma {:induction false} KeptSize(ps: seq<Bytes>)
    requires IsFile(ps) && LongFrame(ps)
    ensures SizeOf(Kept(ps, Keep)) == SizeOf(ps) && LongFrame(Kept(ps, Keep))
    decreases |ps|
  {
    hide LongFrame, SizeOf, IsFile, Frame, Metadata;
    if ps == [] {
      assert Kept(ps, Keep) == ps;
    } else {
      var p, rest := ps[0], ps[1..];
      FileTail(ps);
      assert ps == [p] + rest && |p| >= 2;
      LongCons(p, rest);
      LongCons(p, Kept(rest, Keep));
      SizeOfCons(p, rest);
      SizeOfCons(p, Kept(rest, Keep));
      MetadataIsNoFrame(p[1]);
      if p[1] != EOI && p[1] != SOS && !Frame(p[1]) {
        KeptSize(rest);
      }
      assert Kept(ps, Keep) == if Keep(p) then [p] + Kept(rest, Keep) else Kept(rest, Keep) by {
        assert [] + Kept(rest, Keep) == Kept(rest, Keep);
      }
    }
  }

  lemma MetadataIsNoFrame(m: Byte)
    ensures Metadata(m) ==> !Frame(m) && m != EOI && m != SOS
  {
  }

  /** The size is kept when the first frame header is long enough to hold it. */
  lemma StripKeepsSize(data: Bytes)
    requires |data| >= 2 && Strip(data).Some? && LongFrame(Pieces(data[2..]).value)
    ensures SizeFrom(Strip(data).value.bytes[2..]) == SizeFrom(data[2..])
  {
    hide Pieces, Kept, LongFrame, SizeOf, SizeFrom, IsFile, Concat, Keep;
    var ps := Pieces(data[2..]).value;
    PiecesAreFile(data[2..]);
    KeptIsFile(ps);
    PiecesReadBack(Kept(ps, Keep));
    assert Strip(data).value.bytes[2..] == Concat(Kept(ps, Keep));
    KeptSize(ps);
    SizeOfPieces(data[2..]);
    SizeOfPieces(Concat(Kept(ps, Keep)));
  }

  lemma SizeSurvives(data: Bytes)
    requires |data| >= 2 && Strip(data).Some? && SizeFrom(Strip(data).value.bytes[2..]).Some?
    ensures Survives(data)
  {
    hide Kept, Keep, Pieces;
    var kept := Kept(Pieces(data[2..]).value, Keep);
    assert Strip(data).value.bytes[2..] == Concat(kept);
  }

  // ---------------------------------------------------------------- which frame headers hold their size

  /** A file that can be stripped and whose size is defined. */
  predicate Sized(data: Bytes) {
    |data| >= 2 && Strip(data).Some? && SizeFrom(data[2..]).Some?
  }

  predicate KeepsSize(data: Bytes) {
    |data| >= 2 && Strip(data).Some? && SizeFrom(Strip(data).value.bytes[2..]) == SizeFrom(data[2..])
  }

  /** Complete pieces before the first frame header. */
  predicate Leading(front: seq<Bytes>) {
    forall i :: 0 <= i < |front| ==> IsPiece(front[i], false) && !Frame(front[i][1])
  }

  function File(front: seq<Bytes>, p: Bytes, tail: Bytes): Bytes {
    [0xFF, 0xD8] + (Concat(front) + (p + tail))
  }

  /**
   * Exactly the first frame headers of nine bytes or more keep the size whatever follows them: the size in a shorter
   * one is read from the bytes after it, which may be removed.
   */
  lemma FrameHoldsSizeIff(front: seq<Bytes>, p: Bytes)
    requires Leading(front) && IsPiece(p, false) && Frame(p[1])
    ensures (forall tail: Bytes :: Sized(File(front, p, tail)) ==> KeepsSize(File(front, p, tail))) <==> |p| >= 9
  {
    hide Pieces, SizeFrom, LongFrame, IsPiece, Frame, Concat, Kept, Leading;
    if |p| >= 9 {
      forall tail: Bytes | Sized(File(front, p, tail)) ensures KeepsSize(File(front, p, tail)) {
        var data := File(front, p, tail);
        assert data[2..] == Concat(front) + (p + tail);
        LongInFile(front, p, tail);
        StripKeepsSize(data);
      }
    } else {
      ShortFrame(front, p);
    }
  }

  /** The pieces of such a file begin with the leading ones and the frame header. */
  lemma {:induction false} LongInFile(front: seq<Bytes>, p: Bytes, tail: Bytes)
    requires Leading(front) && IsPiece(p, false) && Frame(p[1]) && |p| >= 9
    requires Pieces(Concat(front) + (p + tail)).Some?
    ensures LongFrame(Pieces(Concat(front) + (p + tail)).value)
  {
    hide Pieces, LongFrame, IsPiece, Frame;
    if front == [] {
      assert Concat(front) + (p + tail) == p + tail;
      FrontPiece(p, tail);
      LongCons(p, Pieces(tail).value);
    } else {
      var q, rest := front[0], Concat(front[1..]) + (p + tail);
      assert Concat(front) + (p + tail) == q + rest;
      assert |q| >= 2 by { PieceIsNotEmpty(q); }
      FrontPiece(q, rest);
      assert Leading(front[1..]);
      LongInFile(front[1..], p, tail);
      LongCons(q, Pieces(rest).value);
    }
  }

  lemma PieceIsNotEmpty(p: Bytes)
    requires IsPiece(p, false)
    ensures |p| >= 2 && p[1] != EOI && p[1] != SOS
  {
  }

  /** A complete piece that is no frame header is skipped in the search for the size. */
  lemma SizeAfter(p: Bytes, rest: Bytes)
    requires IsPiece(p, false) && !Frame(p[1])
    ensures SizeFrom(p + rest) == SizeFrom(rest)
  {
    hide Frame;
    var s := p + rest;
    if Bare(p[1]) {
      assert s[2..] == rest;
    } else {
      assert s[2..4] == p[2..4];
      assert Drop(s, SegmentSize(s)) == rest;
    }
  }

  lemma {:induction false} SizeAfterAll(front: seq<Bytes>, rest: Bytes)
    requires Leading(front)
    ensures SizeFrom(Concat(front) + rest) == SizeFrom(rest)
  {
    hide SizeFrom, IsPiece, Frame;
    if front == [] {
      assert Concat(front) + rest == rest;
    } else {
      SizeAfterAll(front[1..], rest);
      assert Concat(front) + rest == front[0] + (Concat(front[1..]) + rest);
      SizeAfter(front[0], Concat(front[1..]) + rest);
    }
  }

  /** A comment segment with five bytes of text. */
  const COMMENT: Bytes := [0xFF, 0xFE, 0, 7, 0, 0, 0, 0, 0]

  /** With a short frame header and only a comment after it, the size is lost with the comment. */
  lemma ShortFrame(front: seq<Bytes>, p: Bytes)
    requires Leading(front) && IsPiece(p, false) && Frame(p[1]) && |p| < 9
    ensures Sized(File(front, p, COMMENT)) && !KeepsSize(File(front, p, COMMENT))
  {
    hide SizeFrom, Pieces, Kept, Concat, Frame, IsPiece;
    var data, ps := File(front, p, COMMENT), front + [p] + [COMMENT];
    var kept := Kept(front, Keep) + [p];
    ConcatSnoc(front, p);
    ConcatSnoc(front + [p], COMMENT);
    assert data[2..] == Concat(ps) by {
      assert data[2..] == Concat(front) + (p + COMMENT) == (Concat(front) + p) + COMMENT;
    }
    CommentIsPiece();
    assert IsFile(ps) by { CompleteMayBeLast(COMMENT); }
    PiecesReadBack(ps);
    KeptSnoc(front, p, Keep);
    KeptSnoc(front + [p], COMMENT, Keep);
    FrameIsKept(p);
    assert Kept(ps, Keep) == kept;
    KeptMembers(front, Keep);
    ConcatSnoc(Kept(front, Keep), p);
    assert Strip(data).value.bytes[2..] == Concat(Kept(front, Keep)) + p;
    SizeAfterAll(front, p + COMMENT);
    KeptLeading(front);
    SizeAfterAll(Kept(front, Keep), p);
    SizeAtFrame(p, COMMENT);
    SizeAtFrame(p, []);
    assert p + [] == p;
  }

  lemma KeptLeading(front: seq<Bytes>)
    requires Leading(front)
    ensures Leading(Kept(front, Keep))
  {
    hide Kept, Keep;
    KeptMembers(front, Keep);
    assert forall i :: 0 <= i < |Kept(front, Keep)| ==> Kept(front, Keep)[i] in front;
  }

  lemma CommentIsPiece()
    ensures IsPiece(COMMENT, false) && !Keep(COMMENT) && |COMMENT| == 9
  {
    assert COMMENT[2..4] == [0, 7];
  }

  lemma FrameIsKept(p: Bytes)
    requires IsPiece(p, false) && Frame(p[1])
    ensures Keep(p)
  {
  }

  lemma SizeAtFrame(p: Bytes, rest: Bytes)
    requires IsPiece(p, false) && Frame(p[1])
    ensures SizeFrom(p + rest).Some? <==> |p + rest| >= 9
  {
    hide Big16, SegmentSize;
  }

  // ---------------------------------------------------------------- the loop

  function PrependAll(ps: seq<Bytes>, rest: Option<seq<Bytes>>): Option<seq<Bytes>> {
    match rest
    case None => None
    case Some(more) => Some(ps + more)
  }

  lemma Onward(ps: seq<Bytes>, p: Bytes, rest: Option<seq<Bytes>>)
    ensures PrependAll(ps, Prepend(p, rest)) == PrependAll(ps + [p], rest)
  {
    if rest.Some? {
      assert ps + ([p] + rest.value) == ps + [p] + rest.value;
    }
  }

  lemma OnePieceMore(start: Bytes, ps: seq<Bytes>, p: Bytes)
    ensures start + Concat(Kept(ps + [p], Keep)) == (start + Concat(Kept(ps, Keep))) + (if Keep(p) then p else [])
    ensures |Kept(ps + [p], Keep)| == |Kept(ps, Keep)| + (if Keep(p) then 1 else 0)
  {
    hide Keep;
    KeptSnoc(ps, p, Keep);
    ConcatSnoc(Kept(ps, Keep), p);
    assert Kept(ps, Keep) + [] == Kept(ps, Keep);
  }

  /** `_strip_jpeg`: none is the refusal of a malformed file. */
  method StripJpeg(data: Bytes) returns (r: Option<Stripped>)
    requires |data| >= 2
    ensures r == Strip(data)
  {
    hide Kept, Concat, Bare, Metadata, Pieces, Big16;
    var out, pos, removed := data[..2], 2, 0;
    ghost var ps: seq<Bytes> := [];
    Begins(data[2..]);
    while pos < |data|
      invariant 2 <= pos <= |data| && Pieces(data[2..]) == PrependAll(ps, Pieces(data[pos..]))
      invariant out == data[..2] + Concat(Kept(ps, Keep)) && removed == |ps| - |Kept(ps, Keep)|
    {
      ghost var s := data[pos..];
      Unread(s);
      if data[pos] != 0xFF || pos + 1 == |data| {
        return None;
      }
      var marker := data[pos + 1];
      if marker == 0xFF {
        pos := pos + 1;
        assert s[1..] == data[pos..];
        continue;
      }
      var n, last;
      if Bare(marker) || marker == EOI {
        n, last := 2, marker == EOI;
      } else if pos + 4 > |data| {
        return None;
      } else if marker == SOS {
        n, last := |data| - pos, true;
      } else {
        assert s[2..4] == data[pos + 2..pos + 4];
        n, last := 2 + Big16(data[pos + 2..pos + 4]), false;
      }
      var p := Take(data[pos..], n);
      ReadPiece(s, n, last);
      OnePieceMore(data[..2], ps, p);
      Onward(ps, p, Pieces(Drop(s, n)));
      if Keep(p) {
        out := out + p;
      } else {
        removed := removed + 1;
      }
      ps := ps + [p];
      if last {
        assert Pieces(data[2..]) == Some(ps) && out == data[..2] + Concat(Kept(ps, Keep));
        return Some(Stripped(out, removed));
      }
      pos := if pos + n <= |data| then pos + n else |data|;
      assert Drop(s, n) == data[pos..];
    }
    PiecesOfNothing(data[pos..]);
    assert data[pos..] == [] && ps + [] == ps;
    return Some(Stripped(out, removed));
  }

  /** What is no piece: fill bytes are skipped, and the rest ends the reading. */
  lemma Unread(s: Bytes)
    requires s != []
    ensures s[0] != 0xFF || |s| < 2 ==> Pieces(s).None?
    ensures s[0] == 0xFF && |s| >= 2 && s[1] == 0xFF ==> Pieces(s) == Pieces(s[1..])
    ensures s[0] == 0xFF && 2 <= |s| < 4 && !Bare(s[1]) && s[1] != EOI && s[1] != 0xFF ==> Pieces(s).None?
  {
    hide Bare, SegmentSize;
  }

  lemma Begins(s: Bytes)
    ensures Kept([], Keep) == [] && Concat([]) == [] && PrependAll([], Pieces(s)) == Pieces(s)
  {
    if Pieces(s).Some? {
      assert [] + Pieces(s).value == Pieces(s).value;
    }
  }

  /** The piece at the front, measured as the loop does. */
  lemma ReadPiece(s: Bytes, n: nat, last: bool)
    requires |s| >= 2 && s[0] == 0xFF && s[1] != 0xFF
    requires if Bare(s[1]) || s[1] == EOI then n == 2 && last == (s[1] == EOI)
             else |s| >= 4 && (if s[1] == SOS then n == |s| && last else n == SegmentSize(s) && !last)
    ensures |Take(s, n)| >= 2
    ensures Pieces(s) == if last then Some([Take(s, n)]) else Prepend(Take(s, n), Pieces(Drop(s, n)))
  {
    hide Bare, Big16;
    assert s[..|s|] == s;
    BareIsNoEnd(s[1]);
  }

  lemma BareIsNoEnd(m: Byte)
    ensures Bare(m) ==> m != EOI
  {
  }
}
