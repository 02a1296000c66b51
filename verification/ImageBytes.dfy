/** Numbers and pieces of a byte string, as the image containers of `evidence_rules.py` use them. */
module ImageBytes {
  import opened Prelude

  type Bytes = seq<Byte>

  /** An image without its metadata, and how many pieces went. */
  datatype Stripped = Stripped(bytes: Bytes, removed: nat)

  function Num(b: Byte): nat {
    b as int
  }

  function Big16(b: Bytes): nat
    requires |b| == 2
  {
    256 * Num(b[0]) + Num(b[1])
  }

  function Big32(b: Bytes): nat
    requires |b| == 4
  {
    256 * (256 * (256 * Num(b[0]) + Num(b[1])) + Num(b[2])) + Num(b[3])
  }

  function Little32(b: Bytes): nat
    requires |b| == 4
  {
    256 * (256 * (256 * Num(b[3]) + Num(b[2])) + Num(b[1])) + Num(b[0])
  }

  /** `struct.pack("<I", n)`. */
  function Pack32(n: nat): (b: Bytes)
    requires n < 0x1_0000_0000
    ensures |b| == 4
  {
    [n % 256, n / 256 % 256, n / 65536 % 256, n / 16777216]
  }

  lemma PackReadsBack(n: nat)
    requires n < 0x1_0000_0000
    ensures Little32(Pack32(n)) == n
  {
    var q1, q2, q3 := n / 256, n / 65536, n / 16777216;
    assert q2 == q1 / 256 && q3 == q2 / 256;
  }

  /** `s[n:]`. */
  function Drop(s: Bytes, n: nat): (rest: Bytes)
    ensures n > 0 && s != [] ==> |rest| < |s|
  {
    if n <= |s| then s[n..] else []
  }

  function Concat(parts: seq<Bytes>): Bytes {
    if parts == [] then [] else parts[0] + Concat(parts[1..])
  }

  lemma {:induction false} ConcatSnoc(parts: seq<Bytes>, last: Bytes)
    ensures Concat(parts + [last]) == Concat(parts) + last
  {
    if parts == [] {
      assert [last][1..] == [];
      assert last + [] == last && [] + last == last;
    } else {
      ConcatSnoc(parts[1..], last);
      assert (parts + [last])[1..] == parts[1..] + [last];
      assert parts[0] + (Concat(parts[1..]) + last) == (parts[0] + Concat(parts[1..])) + last;
    }
  }

  /** The parts a predicate keeps, in order. */
  function Kept(parts: seq<Bytes>, keep: Bytes -> bool): seq<Bytes> {
    if parts == [] then [] else (if keep(parts[0]) then [parts[0]] else []) + Kept(parts[1..], keep)
  }

  lemma {:induction false} KeptSnoc(parts: seq<Bytes>, last: Bytes, keep: Bytes -> bool)
    ensures Kept(parts + [last], keep) == Kept(parts, keep) + (if keep(last) then [last] else [])
  {
    if parts == [] {
      assert [last][1..] == [];
    } else {
      KeptSnoc(parts[1..], last, keep);
      assert (parts + [last])[1..] == parts[1..] + [last];
    }
  }

  lemma {:induction false} KeptMembers(parts: seq<Bytes>, keep: Bytes -> bool)
    ensures |Kept(parts, keep)| <= |parts|
    ensures forall c <- Kept(parts, keep) :: c in parts && keep(c)
    ensures Kept(Kept(parts, keep), keep) == Kept(parts, keep)
  {
    if parts != [] {
      KeptMembers(parts[1..], keep);
      if keep(parts[0]) {
        assert Kept(parts, keep)[1..] == Kept(parts[1..], keep);
      } else {
        assert Kept(parts, keep) == Kept(parts[1..], keep);
      }
    }
  }
}
