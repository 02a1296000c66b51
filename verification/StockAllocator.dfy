/** Ordering of SKUs: the order of the `TreeMap` that groups a command's lines and, by hypothesis, of `ORDER BY sku`. */
module Skus {
  type Sku = string

  predicate Less(a: Sku, b: Sku) {
    b != "" && (a == "" || a[0] < b[0] || (a[0] == b[0] && Less(a[1..], b[1..])))
  }

  lemma {:induction false} LessIrreflexive(a: Sku)
    ensures !Less(a, a)
  {
    if a != "" {
      LessIrreflexive(a[1..]);
    }
  }

  lemma {:induction false} LessTransitive(a: Sku, b: Sku, c: Sku)
    requires Less(a, b) && Less(b, c)
    ensures Less(a, c)
  {
    if a != "" && a[0] == b[0] && b[0] == c[0] {
      LessTransitive(a[1..], b[1..], c[1..]);
    }
  }

  lemma {:induction false} LessTotal(a: Sku, b: Sku)
    ensures a == b || Less(a, b) || Less(b, a)
  {
    if a != "" && b != "" && a[0] == b[0] {
      LessTotal(a[1..], b[1..]);
      assert a == [a[0]] + a[1..] && b == [b[0]] + b[1..];
    }
  }
}

/** `StockAllocator.java`: grouping of a command's lines by SKU, and the all-or-nothing check. */
module StockAllocator {
  import opened Prelude
  import opened Skus

  const INT_MAX: int := 0x7fff_ffff

  /** A line as it arrives in the payload: the line, its SKU or the whole list may be null. */
  datatype Line = NullLine | Line(sku: Option<Sku>, quantity: int)

  /** An entry of the grouped map, and an item of a reservation. */
  datatype Item = Item(sku: Sku, quantity: int)

  datatype Detail = Detail(sku: Sku, requested: int, available: int)

  datatype Reason = OUT_OF_STOCK | UNKNOWN_SKU | ALREADY_COMPENSATED

  datatype Rejection = Rejection(reason: Reason, details: seq<Detail>)

  /** A sorted map as the sequence of its entries in key order. */
  predicate Sorted(items: seq<Item>) {
    forall i, j :: 0 <= i < j < |items| ==> Less(items[i].sku, items[j].sku)
  }

  function SkusOf(items: seq<Item>): set<Sku> {
    set i | 0 <= i < |items| :: items[i].sku
  }

  /** Quantity of `sku` over all items. */
  function Quantity(items: seq<Item>, sku: Sku): int {
    if items == [] then 0
    else (if items[0].sku == sku then items[0].quantity else 0) + Quantity(items[1..], sku)
  }

  // ---------------------------------------------------------------- 32-bit addition

  /** The value a Java `int` holds after an addition whose exact result is `x`. */
  function Wrap32(x: int): (r: int)
    ensures -INT_MAX - 1 <= r <= INT_MAX
    ensures r == x <==> -INT_MAX - 1 <= x <= INT_MAX
    ensures (r - x) % 0x1_0000_0000 == 0
  {
    (x + 0x8000_0000) % 0x1_0000_0000 - 0x8000_0000
  }

  lemma WrapAbsorbs(x: int, y: int)
    ensures Wrap32(Wrap32(x) + y) == Wrap32(x + y)
  {
  }

  // ---------------------------------------------------------------- normalize

  predicate IsWhitespace(c: char) {
    '\t' <= c <= '\r' || '\U{1c}' <= c <= ' ' || c == '\U{1680}' || '\U{2000}' <= c <= '\U{2006}'
    || '\U{2008}' <= c <= '\U{200a}' || c == '\U{2028}' || c == '\U{2029}' || c == '\U{205f}' || c == '\U{3000}'
  }

  predicate IsBlank(s: string) {
    forall i :: 0 <= i < |s| ==> IsWhitespace(s[i])
  }

  predicate ValidLine(line: Line) {
    line.Line? && line.sku.Some? && !IsBlank(line.sku.value) && line.quantity > 0
  }

  predicate ValidLines(lines: seq<Line>) {
    forall i :: 0 <= i < |lines| ==> ValidLine(lines[i])
  }

  /** `bySku.merge(sku, quantity, Integer::sum)` on a `TreeMap`. */
  function Merge(items: seq<Item>, sku: Sku, quantity: int): seq<Item> {
    if items == [] then [Item(sku, quantity)]
    else if items[0].sku == sku then [Item(sku, Wrap32(items[0].quantity + quantity))] + items[1..]
    else if Less(sku, items[0].sku) then [Item(sku, quantity)] + items
    else [items[0]] + Merge(items[1..], sku, quantity)
  }

  function MergeLines(lines: seq<Line>): seq<Item>
    requires ValidLines(lines)
  {
    if lines == [] then []
    else
      var last := lines[|lines| - 1];
      Merge(MergeLines(lines[..|lines| - 1]), last.sku.value, last.quantity)
  }

  /** The grouped lines, or nothing when the payload is malformed (null or empty list, null or invalid line). */
  function Normalized(lines: Option<seq<Line>>): Option<seq<Item>> {
    if lines.None? || lines.value == [] || !ValidLines(lines.value) then None
    else Some(MergeLines(lines.value))
  }

  /** Exact quantity asked for `sku`, with no machine arithmetic. */
  function Asked(lines: seq<Line>, sku: Sku): int {
    if lines == [] then 0
    else
      var last := lines[|lines| - 1];
      Asked(lines[..|lines| - 1], sku) + (if last.Line? && last.sku == Some(sku) then last.quantity else 0)
  }

  /** What a caller can check before sending: no SKU adds up to more than a 32-bit integer. */
  ghost predicate SumsFit(lines: seq<Line>) {
    forall sku :: Asked(lines, sku) <= INT_MAX
  }

  lemma {:induction false} MergeMembers(items: seq<Item>, sku: Sku, quantity: int)
    ensures forall x :: x in SkusOf(Merge(items, sku, quantity)) <==> x == sku || x in SkusOf(items)
  {
    var m := Merge(items, sku, quantity);
    if items == [] {
      assert m[0].sku in SkusOf(m);
    } else if items[0].sku == sku {
      assert forall i :: 0 <= i < |items| ==> m[i].sku == items[i].sku;
    } else if Less(sku, items[0].sku) {
      assert m[0].sku == sku;
      assert forall i :: 0 <= i < |items| ==> m[i + 1] == items[i];
      assert forall x :: x in SkusOf(items) ==> x in SkusOf(m) by {
        forall x | x in SkusOf(items) ensures x in SkusOf(m) {
          var i :| 0 <= i < |items| && items[i].sku == x;
          assert m[i + 1].sku == x;
        }
      }
    } else {
      var rest := Merge(items[1..], sku, quantity);
      MergeMembers(items[1..], sku, quantity);
      SkusOfCons(items[0], rest);
      SkusOfCons(items[0], items[1..]);
      assert items == [items[0]] + items[1..];
    }
  }

  lemma SkusOfCons(item: Item, rest: seq<Item>)
    ensures SkusOf([item] + rest) == {item.sku} + SkusOf(rest)
  {
    var all := [item] + rest;
    forall x | x in {item.sku} + SkusOf(rest) ensures x in SkusOf(all) {
      if x == item.sku {
        assert all[0].sku == x;
      } else {
        var i :| 0 <= i < |rest| && rest[i].sku == x;
        assert all[i + 1].sku == x;
      }
    }
  }

  lemma SkusSnoc(items: seq<Item>, last: Item)
    ensures SkusOf(items + [last]) == SkusOf(items) + {last.sku}
  {
    var all := items + [last];
    forall x | x in SkusOf(items) + {last.sku} ensures x in SkusOf(all) {
      if x == last.sku {
        assert all[|items|].sku == x;
      } else {
        var i :| 0 <= i < |items| && items[i].sku == x;
        assert all[i].sku == x;
      }
    }
    forall x | x in SkusOf(all) ensures x in SkusOf(items) + {last.sku} {
      var i :| 0 <= i < |all| && all[i].sku == x;
      assert i < |items| ==> items[i].sku == x;
    }
  }

  lemma {:induction false} MergeSorted(items: seq<Item>, sku: Sku, quantity: int)
    requires Sorted(items)
    ensures Sorted(Merge(items, sku, quantity))
  {
    var m := Merge(items, sku, quantity);
    if items == [] {
    } else if items[0].sku == sku {
      assert forall i :: 0 <= i < |items| ==> m[i].sku == items[i].sku;
    } else if Less(sku, items[0].sku) {
      forall i, j | 0 <= i < j < |m| ensures Less(m[i].sku, m[j].sku) {
        if i == 0 && j > 1 {
          LessTransitive(sku, items[0].sku, items[j - 1].sku);
        }
      }
    } else {
      LessTotal(sku, items[0].sku);
      MergeSorted(items[1..], sku, quantity);
      MergeMembers(items[1..], sku, quantity);
      forall j | 0 < j < |m| ensures Less(items[0].sku, m[j].sku) {
        var rest := Merge(items[1..], sku, quantity);
        assert rest[j - 1].sku in SkusOf(rest);
        if m[j].sku != sku {
          assert m[j].sku in SkusOf(items[1..]);
          var k :| 0 <= k < |items[1..]| && items[1..][k].sku == m[j].sku;
          assert items[k + 1].sku == m[j].sku;
        }
      }
    }
  }

  lemma {:induction false} QuantityAbsent(items: seq<Item>, sku: Sku)
    requires sku !in SkusOf(items)
    ensures Quantity(items, sku) == 0
  {
    if items != [] {
      SkusOfCons(items[0], items[1..]);
      assert items == [items[0]] + items[1..];
      QuantityAbsent(items[1..], sku);
    }
  }

  predicate Distinct(items: seq<Item>) {
    forall i, j :: 0 <= i < j < |items| ==> items[i].sku != items[j].sku
  }

  lemma SortedIsDistinct(items: seq<Item>)
    requires Sorted(items)
    ensures Distinct(items)
  {
    forall i, j | 0 <= i < j < |items| ensures items[i].sku != items[j].sku {
      LessIrreflexive(items[i].sku);
    }
  }

  /** In a sorted map every key has one entry. */
  lemma {:induction false} QuantityAt(items: seq<Item>, i: nat)
    requires Distinct(items) && i < |items|
    ensures Quantity(items, items[i].sku) == items[i].quantity
  {
    if i == 0 {
      QuantityAbsent(items[1..], items[0].sku);
    } else {
      QuantityAt(items[1..], i - 1);
    }
  }

  lemma BelowAllIsAbsent(items: seq<Item>, sku: Sku)
    requires Sorted(items) && items != [] && Less(sku, items[0].sku)
    ensures sku !in SkusOf(items)
  {
    if sku in SkusOf(items) {
      var k :| 0 <= k < |items| && items[k].sku == sku;
      LessIrreflexive(sku);
      if k > 0 {
        LessTransitive(sku, items[0].sku, items[k].sku);
      }
    }
  }

  lemma {:induction false} MergeQuantity(items: seq<Item>, sku: Sku, quantity: int, x: Sku)
    requires Sorted(items) && 0 < quantity <= INT_MAX
    ensures Quantity(Merge(items, sku, quantity), x)
         == if x != sku then Quantity(items, x)
            else if sku in SkusOf(items) then Wrap32(Quantity(items, sku) + quantity) else quantity
  {
    var m := Merge(items, sku, quantity);
    if items == [] {
    } else if items[0].sku == sku {
      SortedIsDistinct(items);
      QuantityAt(items, 0);
      assert items[0].sku in SkusOf(items);
      assert m[1..] == items[1..];
      if x == sku {
        MergeSorted(items, sku, quantity);
        SortedIsDistinct(m);
        QuantityAt(m, 0);
      }
    } else if Less(sku, items[0].sku) {
      assert m[1..] == items;
      BelowAllIsAbsent(items, sku);
      if x == sku {
        QuantityAbsent(items, sku);
      }
    } else {
      assert m[1..] == Merge(items[1..], sku, quantity);
      MergeQuantity(items[1..], sku, quantity, x);
      SkusOfCons(items[0], items[1..]);
      assert items == [items[0]] + items[1..];
    }
  }

  lemma {:induction false} MergeLinesSorted(lines: seq<Line>)
    requires ValidLines(lines)
    ensures Sorted(MergeLines(lines))
    decreases |lines|
  {
    if lines != [] {
      var n := |lines| - 1;
      MergeLinesSorted(lines[..n]);
      MergeSorted(MergeLines(lines[..n]), lines[n].sku.value, lines[n].quantity);
    }
  }

  predicate IntLines(lines: seq<Line>) {
    forall i :: 0 <= i < |lines| && lines[i].Line? ==> -INT_MAX - 1 <= lines[i].quantity <= INT_MAX
  }

  lemma MergeStep(items: seq<Item>, sku: Sku, quantity: int, x: Sku, asked: int)
    requires Sorted(items) && 0 < quantity <= INT_MAX && asked >= 0
    requires (x in SkusOf(items) <==> asked > 0) && Quantity(items, x) == Wrap32(asked)
    ensures var after := asked + (if x == sku then quantity else 0);
            (&& (x in SkusOf(Merge(items, sku, quantity)) <==> after > 0)
             && Quantity(Merge(items, sku, quantity), x) == Wrap32(after))
  {
    MergeMembers(items, sku, quantity);
    MergeQuantity(items, sku, quantity, x);
    WrapAbsorbs(asked, quantity);
  }

  lemma MergeLinesSnoc(lines: seq<Line>, x: Sku)
    requires ValidLines(lines) && IntLines(lines) && lines != []
    ensures ValidLines(lines[..|lines| - 1]) && IntLines(lines[..|lines| - 1])
    ensures var last := lines[|lines| - 1];
            (&& last.Line? && last.sku.Some? && 0 < last.quantity <= INT_MAX
             && MergeLines(lines) == Merge(MergeLines(lines[..|lines| - 1]), last.sku.value, last.quantity)
             && Asked(lines, x) == Asked(lines[..|lines| - 1], x) + (if x == last.sku.value then last.quantity else 0))
  {
    assert ValidLine(lines[|lines| - 1]);
  }

  lemma {:induction false} MergeLinesAt(lines: seq<Line>, x: Sku)
    requires ValidLines(lines) && IntLines(lines)
    ensures Asked(lines, x) >= 0
    ensures x in SkusOf(MergeLines(lines)) <==> Asked(lines, x) > 0
    ensures Quantity(MergeLines(lines), x) == Wrap32(Asked(lines, x))
    decreases |lines|
  {
    if lines != [] {
      hide *;
      var front, last := lines[..|lines| - 1], lines[|lines| - 1];
      MergeLinesSnoc(lines, x);
      MergeLinesSorted(front);
      MergeLinesAt(front, x);
      MergeStep(MergeLines(front), last.sku.value, last.quantity, x, Asked(front, x));
    }
  }

  /**
   * What grouping means: entries in SKU order, one for each SKU that is asked for, holding the 32-bit wrap of
   * the exact sum of its lines.
   */
  lemma {:induction false} NormalizedMeaning(lines: seq<Line>, items: seq<Item>)
    requires IntLines(lines) && Normalized(Some(lines)) == Some(items)
    ensures Sorted(items)
    ensures forall x :: x in SkusOf(items) <==> Asked(lines, x) > 0
    ensures forall x :: Quantity(items, x) == Wrap32(Asked(lines, x))
  {
    MergeLinesSorted(lines);
    forall x
      ensures x in SkusOf(items) <==> Asked(lines, x) > 0
      ensures Quantity(items, x) == Wrap32(Asked(lines, x))
    {
      MergeLinesAt(lines, x);
    }
  }

  /** Grouping keeps every quantity exactly when no SKU's lines add up to more than a 32-bit integer. */
  lemma {:induction false} NormalizedIsExactIffSumsFit(lines: seq<Line>, items: seq<Item>)
    requires IntLines(lines) && Normalized(Some(lines)) == Some(items)
    ensures (forall x :: Quantity(items, x) == Asked(lines, x)) <==> SumsFit(lines)
    ensures SumsFit(lines) ==> forall i :: 0 <= i < |items| ==> 0 < items[i].quantity <= INT_MAX
  {
    NormalizedMeaning(lines, items);
    if SumsFit(lines) {
      forall x ensures Quantity(items, x) == Asked(lines, x) {
        MergeLinesAt(lines, x);
      }
      SortedIsDistinct(items);
      forall i | 0 <= i < |items| ensures 0 < items[i].quantity <= INT_MAX {
        QuantityAt(items, i);
        assert items[i].sku in SkusOf(items);
      }
    } else {
      var sku :| Asked(lines, sku) > INT_MAX;
      assert Quantity(items, sku) <= INT_MAX;
    }
  }

  /** Two lines of 2147483647 units become an order for minus two. */
  lemma WrappedOrder(sku: Sku)
    requires !IsBlank(sku)
    ensures Normalized(Some([Line(Some(sku), INT_MAX), Line(Some(sku), INT_MAX)])) == Some([Item(sku, -2)])
  {
    var a := Line(Some(sku), INT_MAX);
    assert [a, a][..1] == [a] && [a][..0] == [];
    assert MergeLines([a]) == [Item(sku, INT_MAX)];
    assert Merge([Item(sku, INT_MAX)], sku, INT_MAX) == [Item(sku, -2)];
    assert MergeLines([a, a]) == [Item(sku, -2)];
    assert ValidLines([a, a]);
  }

  lemma {:induction false} MergeAtEnd(items: seq<Item>, sku: Sku, quantity: int)
    requires forall i :: 0 <= i < |items| ==> Less(items[i].sku, sku)
    ensures Merge(items, sku, quantity) == items + [Item(sku, quantity)]
  {
    if items != [] {
      LessIrreflexive(sku);
      if Less(sku, items[0].sku) {
        LessTransitive(sku, items[0].sku, sku);
      }
      MergeAtEnd(items[1..], sku, quantity);
      assert items == [items[0]] + items[1..];
    }
  }

  /** One line for each item. */
  function LinesOf(items: seq<Item>): seq<Line> {
    seq(|items|, i requires 0 <= i < |items| => Line(Some(items[i].sku), items[i].quantity))
  }

  /** Grouping the lines of a grouped map gives the map back. */
  lemma {:induction false} GroupedAgain(items: seq<Item>)
    requires Sorted(items) && forall i :: 0 <= i < |items| ==> items[i].quantity > 0 && !IsBlank(items[i].sku)
    ensures ValidLines(LinesOf(items)) && MergeLines(LinesOf(items)) == items
    decreases |items|
  {
    hide IsBlank, Merge;
    if items != [] {
      var front, last := items[..|items| - 1], items[|items| - 1];
      GroupedAgain(front);
      assert LinesOf(items)[..|items| - 1] == LinesOf(front);
      MergeAtEnd(front, last.sku, last.quantity);
      assert items == front + [last];
    }
  }

  /** Grouped quantities are machine integers of SKUs that are not blank. */
  lemma {:induction false} GroupedShape(lines: seq<Line>)
    requires ValidLines(lines) && IntLines(lines)
    ensures forall item <- MergeLines(lines) :: -INT_MAX - 1 <= item.quantity <= INT_MAX && !IsBlank(item.sku)
    decreases |lines|
  {
    hide IsBlank;
    if lines != [] {
      var front, last := lines[..|lines| - 1], lines[|lines| - 1];
      GroupedShape(front);
      assert ValidLine(last);
      MergedShape(MergeLines(front), last.sku.value, last.quantity);
    }
  }

  lemma {:induction false} MergedShape(items: seq<Item>, sku: Sku, quantity: int)
    requires 0 < quantity <= INT_MAX && !IsBlank(sku)
    requires forall item <- items :: -INT_MAX - 1 <= item.quantity <= INT_MAX && !IsBlank(item.sku)
    ensures forall item <- Merge(items, sku, quantity) :: -INT_MAX - 1 <= item.quantity <= INT_MAX && !IsBlank(item.sku)
  {
    hide IsBlank;
    if items != [] {
      assert items == [items[0]] + items[1..];
      MergedShape(items[1..], sku, quantity);
    }
  }

  /** `normalize`: a `TreeMap` filled line by line; a bad line throws. */
  method Normalize(lines: Option<seq<Line>>) returns (grouped: Option<seq<Item>>)
    ensures grouped == Normalized(lines)
  {
    if lines.None? || lines.value == [] {
      return None;
    }
    var bySku := [];
    var all := lines.value;
    for i := 0 to |all|
      invariant ValidLines(all[..i])
      invariant bySku == MergeLines(all[..i])
    {
      if !ValidLine(all[i]) {
        return None;
      }
      assert all[..i + 1][..i] == all[..i];
      bySku := Merge(bySku, all[i].sku.value, all[i].quantity);
    }
    assert all[..|all|] == all;
    return Some(bySku);
  }

  // ---------------------------------------------------------------- check

  /** SKUs asked for that have no stock row, in order. */
  function Unknown(items: seq<Item>, available: map<Sku, int>): seq<Detail> {
    if items == [] then []
    else
      var last := items[|items| - 1];
      Unknown(items[..|items| - 1], available)
      + (if last.sku !in available then [Detail(last.sku, last.quantity, 0)] else [])
  }

  /** SKUs whose balance is short, in order. */
  function Insufficient(items: seq<Item>, available: map<Sku, int>): seq<Detail> {
    if items == [] then []
    else
      var last := items[|items| - 1];
      Insufficient(items[..|items| - 1], available)
      + (if last.sku in available && available[last.sku] < last.quantity
         then [Detail(last.sku, last.quantity, available[last.sku])] else [])
  }

  function Verdict(items: seq<Item>, available: map<Sku, int>): Option<Rejection> {
    if Unknown(items, available) != [] then Some(Rejection(UNKNOWN_SKU, Unknown(items, available)))
    else if Insufficient(items, available) != [] then Some(Rejection(OUT_OF_STOCK, Insufficient(items, available)))
    else None
  }

  method Check(requested: seq<Item>, available: map<Sku, int>) returns (rejection: Option<Rejection>)
    ensures rejection == Verdict(requested, available)
  {
    var unknown, insufficient := [], [];
    for i := 0 to |requested|
      invariant unknown == Unknown(requested[..i], available)
      invariant insufficient == Insufficient(requested[..i], available)
    {
      assert requested[..i + 1][..i] == requested[..i];
      var sku, qty := requested[i].sku, requested[i].quantity;
      if sku !in available {
        unknown := unknown + [Detail(sku, qty, 0)];
      } else if available[sku] < qty {
        insufficient := insufficient + [Detail(sku, qty, available[sku])];
      }
    }
    assert requested[..|requested|] == requested;
    if unknown != [] {
      return Some(Rejection(UNKNOWN_SKU, unknown));
    }
    if insufficient != [] {
      return Some(Rejection(OUT_OF_STOCK, insufficient));
    }
    return None;
  }

  predicate Covered(items: seq<Item>, available: map<Sku, int>) {
    forall i :: 0 <= i < |items| ==> items[i].sku in available && items[i].quantity <= available[items[i].sku]
  }

  lemma {:induction false} UnknownMeaning(items: seq<Item>, available: map<Sku, int>)
    ensures Unknown(items, available) == [] <==> forall i :: 0 <= i < |items| ==> items[i].sku in available
  {
    if items != [] {
      var front := items[..|items| - 1];
      UnknownMeaning(front, available);
      assert forall i :: 0 <= i < |front| ==> front[i] == items[i];
    }
  }

  lemma {:induction false} InsufficientMeaning(items: seq<Item>, available: map<Sku, int>)
    ensures Insufficient(items, available) == []
       <==> forall i :: 0 <= i < |items| && items[i].sku in available ==> items[i].quantity <= available[items[i].sku]
  {
    if items != [] {
      var front := items[..|items| - 1];
      InsufficientMeaning(front, available);
      assert forall i :: 0 <= i < |front| ==> front[i] == items[i];
    }
  }

  /** The check passes exactly when every line is covered, and a missing SKU outranks a short one. */
  lemma VerdictMeaning(items: seq<Item>, available: map<Sku, int>)
    ensures Verdict(items, available).None? <==> Covered(items, available)
    ensures (exists i :: 0 <= i < |items| && items[i].sku !in available)
       <==> Verdict(items, available).Some? && Verdict(items, available).value.reason == UNKNOWN_SKU
  {
    UnknownMeaning(items, available);
    InsufficientMeaning(items, available);
  }

  /** Details of a simulated rejection: the balance that was seen, zero for a SKU without one. */
  function SimulatedDetails(items: seq<Item>, seen: map<Sku, int>): seq<Detail> {
    seq(|items|, i requires 0 <= i < |items| =>
      Detail(items[i].sku, items[i].quantity, if items[i].sku in seen then seen[items[i].sku] else 0))
  }
}
