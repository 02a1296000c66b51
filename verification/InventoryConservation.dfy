/** Stock is conserved, and the throws and the clamp that guard it never act. */
module InventoryConservation {
  import opened Prelude
  import opened Skus
  import opened StockAllocator
  import opened InventoryModel

  /** Units of `sku` that a reservation row holds. */
  function Holds(r: Reservation, sku: Sku): int {
    if r.status == RESERVED then Quantity(r.items, sku) else 0
  }

  /** Units of `sku` held over all orders. */
  ghost function Held(rs: Reservations, sku: Sku): int {
    if rs == map[] then 0
    else
      var o :| o in rs;
      Holds(rs[o], sku) + Held(rs - {o}, sku)
  }

  lemma {:induction false} HeldSplits(rs: Reservations, o: Uuid, sku: Sku)
    requires o in rs
    ensures Held(rs, sku) == Holds(rs[o], sku) + Held(rs - {o}, sku)
    decreases |rs|
  {
    var p :| p in rs && Held(rs, sku) == Holds(rs[p], sku) + Held(rs - {p}, sku);
    if p != o {
      HeldSplits(rs - {p}, o, sku);
      HeldSplits(rs - {o}, p, sku);
      assert rs - {p} - {o} == rs - {o} - {p};
    }
  }

  lemma HeldAfterWrite(rs: Reservations, o: Uuid, r: Reservation, sku: Sku)
    ensures Held(rs[o := r], sku)
         == Held(rs, sku) + Holds(r, sku) - (if o in rs then Holds(rs[o], sku) else 0)
  {
    HeldSplits(rs[o := r], o, sku);
    assert rs[o := r] - {o} == rs - {o};
    if o in rs {
      HeldSplits(rs, o, sku);
    } else {
      assert rs - {o} == rs;
    }
  }

  predicate SoundItems(items: seq<Item>, stock: Stock) {
    && Sorted(items) && Distinct(items)
    && NonNegative(items) && forall i :: 0 <= i < |items| ==> items[i].sku in stock
  }

  /** The invariant: `reserved` is what RESERVED orders hold, and nothing is created or lost. */
  ghost predicate Balanced(db: Db, seed: Stock) {
    && db.stock.Keys == seed.Keys
    && (forall o :: o in db.reservations && db.reservations[o].status == RESERVED
          ==> SoundItems(db.reservations[o].items, seed))
    && forall sku :: sku in seed ==>
         && db.stock[sku].reserved == Held(db.reservations, sku)
         && db.stock[sku].available + db.stock[sku].reserved == seed[sku].available
         && Legal(db.stock[sku]) && Legal(seed[sku])
  }

  // ---------------------------------------------------------------- the two loops over stock rows

  lemma {:induction false} QuantitySnoc(items: seq<Item>, last: Item, sku: Sku)
    ensures Quantity(items + [last], sku) == Quantity(items, sku) + (if last.sku == sku then last.quantity else 0)
  {
    if items == [] {
      assert items + [last] == [last];
    } else {
      assert (items + [last])[1..] == items[1..] + [last];
      QuantitySnoc(items[1..], last, sku);
    }
  }

  function Signed(out: bool, quantity: int): int {
    if out then quantity else -quantity
  }

  /** Rows after every item moved from available to reserved, or back. */
  function Moved(stock: Stock, items: seq<Item>, out: bool): Stock
    requires forall sku :: sku in SkusOf(items) ==> sku in stock
  {
    map sku | sku in SkusOf(items) ::
      StockRow(stock[sku].available - Signed(out, Quantity(items, sku)),
               stock[sku].reserved + Signed(out, Quantity(items, sku)))
  }

  lemma MovedSnoc(stock: Stock, front: seq<Item>, last: Item, out: bool)
    requires SkusOf(front) <= stock.Keys && last.sku in stock && last.sku !in SkusOf(front)
    ensures SkusOf(front + [last]) <= stock.Keys
    ensures var delta := if out then last.quantity else -last.quantity;
            (Moved(stock, front + [last], out) == Moved(stock, front, out)[last.sku :=
              StockRow(stock[last.sku].available - delta, stock[last.sku].reserved + delta)])
    ensures last.sku !in Moved(stock, front, out)
  {
    hide Quantity;
    SkusSnoc(front, last);
    QuantityAbsent(front, last.sku);
    forall sku
      ensures Quantity(front + [last], sku) == Quantity(front, sku) + (if last.sku == sku then last.quantity else 0)
    {
      QuantitySnoc(front, last, sku);
    }
  }

  lemma MovedNone(stock: Stock, items: seq<Item>, out: bool)
    requires items == []
    ensures SkusOf(items) == {} && Moved(stock, items, out) == map[]
    ensures DebitAll(stock, items) == CreditAll(stock, items) == Ok(map[])
  {
  }

  lemma ItemsInStock(items: seq<Item>, stock: Stock)
    requires forall i :: 0 <= i < |items| ==> items[i].sku in stock
    ensures SkusOf(items) <= stock.Keys
  {
  }

  /** Rows whose two balances add up within a machine integer. */
  predicate Bounded(stock: Stock) {
    forall sku :: sku in stock ==> Legal(stock[sku]) && stock[sku].available + stock[sku].reserved <= INT_MAX
  }

  lemma DistinctSnoc(front: seq<Item>, last: Item)
    requires Distinct(front + [last])
    ensures Distinct(front) && last.sku !in SkusOf(front)
  {
    var all := front + [last];
    assert forall i :: 0 <= i < |front| ==> all[i] == front[i];
    assert all[|front|] == last;
  }

  function AfterDebit(stock: Stock, item: Item): StockRow
    requires item.sku in stock
  {
    StockRow(stock[item.sku].available - item.quantity, stock[item.sku].reserved + item.quantity)
  }

  lemma DebitLast(stock: Stock, front: seq<Item>, last: Item, dirty: Stock)
    requires DebitAll(stock, front) == Ok(dirty) && last.sku !in dirty && last.sku in stock
    requires last.quantity <= stock[last.sku].available && Legal(AfterDebit(stock, last))
    ensures DebitAll(stock, front + [last]) == Ok(dirty[last.sku :=
              StockRow(stock[last.sku].available - last.quantity, stock[last.sku].reserved + last.quantity)])
  {
    assert (front + [last])[..|front|] == front;
  }

  lemma CreditLast(stock: Stock, front: seq<Item>, last: Item, dirty: Stock)
    requires CreditAll(stock, front) == Ok(dirty) && last.sku !in dirty && last.sku in stock && Bounded(stock)
    requires 0 <= last.quantity <= stock[last.sku].reserved
    ensures CreditAll(stock, front + [last]) == Ok(dirty[last.sku :=
              StockRow(stock[last.sku].available + last.quantity, stock[last.sku].reserved - last.quantity)])
  {
    assert (front + [last])[..|front|] == front;
  }

  /** A covered debit whose rows stay legal never fails and moves exactly the requested quantities. */
  lemma {:induction false} DebitMoves(stock: Stock, items: seq<Item>)
    requires Distinct(items)
    requires forall i :: 0 <= i < |items| ==>
      items[i].sku in stock && items[i].quantity <= stock[items[i].sku].available
    requires forall i :: 0 <= i < |items| ==> Legal(AfterDebit(stock, items[i]))
    ensures SkusOf(items) <= stock.Keys
    ensures DebitAll(stock, items) == Ok(Moved(stock, items, true))
    decreases |items|
  {
    hide *;
    if items == [] {
      MovedNone(stock, items, true);
    } else {
      var front, last := items[..|items| - 1], items[|items| - 1];
      assert items == front + [last];
      DistinctSnoc(front, last);
      DebitMoves(stock, front);
      MovedSnoc(stock, front, last, true);
      DebitLast(stock, front, last, Moved(stock, front, true));
    }
  }

  /** A credit of held items never misses a row, never clamps, and moves exactly the held quantities back. */
  lemma {:induction false} CreditMoves(stock: Stock, items: seq<Item>)
    requires Distinct(items) && Bounded(stock)
    requires forall i :: 0 <= i < |items| ==> items[i].quantity >= 0 && items[i].sku in stock
    requires forall i :: 0 <= i < |items| ==> items[i].quantity <= stock[items[i].sku].reserved
    ensures SkusOf(items) <= stock.Keys
    ensures CreditAll(stock, items) == Ok(Moved(stock, items, false))
    decreases |items|
  {
    hide *;
    if items == [] {
      MovedNone(stock, items, false);
    } else {
      var front, last := items[..|items| - 1], items[|items| - 1];
      assert items == front + [last];
      DistinctSnoc(front, last);
      CreditMoves(stock, front);
      MovedSnoc(stock, front, last, false);
      CreditLast(stock, front, last, Moved(stock, front, false));
    }
  }

  lemma {:induction false} QuantityBounds(items: seq<Item>, sku: Sku)
    requires NonNegative(items)
    ensures Quantity(items, sku) >= 0
  {
    if items != [] {
      QuantityBounds(items[1..], sku);
    }
  }

  lemma {:induction false} HeldBounds(rs: Reservations, stock: Stock, sku: Sku)
    requires forall o :: o in rs && rs[o].status == RESERVED ==> SoundItems(rs[o].items, stock)
    ensures Held(rs, sku) >= 0
    decreases |rs|
  {
    if rs != map[] {
      var o :| o in rs;
      HeldSplits(rs, o, sku);
      HeldBounds(rs - {o}, stock, sku);
      if rs[o].status == RESERVED {
        QuantityBounds(rs[o].items, sku);
      }
    }
  }

  /** Every row of a RESERVED order has at least what the order holds. */
  lemma ReservedCoversOrder(db: Db, seed: Stock, o: Uuid, i: nat)
    requires Balanced(db, seed) && o in db.reservations && db.reservations[o].status == RESERVED
    requires i < |db.reservations[o].items|
    ensures db.stock[db.reservations[o].items[i].sku].reserved >= db.reservations[o].items[i].quantity
  {
    var item := db.reservations[o].items[i];
    HeldSplits(db.reservations, o, item.sku);
    HeldBounds(db.reservations - {o}, seed, item.sku);
    QuantityAt(db.reservations[o].items, i);
  }

  // ---------------------------------------------------------------- every step

  lemma CoveredItems(db: Db, c: Command, items: seq<Item>)
    requires c.Reserve? && Normalized(c.lines) == Some(items) && Verdict(items, Available(db.stock, items)).None?
    ensures Sorted(items) && Distinct(items)
    ensures forall i :: 0 <= i < |items| ==>
              items[i].sku in db.stock && items[i].quantity <= db.stock[items[i].sku].available
  {
    MergeLinesSorted(c.lines.value);
    SortedIsDistinct(items);
    VerdictMeaning(items, Available(db.stock, items));
    forall i | 0 <= i < |items|
      ensures items[i].sku in db.stock && items[i].quantity <= db.stock[items[i].sku].available
    {
      assert items[i].sku in Available(db.stock, items);
    }
  }

  /** The items of an accepted command, and how their debit turns out. */
  lemma ExecutionDebits(db: Db, seed: Stock, c: Command, items: seq<Item>)
    requires Balanced(db, seed) && c.Reserve? && Normalized(c.lines) == Some(items) && NonNegative(items)
    requires Verdict(items, Available(db.stock, items)).None?
    ensures SoundItems(items, seed)
    ensures DebitAll(db.stock, items) == Ok(Moved(db.stock, items, true))
  {
    hide Normalized, Verdict, Held;
    CoveredItems(db, c, items);
    DebitMoves(db.stock, items);
  }

  /** A covered debit finds every row with enough available; only a row that would become illegal stops it. */
  lemma {:induction false} CoveredDebit(stock: Stock, items: seq<Item>)
    requires Distinct(items)
    requires forall i :: 0 <= i < |items| ==>
      items[i].sku in stock && items[i].quantity <= stock[items[i].sku].available
    ensures DebitAll(stock, items).Ok? || DebitAll(stock, items) == Err(SQL_ERROR)
    ensures DebitAll(stock, items).Ok? ==> DebitAll(stock, items).value.Keys <= SkusOf(items)
    decreases |items|
  {
    if items != [] {
      var front, last := items[..|items| - 1], items[|items| - 1];
      assert items == front + [last];
      DistinctSnoc(front, last);
      SkusSnoc(front, last);
      CoveredDebit(stock, front);
    }
  }

  /** The least machine integer is debited from no row: the transaction is rolled back. */
  lemma {:induction false} OverflowFails(stock: Stock, items: seq<Item>)
    requires Distinct(items) && Bounded(stock) && Overflows(items)
    requires forall i :: 0 <= i < |items| ==>
      items[i].sku in stock && items[i].quantity <= stock[items[i].sku].available
    ensures DebitAll(stock, items) == Err(SQL_ERROR)
    decreases |items|
  {
    var front, last := items[..|items| - 1], items[|items| - 1];
    assert items == front + [last];
    DistinctSnoc(front, last);
    CoveredDebit(stock, front);
    if last.quantity != -INT_MAX - 1 {
      var i :| 0 <= i < |items| && items[i].quantity == -INT_MAX - 1;
      assert front[i] == items[i];
      OverflowFails(stock, front);
    }
  }

  /** A release in a balanced database returns exactly what the order holds: no missing SKU, no clamp, no SQL error. */
  lemma ReleaseCredits(db: Db, seed: Stock, o: Uuid)
    requires Balanced(db, seed) && o in db.reservations && db.reservations[o].status == RESERVED
    ensures SkusOf(db.reservations[o].items) <= db.stock.Keys
    ensures CreditAll(db.stock, db.reservations[o].items) == Ok(Moved(db.stock, db.reservations[o].items, false))
  {
    var items := db.reservations[o].items;
    forall i | 0 <= i < |items| ensures db.stock[items[i].sku].reserved >= items[i].quantity {
      ReservedCoversOrder(db, seed, o, i);
    }
    CreditMoves(db.stock, items);
  }

  /** Moving an order's items between balances while its row changes keeps the books. */
  lemma MoveKeepsBalance(db: Db, seed: Stock, o: Uuid, r: Reservation, items: seq<Item>, out: bool, sku: Sku)
    requires Balanced(db, seed) && SkusOf(items) <= db.stock.Keys && sku in seed
    requires Holds(r, sku) - (if o in db.reservations then Holds(db.reservations[o], sku) else 0)
          == Signed(out, Quantity(items, sku))
    ensures var stock := db.stock + Moved(db.stock, items, out);
            && stock[sku].reserved == Held(db.reservations[o := r], sku)
            && stock[sku].available + stock[sku].reserved == seed[sku].available
  {
    HeldAfterWrite(db.reservations, o, r, sku);
    if sku !in SkusOf(items) {
      QuantityAbsent(items, sku);
    }
  }

  lemma DebitStaysLegal(db: Db, seed: Stock, items: seq<Item>, sku: Sku)
    requires Balanced(db, seed) && SoundItems(items, seed) && sku in seed
    requires forall i :: 0 <= i < |items| ==> db.stock[items[i].sku].available >= items[i].quantity
    requires SkusOf(items) <= db.stock.Keys
    ensures Legal((db.stock + Moved(db.stock, items, true))[sku])
  {
    if sku in SkusOf(items) {
      var i :| 0 <= i < |items| && items[i].sku == sku;
      QuantityAt(items, i);
    }
  }

  /** A first reserve that is malformed, or passes the check and then asks for the least machine integer. */
  predicate Refused(db: Db, c: Command) {
    && c.Reserve? && c.orderId !in db.reservations
    && match Normalized(c.lines)
       case None => true
       case Some(items) => Debits(c) && Verdict(items, Available(db.stock, items)).None? && Overflows(items)
  }

  function RefusalOf(c: Command): Fault
    requires c.Reserve?
  {
    if Normalized(c.lines).None? then MALFORMED else SQL_ERROR
  }

  /**
   * One step from a balanced database: the books stay balanced, and the only exceptions left are a malformed first
   * reserve and the overflow of one whose sum wrapped to the least integer. In particular neither the debit throw, nor
   * the missing-SKU throw can happen.
   */
  lemma StepKeepsBalance(db: Db, seed: Stock, e: Event)
    requires Balanced(db, seed) && Conserves(e.command)
    ensures Balanced(Step(db, e), seed)
    ensures Commits(db, e) <==> !Refused(db, e.command)
    ensures Refused(db, e.command) ==> Handle(db, e.command, e.rid, e.seen) == Err(RefusalOf(e.command))
  {
    var c := e.command;
    var existing := Lookup(db.reservations, c.orderId);
    if c.Reserve? && existing.None? && Normalized(c.lines).Some? {
      var items := Normalized(c.lines).value;
      if Debits(c) && Verdict(items, Available(db.stock, items)).None? {
        if Overflows(items) {
          OverflowStep(db, seed, e, items);
        } else {
          ReserveKeepsBalance(db, seed, e, items);
        }
      } else {
        RowOnlyKeepsBalance(db, seed, e);
      }
    } else if c.Release? && existing.Some? && existing.value.status == RESERVED {
      ReleaseKeepsBalance(db, seed, e);
    } else if Commits(db, e) {
      RowOnlyKeepsBalance(db, seed, e);
    }
  }

  lemma OverflowStep(db: Db, seed: Stock, e: Event, items: seq<Item>)
    requires Balanced(db, seed) && Debits(e.command) && e.command.orderId !in db.reservations
    requires Normalized(e.command.lines) == Some(items) && Verdict(items, Available(db.stock, items)).None?
    requires Overflows(items)
    ensures Handle(db, e.command, e.rid, e.seen) == Err(SQL_ERROR)
  {
    hide Normalized, Verdict, Held, DebitAll;
    CoveredItems(db, e.command, items);
    OverflowFails(db.stock, items);
  }

  /** A transaction that writes no stock row and changes no holding. */
  lemma RowOnlyKeepsBalance(db: Db, seed: Stock, e: Event)
    requires Balanced(db, seed) && Commits(db, e)
    requires Effect(db.stock, Lookup(db.reservations, e.command.orderId), e.command, e.rid, e.seen).value.rows == map[]
    requires var row := Effect(db.stock, Lookup(db.reservations, e.command.orderId),
                    e.command, e.rid, e.seen).value.row;
             row.Some? ==> if e.command.orderId in db.reservations
                           then row.value.status == db.reservations[e.command.orderId].status
                                && row.value.items == db.reservations[e.command.orderId].items
                           else row.value.status != RESERVED
    ensures Balanced(Step(db, e), seed)
  {
    var w := Effect(db.stock, Lookup(db.reservations, e.command.orderId), e.command, e.rid, e.seen).value;
    assert db.stock + map[] == db.stock;
    if w.row.Some? {
      forall sku | sku in seed
        ensures Held(db.reservations[e.command.orderId := w.row.value], sku) == Held(db.reservations, sku)
      {
        HeldAfterWrite(db.reservations, e.command.orderId, w.row.value, sku);
      }
    }
  }

  /** What a fresh, covered reserve leaves. */
  lemma ReserveStep(db: Db, seed: Stock, e: Event, items: seq<Item>)
    requires Balanced(db, seed) && Debits(e.command) && e.command.orderId !in db.reservations && NonNegative(items)
    requires Normalized(e.command.lines) == Some(items) && Verdict(items, Available(db.stock, items)).None?
    ensures SoundItems(items, seed) && SkusOf(items) <= db.stock.Keys
    ensures Commits(db, e)
    ensures Step(db, e).stock == db.stock + Moved(db.stock, items, true)
    ensures Step(db, e).reservations
         == db.reservations[e.command.orderId := ReservedRow(e.rid, items).(attempts := 1)]
  {
    hide Normalized, DebitAll, Moved, Verdict, Available, Held, Conserves, SkusOf, Legal;
    ExecutionDebits(db, seed, e.command, items);
    ItemsInStock(items, db.stock);
  }

  lemma ReserveKeepsBalance(db: Db, seed: Stock, e: Event, items: seq<Item>)
    requires Balanced(db, seed) && Debits(e.command) && e.command.orderId !in db.reservations && NonNegative(items)
    requires Normalized(e.command.lines) == Some(items) && Verdict(items, Available(db.stock, items)).None?
    ensures Commits(db, e) && Balanced(Step(db, e), seed)
  {
    hide Normalized, DebitAll, Verdict, Available, Held, Conserves, Step, Commits, Legal, Quantity;
    ReserveStep(db, seed, e, items);
    BooksAfterReserve(db, seed, e.command.orderId, ReservedRow(e.rid, items).(attempts := 1));
    assert Step(db, e).stock.Keys == db.stock.Keys;
  }

  lemma BooksAfterReserve(db: Db, seed: Stock, o: Uuid, r: Reservation)
    requires Balanced(db, seed) && o !in db.reservations && r.status == RESERVED && SoundItems(r.items, seed)
    requires Verdict(r.items, Available(db.stock, r.items)).None? && SkusOf(r.items) <= db.stock.Keys
    ensures var stock := db.stock + Moved(db.stock, r.items, true);
            (forall sku :: sku in seed ==>
              && stock[sku].reserved == Held(db.reservations[o := r], sku)
              && stock[sku].available + stock[sku].reserved == seed[sku].available && Legal(stock[sku]))
  {
    VerdictMeaning(r.items, Available(db.stock, r.items));
    forall i | 0 <= i < |r.items| ensures db.stock[r.items[i].sku].available >= r.items[i].quantity {
      assert r.items[i].sku in Available(db.stock, r.items);
    }
    forall sku | sku in seed
      ensures var stock := db.stock + Moved(db.stock, r.items, true);
              (&& stock[sku].reserved == Held(db.reservations[o := r], sku)
               && stock[sku].available + stock[sku].reserved == seed[sku].available && Legal(stock[sku]))
    {
      MoveKeepsBalance(db, seed, o, r, r.items, true, sku);
      DebitStaysLegal(db, seed, r.items, sku);
    }
  }

  lemma ReleaseKeepsBalance(db: Db, seed: Stock, e: Event)
    requires Balanced(db, seed) && e.command.Release? && e.command.orderId in db.reservations
    requires db.reservations[e.command.orderId].status == RESERVED
    ensures Commits(db, e) && Balanced(Step(db, e), seed)
  {
    var o := e.command.orderId;
    ReleaseCredits(db, seed, o);
    var r := db.reservations[o].(status := RELEASED, noop := false);
    assert Step(db, e).stock == db.stock + Moved(db.stock, r.items, false);
    assert Step(db, e).reservations == db.reservations[o := r];
    BooksAfterRelease(db, seed, o, r);
  }

  lemma BooksAfterRelease(db: Db, seed: Stock, o: Uuid, r: Reservation)
    requires Balanced(db, seed) && o in db.reservations && db.reservations[o].status == RESERVED
    requires r.status == RELEASED && r.items == db.reservations[o].items && SkusOf(r.items) <= db.stock.Keys
    ensures var stock := db.stock + Moved(db.stock, r.items, false);
            (forall sku :: sku in seed ==>
              && stock[sku].reserved == Held(db.reservations[o := r], sku)
              && stock[sku].available + stock[sku].reserved == seed[sku].available && Legal(stock[sku]))
  {
    forall sku | sku in seed
      ensures var stock := db.stock + Moved(db.stock, r.items, false);
              (&& stock[sku].reserved == Held(db.reservations[o := r], sku)
               && stock[sku].available + stock[sku].reserved == seed[sku].available && Legal(stock[sku]))
    {
      MoveKeepsBalance(db, seed, o, r, r.items, false, sku);
      if sku in SkusOf(r.items) {
        var i :| 0 <= i < |r.items| && r.items[i].sku == sku;
        ReservedCoversOrder(db, seed, o, i);
        QuantityAt(r.items, i);
      }
    }
  }

  // ---------------------------------------------------------------- every run

  lemma InitiallyBalanced(db: Db)
    requires Initial(db)
    ensures Balanced(db, db.stock)
  {
  }

  /** Conservation over whole runs, from the seeded stock. */
  lemma {:induction false} RunKeepsBalance(db: Db, events: seq<Event>)
    requires Initial(db) && AllConserve(events)
    ensures Balanced(Run(db, events), db.stock)
    decreases |events|
  {
    if events == [] {
      InitiallyBalanced(db);
    } else {
      RunKeepsBalance(db, events[..|events| - 1]);
      StepKeepsBalance(Run(db, events[..|events| - 1]), db.stock, events[|events| - 1]);
    }
  }

  lemma {:induction false} NothingHeld(rs: Reservations, sku: Sku)
    requires forall o :: o in rs ==> rs[o].status != RESERVED
    ensures Held(rs, sku) == 0
    decreases |rs|
  {
    if rs != map[] {
      var o :| o in rs;
      HeldSplits(rs, o, sku);
      NothingHeld(rs - {o}, sku);
    }
  }

  /** Once no order is RESERVED any more, the stock is the seeded stock again. */
  lemma ReleasedRunRestoresStock(db: Db, events: seq<Event>)
    requires Initial(db) && AllConserve(events)
    requires forall o :: o in Run(db, events).reservations ==> Run(db, events).reservations[o].status != RESERVED
    ensures Run(db, events).stock == db.stock
  {
    var final := Run(db, events);
    RunKeepsBalance(db, events);
    forall sku | sku in db.stock ensures final.stock[sku] == db.stock[sku] {
      NothingHeld(final.reservations, sku);
    }
  }

  // ---------------------------------------------------------------- which commands conserve stock

  /** Releasing the order now would return exactly what it holds. */
  predicate Returns(db: Db, o: Uuid)
    requires o in db.reservations
  {
    var items := db.reservations[o].items;
    SkusOf(items) <= db.stock.Keys && CreditAll(db.stock, items) == Ok(Moved(db.stock, items, false))
  }

  /** What conservation promises of the tables, in terms of the balances and of what a release would do. */
  ghost predicate Books(db: Db, seed: Stock) {
    && db.stock.Keys == seed.Keys
    && (forall o :: o in db.reservations && db.reservations[o].status == RESERVED ==> Returns(db, o))
    && forall sku :: sku in seed ==>
         && db.stock[sku].reserved == Held(db.reservations, sku)
         && db.stock[sku].available + db.stock[sku].reserved == seed[sku].available && Legal(db.stock[sku])
  }

  lemma BalancedBooks(db: Db, seed: Stock)
    requires Balanced(db, seed)
    ensures Books(db, seed)
  {
    hide CreditAll, Moved, SkusOf;
    forall o | o in db.reservations && db.reservations[o].status == RESERVED ensures Returns(db, o) {
      ReleaseCredits(db, seed, o);
    }
  }

  /** Every command of the run conserves stock, but for `c`. */
  predicate AllConserveBut(events: seq<Event>, c: Command) {
    forall i :: 0 <= i < |events| ==> Conserves(events[i].command) || events[i].command == c
  }

  lemma BooksHold(db: Db, events: seq<Event>, c: Command)
    requires Conserves(c) && Initial(db) && AllConserveBut(events, c)
    ensures Books(Run(db, events), db.stock)
  {
    hide Run, Initial, Books, Conserves;
    RunKeepsBalance(db, events);
    BalancedBooks(Run(db, events), db.stock);
  }

  lemma OnlyConservingBut(c: Command)
    requires c.Reserve? && c.lines.Some? ==> IntLines(c.lines.value)
    requires !Conserves(c)
    ensures AllConserveBut([FirstOrder(c), Event(c, 0, map[])], c)
  {
    FirstConserves(c);
  }

  /**
   * Exactly which commands are safe to accept: the books hold in every run with other conserving commands if and only
   * if no debited quantity of the command is negative, or one is the least integer.
   */
  lemma ConservesIff(c: Command)
    requires c.Reserve? && c.lines.Some? ==> IntLines(c.lines.value)
    ensures Conserves(c) <==> forall db: Db, events: seq<Event> ::
              Initial(db) && AllConserveBut(events, c) ==> Books(Run(db, events), db.stock)
  {
    assert !Conserves(c) ==> Debits(c);
    hide Run, Initial, Books, Conserves, AllConserveBut;
    if Conserves(c) {
      forall db: Db, events: seq<Event> | Initial(db) && AllConserveBut(events, c)
        ensures Books(Run(db, events), db.stock)
      {
        BooksHold(db, events, c);
      }
    } else {
      var events := [FirstOrder(c), Event(c, 0, map[])];
      var db := Stocked(c);
      NegativeBreaksBooks(c);
      OnlyConservingBut(c);
    }
  }

  function Negated(items: seq<Item>): seq<Item> {
    if items == [] then []
    else
      var front, last := Negated(items[..|items| - 1]), items[|items| - 1];
      if last.quantity < 0 then front + [Item(last.sku, -last.quantity)] else front
  }

  /** Another order for what the command would take back. */
  function FirstOrder(c: Command): Event
    requires Debits(c)
  {
    Event(Reserve(c.messageId + 1, c.orderId + 1, Some(LinesOf(Negated(Normalized(c.lines).value))), None), 0, map[])
  }

  /** Just the stock that both orders need. */
  function Stocked(c: Command): Db
    requires Debits(c)
  {
    var items := Normalized(c.lines).value;
    Db(map sku | sku in SkusOf(items) :: StockRow(Abs(Clamp(Quantity(items, sku))), 0), map[], [], {})
  }

  function Abs(x: int): nat {
    if x < 0 then -x else x
  }

  /** A machine integer other than the least. */
  function Clamp(x: int): int {
    if x < -INT_MAX then -INT_MAX else if x > INT_MAX then INT_MAX else x
  }

  lemma {:induction false} NegatedMembers(items: seq<Item>)
    ensures forall n <- Negated(items) :: n.quantity > 0 && Item(n.sku, -n.quantity) in items
    ensures forall item <- items :: item.quantity < 0 ==> Item(item.sku, -item.quantity) in Negated(items)
  {
    if items != [] {
      var front, last := items[..|items| - 1], items[|items| - 1];
      NegatedMembers(front);
      assert forall item :: item in front + [last] <==> item in front || item == last;
      assert items == front + [last];
    }
  }

  lemma {:induction false} NegatedSorted(items: seq<Item>)
    requires Sorted(items)
    ensures Sorted(Negated(items))
  {
    hide Less;
    if items != [] {
      var front, last := items[..|items| - 1], items[|items| - 1];
      NegatedSorted(front);
      NegatedMembers(front);
      var ns := Negated(front);
      forall k | 0 <= k < |ns| ensures Less(ns[k].sku, last.sku) {
        assert ns[k] in ns;
        var i :| 0 <= i < |front| && front[i] == Item(ns[k].sku, -ns[k].quantity);
        assert items[i] == front[i];
      }
    }
  }

  lemma NegatedMeaning(items: seq<Item>)
    requires Sorted(items)
    ensures Sorted(Negated(items))
    ensures forall n <- Negated(items) :: n.quantity > 0 && Item(n.sku, -n.quantity) in items
    ensures forall item <- items :: item.quantity < 0 ==> Item(item.sku, -item.quantity) in Negated(items)
  {
    NegatedMembers(items);
    NegatedSorted(items);
  }

  lemma NegatedSkus(items: seq<Item>)
    requires Sorted(items)
    ensures SkusOf(Negated(items)) <= SkusOf(items)
  {
    hide Negated;
    var ns := Negated(items);
    NegatedMeaning(items);
    forall k | 0 <= k < |ns| ensures ns[k].sku in SkusOf(items) {
      assert ns[k] in ns;
      var j :| 0 <= j < |items| && items[j] == Item(ns[k].sku, -ns[k].quantity);
      assert items[j].sku == ns[k].sku;
    }
  }

  /** Facts about a command that debits a negative quantity. */
  predicate TakesBack(c: Command, items: seq<Item>) {
    && Debits(c) && Normalized(c.lines) == Some(items) && !NonNegative(items) && !Overflows(items)
    && (c.lines.Some? ==> IntLines(c.lines.value))
  }

  lemma TakenBack(c: Command, items: seq<Item>)
    requires TakesBack(c, items)
    ensures Sorted(items) && Distinct(items) && Negated(items) != []
    ensures forall i :: 0 <= i < |items| ==> Quantity(items, items[i].sku) == items[i].quantity
    ensures forall item <- items :: -INT_MAX <= item.quantity <= INT_MAX && !IsBlank(item.sku)
    ensures forall n <- Negated(items) ::
      0 < n.quantity <= INT_MAX && Quantity(items, n.sku) == -n.quantity && !IsBlank(n.sku)
  {
    hide IsBlank, Quantity;
    MergeLinesSorted(c.lines.value);
    SortedIsDistinct(items);
    GroupedShape(c.lines.value);
    NegatedMeaning(items);
    forall i | 0 <= i < |items| ensures Quantity(items, items[i].sku) == items[i].quantity {
      QuantityAt(items, i);
    }
    var i :| 0 <= i < |items| && items[i].quantity < 0;
    assert items[i] in items;
    forall n | n in Negated(items) ensures Quantity(items, n.sku) == -n.quantity {
      var k :| 0 <= k < |items| && items[k] == Item(n.sku, -n.quantity);
    }
  }

  lemma StockedIsInitial(c: Command, items: seq<Item>)
    requires TakesBack(c, items)
    ensures var db := Stocked(c);
            && Initial(db) && db.stock.Keys == SkusOf(items)
            && (forall i :: 0 <= i < |items| ==>
                 items[i].sku in db.stock && db.stock[items[i].sku] == StockRow(Abs(items[i].quantity), 0))
  {
    hide IsBlank, Quantity;
    TakenBack(c, items);
    forall sku | sku in SkusOf(items) ensures Legal(StockRow(Abs(Clamp(Quantity(items, sku))), 0)) {
      var i :| 0 <= i < |items| && items[i].sku == sku;
      assert items[i] in items;
    }
    forall i | 0 <= i < |items| ensures Clamp(Quantity(items, items[i].sku)) == items[i].quantity {
      assert items[i] in items;
    }
  }

  lemma FirstConserves(c: Command)
    requires Debits(c) && !Conserves(c) && (c.lines.Some? ==> IntLines(c.lines.value))
    ensures var ns := Negated(Normalized(c.lines).value);
            && Normalized(FirstOrder(c).command.lines) == Some(ns) && NonNegative(ns) && Sorted(ns)
            && Debits(FirstOrder(c).command) && Conserves(FirstOrder(c).command)
  {
    hide IsBlank, Quantity, Normalized, Negated, IntLines, Sorted;
    var items := Normalized(c.lines).value;
    TakenBack(c, items);
    assert Sorted(Negated(items)) by { NegatedMeaning(items); }
    GroupedIsGrouped(Negated(items));
  }

  lemma GroupedIsGrouped(ns: seq<Item>)
    requires Sorted(ns) && ns != [] && forall n <- ns :: n.quantity > 0 && !IsBlank(n.sku)
    ensures Normalized(Some(LinesOf(ns))) == Some(ns) && NonNegative(ns)
  {
    hide IsBlank, Sorted;
    forall k | 0 <= k < |ns| ensures ns[k].quantity > 0 && !IsBlank(ns[k].sku) {
      assert ns[k] in ns;
    }
    GroupedAgain(ns);
  }

  /** Stock for a command whose other order has been served: rows with what it takes back, or with what it takes. */
  predicate Prepared(stock: Stock, items: seq<Item>) {
    && stock.Keys == SkusOf(items)
    && forall i :: 0 <= i < |items| ==>
         items[i].sku in stock && stock[items[i].sku] ==
           (if items[i].quantity < 0 then StockRow(0, -items[i].quantity) else StockRow(items[i].quantity, 0))
  }

  lemma CoversNegated(stock: Stock, items: seq<Item>)
    requires Sorted(items)
    requires forall i :: 0 <= i < |items| ==>
      items[i].sku in stock && stock[items[i].sku] == StockRow(Abs(items[i].quantity), 0)
    ensures Verdict(Negated(items), Available(stock, Negated(items))).None?
  {
    hide Negated, Verdict;
    var ns := Negated(items);
    NegatedMeaning(items);
    forall k | 0 <= k < |ns| ensures ns[k].sku in stock && stock[ns[k].sku] == StockRow(ns[k].quantity, 0) {
      assert ns[k] in ns;
      var i :| 0 <= i < |items| && items[i] == Item(ns[k].sku, -ns[k].quantity);
    }
    VerdictMeaning(ns, Available(stock, ns));
    assert Covered(ns, Available(stock, ns));
  }

  lemma NegatedMoves(stock: Stock, items: seq<Item>)
    requires Sorted(items) && Distinct(items) && stock.Keys == SkusOf(items)
    requires forall i :: 0 <= i < |items| ==>
      items[i].sku in stock && stock[items[i].sku] == StockRow(Abs(items[i].quantity), 0)
    ensures SkusOf(Negated(items)) <= stock.Keys
    ensures Prepared(stock + Moved(stock, Negated(items), true), items)
  {
    hide Negated, Quantity, Sorted, Distinct;
    NegatedSkus(items);
    var moved := Moved(stock, Negated(items), true);
    forall i | 0 <= i < |items|
      ensures items[i].sku in stock && (stock + moved)[items[i].sku] ==
                (if items[i].quantity < 0 then StockRow(0, -items[i].quantity) else StockRow(items[i].quantity, 0))
    {
      NegatedAt(items, i);
      if items[i].quantity < 0 && items[i].sku !in SkusOf(Negated(items)) {
        QuantityAbsent(Negated(items), items[i].sku);
      }
    }
  }

  /** The other order is reserved in full. */
  lemma FirstStep(c: Command, items: seq<Item>)
    requires TakesBack(c, items)
    ensures var db, ns := Step(Stocked(c), FirstOrder(c)), Negated(items);
            && db.reservations == map[c.orderId + 1 := ReservedRow(0, ns).(attempts := 1)]
            && Prepared(db.stock, items)
  {
    hide IsBlank, Quantity, Normalized, Verdict, Held, Step, Commits, Negated, Sorted, Distinct,
      Prepared, Moved, Balanced, IntLines;
    var db, e, ns := Stocked(c), FirstOrder(c), Negated(items);
    TakenBack(c, items);
    StockedIsInitial(c, items);
    FirstConserves(c);
    InitiallyBalanced(db);
    CoversNegated(db.stock, items);
    ReserveStep(db, db.stock, e, ns);
    NegatedMoves(db.stock, items);
  }

  lemma NegatedAt(items: seq<Item>, i: nat)
    requires Sorted(items) && Distinct(items) && i < |items|
    ensures items[i].quantity >= 0 ==> items[i].sku !in SkusOf(Negated(items))
    ensures Quantity(Negated(items), items[i].sku) == if items[i].quantity < 0 then -items[i].quantity else 0
  {
    hide Quantity, Negated, Sorted;
    var ns := Negated(items);
    NegatedMeaning(items);
    SortedIsDistinct(ns);
    if items[i].quantity < 0 {
      assert items[i] in items;
      var k :| 0 <= k < |ns| && ns[k] == Item(items[i].sku, -items[i].quantity);
      QuantityAt(ns, k);
    } else {
      forall k | 0 <= k < |ns| ensures ns[k].sku != items[i].sku {
        assert ns[k] in ns;
        var j :| 0 <= j < |items| && items[j] == Item(ns[k].sku, -ns[k].quantity);
      }
      QuantityAbsent(ns, items[i].sku);
    }
  }

  lemma CoversAgain(stock: Stock, items: seq<Item>)
    requires Prepared(stock, items)
    ensures Verdict(items, Available(stock, items)).None?
  {
    hide Verdict;
    VerdictMeaning(items, Available(stock, items));
    assert Covered(items, Available(stock, items));
  }

  lemma TakingBack(stock: Stock, items: seq<Item>)
    requires Prepared(stock, items) && Distinct(items) && forall item <- items :: -INT_MAX <= item.quantity <= INT_MAX
    ensures SkusOf(items) <= stock.Keys && DebitAll(stock, items) == Ok(Moved(stock, items, true))
    ensures Moved(stock, items, true).Keys <= stock.Keys
    ensures forall i :: 0 <= i < |items| && items[i].quantity < 0 ==>
              items[i].sku in Moved(stock, items, true) && Moved(stock, items, true)[items[i].sku].reserved == 0
  {
    hide DebitAll, Quantity;
    forall i | 0 <= i < |items|
      ensures Legal(AfterDebit(stock, items[i])) && Quantity(items, items[i].sku) == items[i].quantity
    {
      assert items[i] in items;
      QuantityAt(items, i);
    }
    DebitMoves(stock, items);
  }

  /** The command passes the check and takes the other order's units back to the available balance. */
  lemma SecondStep(c: Command, items: seq<Item>, db: Db)
    requires TakesBack(c, items) && Prepared(db.stock, items) && c.orderId !in db.reservations
    ensures var after := Step(db, Event(c, 0, map[]));
            && after.stock.Keys == db.stock.Keys
            && (forall o :: o in db.reservations ==>
                 o in after.reservations && after.reservations[o] == db.reservations[o])
            && (forall i :: 0 <= i < |items| && items[i].quantity < 0 ==> after.stock[items[i].sku].reserved == 0)
  {
    hide IsBlank, Quantity, Normalized, Verdict, Held, Negated, Sorted, Distinct, Moved, IntLines, DebitAll;
    TakenBack(c, items);
    CoversAgain(db.stock, items);
    TakingBack(db.stock, items);
  }

  lemma {:induction false} CreditedIsLegal(stock: Stock, items: seq<Item>)
    ensures CreditAll(stock, items).Ok? ==>
      forall sku <- CreditAll(stock, items).value :: Legal(CreditAll(stock, items).value[sku])
  {
    if items != [] {
      CreditedIsLegal(stock, items[..|items| - 1]);
    }
  }

  /** A row with nothing reserved cannot give back what an order holds. */
  lemma NothingToReturn(stock: Stock, ns: seq<Item>)
    requires SkusOf(ns) <= stock.Keys && Distinct(ns) && ns != [] && ns[0].quantity > 0 && ns[0].sku in stock
    requires stock[ns[0].sku].reserved == 0
    ensures CreditAll(stock, ns) != Ok(Moved(stock, ns, false))
  {
    hide CreditAll, Quantity;
    QuantityAt(ns, 0);
    CreditedIsLegal(stock, ns);
    assert ns[0].sku in SkusOf(ns);
    assert Moved(stock, ns, false)[ns[0].sku].reserved == -ns[0].quantity;
  }

  /** After both, releasing the other order is clamped at zero or refused: the books are broken. */
  lemma NegativeBreaksBooks(c: Command)
    requires !Conserves(c) && IntLines(c.lines.value)
    ensures Initial(Stocked(c)) && !Books(Run(Stocked(c), [FirstOrder(c), Event(c, 0, map[])]), Stocked(c).stock)
  {
    hide IsBlank, Quantity, Normalized, Verdict, Held, Step, CreditAll, Negated, Moved, Sorted, Distinct, IntLines, Run;
    var items := Normalized(c.lines).value;
    var db, ns, o := Stocked(c), Negated(items), c.orderId + 1;
    TakenBack(c, items);
    StockedIsInitial(c, items);
    FirstStep(c, items);
    var first := Step(db, FirstOrder(c));
    SecondStep(c, items, first);
    TwoSteps(db, FirstOrder(c), Event(c, 0, map[]));
    var after := Step(first, Event(c, 0, map[]));
    NegatedMeaning(items);
    NegatedSkus(items);
    SortedIsDistinct(ns);
    assert ns[0] in ns;
    var i :| 0 <= i < |items| && items[i] == Item(ns[0].sku, -ns[0].quantity);
    NothingToReturn(after.stock, ns);
    assert !Returns(after, o);
  }

  /** A third order for the units that have been taken back. */
  function ThirdOrder(c: Command): Event
    requires Debits(c)
  {
    Event(Reserve(c.messageId + 2, c.orderId + 2, Some(LinesOf(Negated(Normalized(c.lines).value))), None), 0, map[])
  }

  /** Rows of which an order with a negative quantity cannot be released: nothing on offer that it could give back. */
  predicate Exhausted(stock: Stock, items: seq<Item>) {
    exists i :: 0 <= i < |items| && items[i].quantity < 0 && items[i].sku in stock && stock[items[i].sku].available == 0
  }

  lemma {:induction false} CreditedKeys(stock: Stock, items: seq<Item>)
    ensures CreditAll(stock, items).Ok? ==> CreditAll(stock, items).value.Keys <= SkusOf(items)
  {
    if items != [] {
      var n := |items| - 1;
      CreditedKeys(stock, items[..n]);
      assert items[n].sku in SkusOf(items);
      forall sku | sku in SkusOf(items[..n]) ensures sku in SkusOf(items) {
        var i :| 0 <= i < n && items[..n][i].sku == sku;
        assert items[i].sku == sku;
      }
    }
  }

  /** A release that would leave less than nothing on offer is refused. */
  lemma {:induction false} RefusedCredit(stock: Stock, items: seq<Item>, i: nat)
    requires Distinct(items) && i < |items| && items[i].quantity < 0
    requires items[i].sku in stock && stock[items[i].sku].available == 0
    ensures CreditAll(stock, items).Err?
    decreases |items|
  {
    var n := |items| - 1;
    if i < n {
      RefusedCredit(stock, items[..n], i);
    } else if CreditAll(stock, items[..n]).Ok? {
      CreditedKeys(stock, items[..n]);
      assert items[n].sku !in SkusOf(items[..n]) by {
        forall k | 0 <= k < n ensures items[..n][k].sku != items[n].sku {
          assert items[..n][k] == items[k];
        }
      }
    }
  }

  /** The command takes the first order's units back, and holds what it asked for. */
  lemma TakeBackStep(c: Command, items: seq<Item>, db: Db)
    requires TakesBack(c, items) && Prepared(db.stock, items) && c.orderId !in db.reservations
    ensures var after := Step(db, Event(c, 0, map[]));
            && after.reservations == db.reservations[c.orderId := ReservedRow(0, items).(attempts := 1)]
            && after.stock.Keys == db.stock.Keys
            && forall i :: 0 <= i < |items| && items[i].quantity < 0 ==>
                 items[i].sku in after.stock && after.stock[items[i].sku] == StockRow(-items[i].quantity, 0)
  {
    hide IsBlank, Quantity, Normalized, Verdict, Held, Negated, Sorted, Distinct, IntLines, DebitAll, SkusOf;
    TakenBack(c, items);
    CoversAgain(db.stock, items);
    TakingBack(db.stock, items);
    forall i | 0 <= i < |items| ensures Quantity(items, items[i].sku) == items[i].quantity {
    }
  }

  /** The third order is served from what has been taken back, and nothing of it stays on offer. */
  lemma ThirdStep(c: Command, items: seq<Item>, db: Db)
    requires TakesBack(c, items) && c.orderId + 2 !in db.reservations && db.stock.Keys == SkusOf(items)
    requires forall i :: 0 <= i < |items| && items[i].quantity < 0 ==>
               items[i].sku in db.stock && db.stock[items[i].sku] == StockRow(-items[i].quantity, 0)
    ensures var after := Step(db, ThirdOrder(c));
            && Conserves(ThirdOrder(c).command) && Exhausted(after.stock, items)
            && (forall o :: o in db.reservations ==>
                 o in after.reservations && after.reservations[o] == db.reservations[o])
  {
    hide IsBlank, Quantity, Normalized, Verdict, Held, Negated, Sorted, Distinct, IntLines, DebitAll, SkusOf, Moved;
    var e, ns := ThirdOrder(c), Negated(items);
    TakenBack(c, items);
    FirstConserves(c);
    NegatedMeaning(items);
    assert Distinct(ns) by { SortedIsDistinct(ns); }
    forall k | 0 <= k < |ns| ensures ns[k].sku in db.stock && db.stock[ns[k].sku] == StockRow(ns[k].quantity, 0) {
      assert ns[k] in ns;
      var i :| 0 <= i < |items| && items[i] == Item(ns[k].sku, -ns[k].quantity);
    }
    assert ns[0] in ns;
    var i :| 0 <= i < |items| && items[i] == Item(ns[0].sku, -ns[0].quantity);
    Serves(db, e, ns);
    assert items[i].sku in Step(db, e).stock;
  }

  /** An order for exactly what is on offer in some rows. */
  lemma Serves(db: Db, e: Event, ns: seq<Item>)
    requires Debits(e.command) && Normalized(e.command.lines) == Some(ns) && e.command.orderId !in db.reservations
    requires Distinct(ns) && ns != [] && forall n <- ns :: 0 < n.quantity <= INT_MAX
    requires forall k :: 0 <= k < |ns| ==> ns[k].sku in db.stock && db.stock[ns[k].sku] == StockRow(ns[k].quantity, 0)
    ensures var after := Step(db, e);
            && ns[0].sku in after.stock && after.stock[ns[0].sku].available == 0
            && (forall o :: o in db.reservations ==>
                 o in after.reservations && after.reservations[o] == db.reservations[o])
  {
    hide IsBlank, Quantity, Normalized, Verdict, Distinct, DebitAll;
    VerdictMeaning(ns, Available(db.stock, ns));
    assert Covered(ns, Available(db.stock, ns)) by {
      forall k | 0 <= k < |ns| ensures ns[k].sku in SkusOf(ns) {
      }
    }
    forall k | 0 <= k < |ns| ensures Legal(AfterDebit(db.stock, ns[k])) {
      assert ns[k] in ns;
    }
    DebitMoves(db.stock, ns);
    QuantityAt(ns, 0);
    assert ns[0].sku in SkusOf(ns);
  }

  // ---------------------------------------------------------------- without the bound

  /**
   * Without the 32-bit bound conservation fails: two lines of 2147483647 units reserve minus two, the stock on offer
   * grows, and releasing the other order is clamped, so that two units appear from nowhere.
   */
  lemma WrappedOrderCreatesStock(sku: Sku)
    requires !IsBlank(sku)
    ensures var seed: Stock := map[sku := StockRow(10, 0)];
            var line := Line(Some(sku), INT_MAX);
            var run := [Event(Reserve(1, 1, Some([Line(Some(sku), 5)]), None), 11, map[]),
                        Event(Reserve(2, 2, Some([line, line]), None), 12, map[]),
                        Event(Release(3, 1), 0, map[])];
            (Run(Db(seed, map[], [], {}), run).stock == map[sku := StockRow(12, 0)])
  {
    var line, five := Line(Some(sku), INT_MAX), Line(Some(sku), 5);
    var db0 := Db(map[sku := StockRow(10, 0)], map[], [], {});
    var e1 := Event(Reserve(1, 1, Some([five]), None), 11, map[]);
    var e2 := Event(Reserve(2, 2, Some([line, line]), None), 12, map[]);
    var e3 := Event(Release(3, 1), 0, map[]);
    OneLine(sku, 5);
    SingleItemReserve(db0, e1, sku, 5);
    WrappedOrder(sku);
    SecondAndThird(Step(db0, e1), e2, e3, sku);
    ThreeSteps(db0, e1, e2, e3);
  }

  lemma OneLine(sku: Sku, quantity: int)
    requires !IsBlank(sku) && quantity > 0
    ensures Normalized(Some([Line(Some(sku), quantity)])) == Some([Item(sku, quantity)])
  {
    var line := Line(Some(sku), quantity);
    assert [line][..0] == [];
    assert MergeLines([line]) == [Item(sku, quantity)];
    assert ValidLines([line]);
  }

  lemma SecondAndThird(db: Db, e2: Event, e3: Event, sku: Sku)
    requires db.stock == map[sku := StockRow(5, 5)] && e2.command.Reserve? && e2.command.simulate.None?
    requires Normalized(e2.command.lines) == Some([Item(sku, -2)]) && e2.command.orderId !in db.reservations
    requires e3.command.Release? && e3.command.orderId in db.reservations
    requires db.reservations[e3.command.orderId].status == RESERVED
    requires db.reservations[e3.command.orderId].items == [Item(sku, 5)]
    ensures Step(Step(db, e2), e3).stock == map[sku := StockRow(12, 0)]
  {
    SingleItemReserve(db, e2, sku, -2);
    SingleItemRelease(Step(db, e2), e3, sku, 5);
  }

  lemma ThreeSteps(db: Db, e1: Event, e2: Event, e3: Event)
    ensures Run(db, [e1, e2, e3]) == Step(Step(Step(db, e1), e2), e3)
  {
    assert [e1][..0] == [];
    assert Run(db, [e1]) == Step(db, e1);
    assert [e1, e2][..1] == [e1];
    assert Run(db, [e1, e2]) == Step(Step(db, e1), e2);
    assert [e1, e2, e3][..2] == [e1, e2];
  }

  lemma SingleItemReserve(db: Db, e: Event, sku: Sku, quantity: int)
    requires e.command.Reserve? && e.command.simulate.None? && e.command.orderId !in db.reservations
    requires Normalized(e.command.lines) == Some([Item(sku, quantity)])
    requires sku in db.stock && quantity <= db.stock[sku].available
    requires Legal(StockRow(db.stock[sku].available - quantity, db.stock[sku].reserved + quantity))
    ensures Step(db, e).stock
         == db.stock[sku := StockRow(db.stock[sku].available - quantity, db.stock[sku].reserved + quantity)]
    ensures Step(db, e).reservations
         == db.reservations[e.command.orderId := ReservedRow(e.rid, [Item(sku, quantity)]).(attempts := 1)]
  {
    SingleDebit(db.stock, sku, quantity);
  }

  lemma SingleItemRelease(db: Db, e: Event, sku: Sku, quantity: int)
    requires e.command.Release? && e.command.orderId in db.reservations
    requires db.reservations[e.command.orderId].status == RESERVED
    requires db.reservations[e.command.orderId].items == [Item(sku, quantity)]
    requires sku in db.stock
    requires Legal(StockRow(db.stock[sku].available + quantity, Max(db.stock[sku].reserved - quantity, 0)))
    ensures Step(db, e).stock
         == db.stock[sku := StockRow(db.stock[sku].available + quantity, Max(db.stock[sku].reserved - quantity, 0))]
  {
    SingleCredit(db.stock, sku, quantity);
  }

  lemma SingleDebit(stock: Stock, sku: Sku, quantity: int)
    requires sku in stock && quantity <= stock[sku].available
    requires Legal(StockRow(stock[sku].available - quantity, stock[sku].reserved + quantity))
    ensures Verdict([Item(sku, quantity)], Available(stock, [Item(sku, quantity)])).None?
    ensures DebitAll(stock, [Item(sku, quantity)])
         == Ok(map[sku := StockRow(stock[sku].available - quantity, stock[sku].reserved + quantity)])
  {
    var items := [Item(sku, quantity)];
    assert items[0].sku in SkusOf(items);
    VerdictMeaning(items, Available(stock, items));
    assert items[..0] == [];
  }

  lemma SingleCredit(stock: Stock, sku: Sku, quantity: int)
    requires sku in stock
    requires Legal(StockRow(stock[sku].available + quantity, Max(stock[sku].reserved - quantity, 0)))
    ensures CreditAll(stock, [Item(sku, quantity)])
         == Ok(map[sku := StockRow(stock[sku].available + quantity, Max(stock[sku].reserved - quantity, 0))])
  {
    assert [Item(sku, quantity)][..0] == [];
  }
}
