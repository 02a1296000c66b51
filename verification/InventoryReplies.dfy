/** What each committed command stores and answers, told from the payload and the tables alone. */
module InventoryReplies {
  import opened Prelude
  import opened Skus
  import opened StockAllocator
  import opened InventoryModel
  import H = InventoryHistory
  import C = InventoryConservation

  // ---------------------------------------------------------------- malformed orders

  /** Java's white space: the controls and separators of lines, and the spaces that may break. */
  predicate IsSpace(c: char) {
    c in {'\U{9}', '\U{A}', '\U{B}', '\U{C}', '\U{D}', '\U{1C}', '\U{1D}', '\U{1E}', '\U{1F}', ' ', '\U{1680}',
          '\U{2000}', '\U{2001}', '\U{2002}', '\U{2003}', '\U{2004}', '\U{2005}', '\U{2006}', '\U{2008}', '\U{2009}',
          '\U{200A}', '\U{2028}', '\U{2029}', '\U{205F}', '\U{3000}'}
  }

  predicate IsMalformed(line: Line) {
    line.Line? ==> line.quantity < 1 || line.sku.None? || forall c <- line.sku.value :: IsSpace(c)
  }

  lemma SpaceIsWhitespace(c: char)
    ensures IsSpace(c) <==> IsWhitespace(c)
  {
    var n := c as int;
    if 0x2000 <= n <= 0x2006 {
      assert c in {'\U{2000}', '\U{2001}', '\U{2002}', '\U{2003}', '\U{2004}', '\U{2005}', '\U{2006}'};
    }
  }

  /**
   * A payload is refused exactly when it has no lines, or some line is null, asks for less than one, or has no SKU or
   * one of white space only.
   */
  lemma MalformedOrders(lines: Option<seq<Line>>)
    ensures Normalized(lines).None? <==>
            lines.None? || |lines.value| == 0 || exists line <- lines.value :: IsMalformed(line)
  {
    forall c: char ensures IsSpace(c) <==> IsWhitespace(c) {
      SpaceIsWhitespace(c);
    }
    if lines.Some? {
      forall line <- lines.value ensures ValidLine(line) <==> !IsMalformed(line) {
        OneLine(line);
      }
      hide ValidLine, IsMalformed;
    }
  }

  lemma OneLine(line: Line)
    requires forall c: char :: IsSpace(c) <==> IsWhitespace(c)
    ensures ValidLine(line) <==> !IsMalformed(line)
  {
    hide IsSpace, IsWhitespace;
    if line.Line? && line.sku.Some? {
      var s := line.sku.value;
      assert IsBlank(s) <==> forall c <- s :: IsSpace(c) by {
        if !IsBlank(s) {
          var i :| 0 <= i < |s| && !IsWhitespace(s[i]);
          assert s[i] in s;
        }
      }
    }
  }

  // ---------------------------------------------------------------- details of a rejection

  predicate InSkuOrder(details: seq<Detail>) {
    forall i, j :: 0 <= i < j < |details| ==> Less(details[i].sku, details[j].sku)
  }

  /** Exactly the items whose SKU has no balance, in order, with what was asked and zero. */
  predicate ListsUnknown(details: seq<Detail>, items: seq<Item>, balance: map<Sku, int>) {
    && InSkuOrder(details)
    && (forall d <- details ::
          exists i :: 0 <= i < |items| && items[i].sku !in balance && d == Detail(items[i].sku, items[i].quantity, 0))
    && forall i ::
         0 <= i < |items| && items[i].sku !in balance ==> Detail(items[i].sku, items[i].quantity, 0) in details
  }

  predicate IsShort(item: Item, balance: map<Sku, int>) {
    item.sku in balance && balance[item.sku] < item.quantity
  }

  /** Exactly the items that ask for more than the balance, in order, with both. */
  predicate ListsShort(details: seq<Detail>, items: seq<Item>, balance: map<Sku, int>) {
    && InSkuOrder(details)
    && (forall d <- details ::
          exists i :: 0 <= i < |items| && IsShort(items[i], balance)
                      && d == Detail(items[i].sku, items[i].quantity, balance[items[i].sku]))
    && forall i :: 0 <= i < |items| && IsShort(items[i], balance) ==>
         Detail(items[i].sku, items[i].quantity, balance[items[i].sku]) in details
  }

  lemma UnknownSnoc(details: seq<Detail>, front: seq<Item>, last: Item, balance: map<Sku, int>)
    requires ListsUnknown(details, front, balance) && Sorted(front + [last])
    ensures var more := if last.sku !in balance then [Detail(last.sku, last.quantity, 0)] else [];
            ListsUnknown(details + more, front + [last], balance)
  {
    hide Less;
    var items := front + [last];
    assert forall i :: 0 <= i < |front| ==> items[i] == front[i];
    assert items[|front|] == last;
    forall d | d in details ensures Less(d.sku, last.sku) {
      var i :| 0 <= i < |front| && front[i].sku !in balance && d == Detail(front[i].sku, front[i].quantity, 0);
      assert items[i] == front[i];
    }
  }

  lemma {:induction false} UnknownLists(items: seq<Item>, balance: map<Sku, int>)
    requires Sorted(items)
    ensures ListsUnknown(Unknown(items, balance), items, balance)
  {
    hide Less;
    if items != [] {
      var front, last := items[..|items| - 1], items[|items| - 1];
      UnknownLists(front, balance);
      assert items == front + [last];
      UnknownSnoc(Unknown(front, balance), front, last, balance);
      hide ListsUnknown;
    }
  }

  lemma ShortSnoc(details: seq<Detail>, front: seq<Item>, last: Item, balance: map<Sku, int>)
    requires ListsShort(details, front, balance) && Sorted(front + [last])
    ensures var more := if IsShort(last, balance) then [Detail(last.sku, last.quantity, balance[last.sku])] else [];
            ListsShort(details + more, front + [last], balance)
  {
    hide Less;
    var items := front + [last];
    assert forall i :: 0 <= i < |front| ==> items[i] == front[i];
    assert items[|front|] == last;
    forall d | d in details ensures Less(d.sku, last.sku) {
      var i :| 0 <= i < |front| && IsShort(front[i], balance)
               && d == Detail(front[i].sku, front[i].quantity, balance[front[i].sku]);
      assert items[i] == front[i];
    }
  }

  lemma {:induction false} ShortLists(items: seq<Item>, balance: map<Sku, int>)
    requires Sorted(items)
    ensures ListsShort(Insufficient(items, balance), items, balance)
  {
    hide Less;
    if items != [] {
      var front, last := items[..|items| - 1], items[|items| - 1];
      ShortLists(front, balance);
      assert items == front + [last];
      ShortSnoc(Insufficient(front, balance), front, last, balance);
      hide ListsShort;
    }
  }

  // ---------------------------------------------------------------- the first reserve of an order

  /** A debit that goes through has moved every quantity, once. */
  lemma {:induction false} DebitedIsMoved(stock: Stock, items: seq<Item>)
    requires Distinct(items) && DebitAll(stock, items).Ok?
    ensures SkusOf(items) <= stock.Keys && DebitAll(stock, items).value == C.Moved(stock, items, true)
    decreases |items|
  {
    hide *;
    if items == [] {
      C.MovedNone(stock, items, true);
    } else {
      var front, last := items[..|items| - 1], items[|items| - 1];
      assert items == front + [last];
      C.DistinctSnoc(front, last);
      LastDebit(stock, front, last);
      DebitedIsMoved(stock, front);
      SkusSnoc(front, last);
      LastIsNew(stock, front, last);
      C.MovedSnoc(stock, front, last, true);
    }
  }

  lemma LastDebit(stock: Stock, front: seq<Item>, last: Item)
    requires DebitAll(stock, front + [last]).Ok?
    ensures DebitAll(stock, front).Ok?
    ensures var dirty := DebitAll(stock, front).value;
            && Debit(stock, dirty, last) == DebitAll(stock, front + [last])
            && (last.sku !in dirty ==>
                 && last.sku in stock
                 && DebitAll(stock, front + [last]).value ==
                    dirty[last.sku := StockRow(stock[last.sku].available - last.quantity,
                                               stock[last.sku].reserved + last.quantity)])
  {
    hide Legal;
    assert (front + [last])[..|front|] == front;
  }

  lemma LastIsNew(stock: Stock, front: seq<Item>, last: Item)
    requires SkusOf(front) <= stock.Keys && last.sku !in SkusOf(front)
    ensures last.sku !in C.Moved(stock, front, true)
  {
  }

  /** Every row of `stock`, less or more by what the items ask. */
  predicate Took(before: Stock, after: Stock, items: seq<Item>) {
    && after.Keys == before.Keys
    && forall sku <- before ::
         var n := Quantity(items, sku);
         after[sku] == StockRow(before[sku].available - n, before[sku].reserved + n)
  }

  lemma MovedTakes(stock: Stock, items: seq<Item>)
    requires SkusOf(items) <= stock.Keys
    ensures Took(stock, stock + C.Moved(stock, items, true), items)
  {
    forall sku | sku in stock && sku !in SkusOf(items) ensures Quantity(items, sku) == 0 {
      QuantityAbsent(items, sku);
    }
  }

  function Balances(stock: Stock): map<Sku, int> {
    map sku | sku in stock :: stock[sku].available
  }

  predicate IsRejected(r: Reservation, items: seq<Item>, reason: Reason) {
    && r.status == REJECTED && r.items == items && r.reservationId == None && !r.noop
    && r.rejection.Some? && r.rejection.value.reason == reason
  }

  /** What a first reserve makes of the stock and of the order's row, before the attempt is counted. */
  predicate Outcome(before: Stock, after: Stock, r: Reservation, items: seq<Item>, simulate: Option<string>, rid: Uuid,
                    seen: map<Sku, int>)
  {
    if simulate == Some("OUT_OF_STOCK") then
      after == before && IsRejected(r, items, OUT_OF_STOCK) && QuotesSeen(r.rejection.value.details, items, seen)
    else if exists i :: 0 <= i < |items| && items[i].sku !in before then
      && after == before && IsRejected(r, items, UNKNOWN_SKU)
      && ListsUnknown(r.rejection.value.details, items, Balances(before))
    else if exists i :: 0 <= i < |items| && IsShort(items[i], Balances(before)) then
      && after == before && IsRejected(r, items, OUT_OF_STOCK)
      && ListsShort(r.rejection.value.details, items, Balances(before))
    else
      Took(before, after, items) && r.reservationId == Some(rid) && r.status == RESERVED && r.items == items
  }

  /** One detail for each item, with the balance that was read, zero for a SKU without one. */
  predicate QuotesSeen(details: seq<Detail>, items: seq<Item>, seen: map<Sku, int>) {
    && |details| == |items|
    && forall i :: 0 <= i < |items| ==>
         && details[i].sku == items[i].sku && details[i].requested == items[i].quantity
         && (items[i].sku in seen ==> details[i].available == seen[items[i].sku])
         && (items[i].sku !in seen ==> details[i].available == 0)
  }

  lemma ExecutedOutcome(stock: Stock, lines: Option<seq<Line>>, items: seq<Item>, simulate: Option<string>, rid: Uuid,
                        seen: map<Sku, int>)
    requires Normalized(lines) == Some(items)
    ensures var e := Executed(stock, lines, SimulateMode(simulate), rid, seen);
            e.Ok? ==> Outcome(stock, stock + e.value.rows, e.value.row, items, simulate, rid, seen)
  {
    hide Normalized, DebitAll, Verdict, Quantity, ListsUnknown, ListsShort, Took, Available, SkusOf, Covered, Balances;
    hide IsShort, Sorted, Distinct, QuotesSeen, SimulatedDetails;
    QuotedIsSeen(items, seen);
    assert stock + map[] == stock;
    GroupedIsSorted(lines, items);
    CheckOutcome(stock, items);
    if DebitAll(stock, items).Ok? {
      DebitTakes(stock, items);
    }
  }

  lemma QuotedIsSeen(items: seq<Item>, seen: map<Sku, int>)
    ensures QuotesSeen(SimulatedDetails(items, seen), items, seen)
  {
  }

  lemma DebitTakes(stock: Stock, items: seq<Item>)
    requires Distinct(items) && DebitAll(stock, items).Ok?
    ensures Took(stock, stock + DebitAll(stock, items).value, items)
  {
    DebitedIsMoved(stock, items);
    MovedTakes(stock, items);
  }

  lemma CheckOutcome(stock: Stock, items: seq<Item>)
    requires Sorted(items)
    ensures var verdict := Verdict(items, Available(stock, items));
            if exists i :: 0 <= i < |items| && items[i].sku !in stock then
              verdict.Some? && verdict.value.reason == UNKNOWN_SKU
              && ListsUnknown(verdict.value.details, items, Balances(stock))
            else if exists i :: 0 <= i < |items| && IsShort(items[i], Balances(stock)) then
              verdict.Some? && verdict.value.reason == OUT_OF_STOCK
              && ListsShort(verdict.value.details, items, Balances(stock))
            else verdict.None? && Covered(items, Available(stock, items))
  {
    hide Unknown, Insufficient, ListsUnknown, ListsShort;
    var available := Available(stock, items);
    UnknownLists(items, available);
    ShortLists(items, available);
    VerdictMeaning(items, available);
    QuotesStock(stock, items, Unknown(items, available), Insufficient(items, available));
    hide Available, IsShort;
  }

  /**
   * The first reserve of an order that commits: all of it is taken if every SKU exists and suffices, and nothing
   * otherwise, with the SKUs that do not exist as the reason before those that fall short.
   */
  lemma FirstReserve(db: Db, c: Command, rid: Uuid, seen: map<Sku, int>, items: seq<Item>)
    requires c.Reserve? && c.orderId !in db.reservations && Normalized(c.lines) == Some(items)
    requires Handle(db, c, rid, seen).Ok?
    ensures var after := Handle(db, c, rid, seen).value;
            && after.reservations.Keys == db.reservations.Keys + {c.orderId}
            && (forall o <- db.reservations :: after.reservations[o] == db.reservations[o])
            && Outcome(db.stock, after.stock, after.reservations[c.orderId], items, c.simulate, rid, seen)
            && after.reservations[c.orderId].attempts == 1
  {
    ExecutedOutcome(db.stock, c.lines, items, c.simulate, rid, seen);
    ExecutedShape(db.stock, c.lines, SimulateMode(c.simulate), rid, seen);
    hide Executed, Normalized, SimulateMode, Outcome;
    var e := Executed(db.stock, c.lines, SimulateMode(c.simulate), rid, seen).value;
    AttemptsAside(db.stock, db.stock + e.rows, e.row, items, c.simulate, rid, seen);
  }

  /** The outcome does not depend on the counter. */
  lemma AttemptsAside(before: Stock, after: Stock, r: Reservation, items: seq<Item>, simulate: Option<string>,
                      rid: Uuid, seen: map<Sku, int>)
    requires Outcome(before, after, r, items, simulate, rid, seen)
    ensures Outcome(before, after, r.(attempts := r.attempts + 1), items, simulate, rid, seen)
  {
    hide ListsUnknown, ListsShort, Took, QuotesSeen, IsShort, Balances;
  }

  lemma GroupedIsSorted(lines: Option<seq<Line>>, items: seq<Item>)
    requires Normalized(lines) == Some(items)
    ensures Sorted(items) && Distinct(items)
  {
    MergeLinesSorted(lines.value);
    SortedIsDistinct(items);
  }

  /** The balances that were read are those of the rows. */
  lemma QuotesStock(stock: Stock, items: seq<Item>, unknown: seq<Detail>, short: seq<Detail>)
    requires ListsUnknown(unknown, items, Available(stock, items))
    requires ListsShort(short, items, Available(stock, items))
    ensures ListsUnknown(unknown, items, Balances(stock)) && ListsShort(short, items, Balances(stock))
    ensures Covered(items, Available(stock, items)) <==>
              forall i :: 0 <= i < |items| ==> items[i].sku in stock && !IsShort(items[i], Balances(stock))
    ensures forall i :: 0 <= i < |items| ==> (items[i].sku in Available(stock, items) <==> items[i].sku in stock)
  {
    var available := Available(stock, items);
    forall i | 0 <= i < |items|
      ensures items[i].sku in available <==> items[i].sku in stock
      ensures items[i].sku in stock ==> available[items[i].sku] == Balances(stock)[items[i].sku]
    {
      assert items[i].sku in SkusOf(items);
    }
  }

  // ---------------------------------------------------------------- answers

  /** The answer to a reserve, by the order's row when it is answered. */
  predicate AnswersReserve(reply: Reply, row: Reservation) {
    match row.status
    case RESERVED => reply == Reserved(row.reservationId, row.items)
    case REJECTED => reply == Rejected(row.rejection)
    case RELEASED => reply == Rejected(Some(Rejection(ALREADY_COMPENSATED, [])))
  }

  /** A reserve that is not answered: a simulated timeout of an order that has not been released. */
  predicate IsSilent(db: Db, c: Command) {
    && c.Reserve? && c.simulate == Some("TIMEOUT")
    && !(c.orderId in db.reservations && db.reservations[c.orderId].status == RELEASED)
  }

  /**
   * A committed reserve leaves one more message, with its own order and id, that says what the order's row is now,
   * unless it simulates a timeout; the attempt is counted unless the order has been released.
   */
  lemma ReserveReplies(db: Db, c: Command, rid: Uuid, seen: map<Sku, int>)
    requires H.History(db) && c.Reserve? && Handle(db, c, rid, seen).Ok?
    ensures var after := Handle(db, c, rid, seen).value;
            && c.orderId in after.reservations
            && (if IsSilent(db, c) then after.outbox == db.outbox
                else |after.outbox| == |db.outbox| + 1 && db.outbox <= after.outbox
                     && after.outbox[|db.outbox|].orderId == c.orderId
                     && after.outbox[|db.outbox|].causationId == c.messageId
                     && AnswersReserve(after.outbox[|db.outbox|].reply, after.reservations[c.orderId]))
            && (c.orderId in db.reservations ==>
                 var was := db.reservations[c.orderId];
                 && after.stock == db.stock
                 && after.reservations == db.reservations[c.orderId :=
                      was.(attempts := was.attempts + if was.status == RELEASED then 0 else 1)])
            && after.processed == db.processed + {c.messageId}
  {
    hide Executed, SimulatedDetails;
    assert db.stock + map[] == db.stock;
    if c.orderId !in db.reservations {
      ExecutedShape(db.stock, c.lines, SimulateMode(c.simulate), rid, seen);
    }
  }

  lemma ExecutedShape(stock: Stock, lines: Option<seq<Line>>, mode: Option<string>, rid: Uuid, seen: map<Sku, int>)
    ensures var e := Executed(stock, lines, mode, rid, seen);
            e.Ok? ==> e.value.row.status != RELEASED && e.value.row.attempts == 0
  {
  }

  /** The answer to a release. */
  predicate AnswersRelease(reply: Reply, row: Reservation) {
    reply == if row.status == REJECTED then Released(None, true) else Released(row.reservationId, row.noop)
  }

  /** Every row of `stock`, more or less by what the items give back. */
  predicate GaveBack(before: Stock, after: Stock, items: seq<Item>) {
    && after.Keys == before.Keys
    && forall sku <- before ::
         var n := Quantity(items, sku);
         after[sku] == StockRow(before[sku].available + n, before[sku].reserved - n)
  }

  /**
   * A release always commits when the books balance, and is always answered: an order that held stock gives all of it
   * back, one without a row gets a tombstone, and any other stays as it is.
   */
  lemma ReleaseReplies(db: Db, seed: Stock, c: Command, rid: Uuid, seen: map<Sku, int>)
    requires H.History(db) && C.Balanced(db, seed) && c.Release?
    ensures Handle(db, c, rid, seen).Ok?
    ensures var after := Handle(db, c, rid, seen).value;
            && c.orderId in after.reservations
            && var row := after.reservations[c.orderId];
            && |after.outbox| == |db.outbox| + 1 && db.outbox <= after.outbox
            && after.outbox[|db.outbox|].orderId == c.orderId
            && after.outbox[|db.outbox|].causationId == c.messageId
            && AnswersRelease(after.outbox[|db.outbox|].reply, row)
            && after.reservations == db.reservations[c.orderId := row]
            && (if c.orderId !in db.reservations then
                  after.stock == db.stock && row == Reservation(None, RELEASED, [], true, None, 0)
                else if db.reservations[c.orderId].status == RESERVED then
                  && GaveBack(db.stock, after.stock, db.reservations[c.orderId].items)
                  && row == db.reservations[c.orderId].(status := RELEASED)
                else after.stock == db.stock && row == db.reservations[c.orderId])
            && after.processed == db.processed + {c.messageId}
  {
    assert db.stock + map[] == db.stock;
    if c.orderId in db.reservations && db.reservations[c.orderId].status == RESERVED {
      CreditGivesBack(db, seed, c.orderId);
      assert H.RowShape(db.reservations[c.orderId]);
    }
    hide CreditAll, C.Balanced, GaveBack;
  }

  lemma CreditGivesBack(db: Db, seed: Stock, o: Uuid)
    requires C.Balanced(db, seed) && o in db.reservations && db.reservations[o].status == RESERVED
    ensures var credit := CreditAll(db.stock, db.reservations[o].items);
            credit.Ok? && GaveBack(db.stock, db.stock + credit.value, db.reservations[o].items)
  {
    var items := db.reservations[o].items;
    hide CreditAll, C.Balanced, Quantity;
    C.ReleaseCredits(db, seed, o);
    MovedGivesBack(db.stock, items);
  }

  lemma MovedGivesBack(stock: Stock, items: seq<Item>)
    requires SkusOf(items) <= stock.Keys
    ensures GaveBack(stock, stock + C.Moved(stock, items, false), items)
  {
    hide Quantity;
    forall sku | sku in stock && sku !in SkusOf(items) ensures Quantity(items, sku) == 0 {
      QuantityAbsent(items, sku);
    }
  }

  /**
   * Over every run: each command that commits is answered then and there, with its own order and id, and the answer is
   * never withdrawn; only simulated timeouts and messages of an unknown type are not.
   */
  lemma EveryCommandIsAnswered(db: Db, events: seq<Event>, k: nat)
    requires Initial(db) && k < |events| && Commits(Run(db, events[..k]), events[k])
    requires !events[k].command.Unrecognised?
    ensures var before, c, after := Run(db, events[..k]), events[k].command, Run(db, events);
            if IsSilent(before, c) then Run(db, events[..k + 1]).outbox == before.outbox
            else |before.outbox| < |after.outbox|
                 && after.outbox[|before.outbox|].orderId == c.orderId
                 && after.outbox[|before.outbox|].causationId == c.messageId
                 && after.outbox[|before.outbox|].reply.Released? == c.Release?
  {
    var before, e := Run(db, events[..k]), events[k];
    H.RunHistory(db, events[..k]);
    H.RunPrefix(db, events, k);
    H.OutboxGrows(db, events, k + 1);
    if e.command.Reserve? {
      ReserveReplies(before, e.command, e.rid, e.seen);
    } else {
      hide CreditAll;
    }
  }

  // ---------------------------------------------------------------- attempts

  /** Reserves of the order that were committed while it was not released. */
  function Attempts(db: Db, events: seq<Event>, o: Uuid): nat {
    if events == [] then 0
    else
      var before, e := Run(db, events[..|events| - 1]), events[|events| - 1];
      Attempts(db, events[..|events| - 1], o)
      + (if && e.command.Reserve? && e.command.orderId == o && Commits(before, e)
            && !(o in before.reservations && before.reservations[o].status == RELEASED) then 1 else 0)
  }

  /** The counter in the row counts them, over every run. */
  lemma {:induction false} AttemptsAreCounted(db: Db, events: seq<Event>, o: Uuid)
    requires Initial(db)
    ensures Attempts(db, events, o) ==
            if o in Run(db, events).reservations then Run(db, events).reservations[o].attempts else 0
    decreases |events|
  {
    if events != [] {
      var front, e := events[..|events| - 1], events[|events| - 1];
      AttemptsAreCounted(db, front, o);
      H.RunHistory(db, front);
      OneAttempt(Run(db, front), e, o);
    }
  }

  lemma OneAttempt(db: Db, e: Event, o: Uuid)
    requires H.History(db)
    ensures var after := Step(db, e);
            (if o in after.reservations then after.reservations[o].attempts else 0)
            == (if o in db.reservations then db.reservations[o].attempts else 0)
               + if && e.command.Reserve? && e.command.orderId == o && Commits(db, e)
                    && !(o in db.reservations && db.reservations[o].status == RELEASED) then 1 else 0
  {
    hide CreditAll, SimulatedDetails, Executed;
    if e.command.Reserve? && Commits(db, e) && o !in db.reservations {
      ExecutedShape(db.stock, e.command.lines, SimulateMode(e.command.simulate), e.rid, e.seen);
    }
  }
}
