/**
 * The inventory participant as a function on its database: what one `inventory.reserve` or `inventory.release`
 * command writes, and what runs of commands leave behind.
 */
module InventoryModel {
  import opened Prelude
  import opened Skus
  import opened StockAllocator

  type Uuid = nat

  datatype StockRow = StockRow(available: int, reserved: int)

  datatype Status = RESERVED | RELEASED | REJECTED

  datatype Reservation = Reservation(reservationId: Option<Uuid>, status: Status, items: seq<Item>, noop: bool,
                                     rejection: Option<Rejection>, attempts: nat)

  /** Payloads of `inventory.events`. */
  datatype Reply =
    | Reserved(reservationId: Option<Uuid>, items: seq<Item>)
    | Rejected(rejection: Option<Rejection>)
    | Released(reservationId: Option<Uuid>, noop: bool)

  datatype Message = Message(orderId: Uuid, causationId: Uuid, reply: Reply)

  datatype Command =
    | Reserve(messageId: Uuid, orderId: Uuid, lines: Option<seq<Line>>, simulate: Option<string>)
    | Release(messageId: Uuid, orderId: Uuid)
    | Unrecognised(messageId: Uuid, orderId: Uuid)

  type Stock = map<Sku, StockRow>
  type Reservations = map<Uuid, Reservation>

  datatype Db = Db(stock: Stock, reservations: Reservations, outbox: seq<Message>, processed: set<Uuid>)

  /** Why a transaction is rolled back. */
  datatype Fault = MALFORMED | INSUFFICIENT_DESPITE_LOCK | SKU_MISSING_ON_RELEASE | SQL_ERROR

  // ---------------------------------------------------------------- Reservation.java

  function ReservedRow(id: Uuid, items: seq<Item>): Reservation {
    Reservation(Some(id), RESERVED, items, false, None, 0)
  }

  function RejectedRow(items: seq<Item>, rejection: Rejection): Reservation {
    Reservation(None, REJECTED, items, false, Some(rejection), 0)
  }

  const TOMBSTONE: Reservation := Reservation(None, RELEASED, [], true, None, 0)

  // ---------------------------------------------------------------- Simulate.java, ReplyPolicy.java

  const SIMULATE_OUT_OF_STOCK := "OUT_OF_STOCK"
  const SIMULATE_TIMEOUT := "TIMEOUT"
  const SIMULATE_TIMEOUT_ONCE := "TIMEOUT_ONCE"

  /** Modes the inventory accepts; any other is ignored with a warning. */
  function SimulateMode(mode: Option<string>): Option<string> {
    if mode == Some(SIMULATE_OUT_OF_STOCK) || mode == Some(SIMULATE_TIMEOUT) then mode else None
  }

  predicate ShouldReply(mode: Option<string>, attempts: int) {
    if mode == Some(SIMULATE_TIMEOUT) then false
    else if mode == Some(SIMULATE_TIMEOUT_ONCE) then attempts >= 2
    else true
  }

  // ---------------------------------------------------------------- stock rows

  /** Column type and CHECK constraints of `stock`; a row that breaks them is an SQL error. */
  predicate Legal(row: StockRow) {
    0 <= row.available <= INT_MAX && 0 <= row.reserved <= INT_MAX
  }

  /** The row as the transaction sees it: its own write, else the committed row. */
  function View(stock: Stock, dirty: Stock, sku: Sku): Option<StockRow> {
    if sku in dirty then Some(dirty[sku]) else if sku in stock then Some(stock[sku]) else None
  }

  function Stored(dirty: Stock, sku: Sku, row: StockRow): Result<Stock, Fault> {
    if Legal(row) then Ok(dirty[sku := row]) else Err(SQL_ERROR)
  }

  /** Conditional debit of one SKU; no updated row makes the handler throw. */
  function Debit(stock: Stock, dirty: Stock, item: Item): Result<Stock, Fault> {
    var row := View(stock, dirty, item.sku);
    if row.None? || row.value.available < item.quantity then Err(INSUFFICIENT_DESPITE_LOCK)
    else Stored(dirty, item.sku,
                StockRow(row.value.available - item.quantity, row.value.reserved + item.quantity))
  }

  /** Return of one item to the available balance, with the clamp at zero. */
  function Credit(stock: Stock, dirty: Stock, item: Item): Result<Stock, Fault> {
    var row := View(stock, dirty, item.sku);
    if row.None? then Err(SKU_MISSING_ON_RELEASE)
    else Stored(dirty, item.sku,
                StockRow(row.value.available + item.quantity, Max(row.value.reserved - item.quantity, 0)))
  }

  function DebitAll(stock: Stock, items: seq<Item>): Result<Stock, Fault> {
    if items == [] then Ok(map[])
    else
      var dirty :- DebitAll(stock, items[..|items| - 1]);
      Debit(stock, dirty, items[|items| - 1])
  }

  function CreditAll(stock: Stock, items: seq<Item>): Result<Stock, Fault> {
    if items == [] then Ok(map[])
    else
      var dirty :- CreditAll(stock, items[..|items| - 1]);
      Credit(stock, dirty, items[|items| - 1])
  }

  /** Balances of the requested SKUs that have a row. */
  function Available(stock: Stock, items: seq<Item>): map<Sku, int> {
    map sku | sku in SkusOf(items) && sku in stock :: stock[sku].available
  }

  // ---------------------------------------------------------------- one command

  /** Stock rows and reservation row left by `execute`. */
  datatype Execution = Execution(rows: Stock, row: Reservation)

  /** Writes of a committed transaction, beside the processed-message mark. */
  datatype Writes = Writes(rows: Stock, row: Option<Reservation>, reply: Option<Reply>)

  function ReplyOf(row: Reservation): Reply {
    if row.status == RESERVED then Reserved(row.reservationId, row.items) else Rejected(row.rejection)
  }

  /** `execute`: the all-or-nothing reservation, or the simulated rejection built from balances read without locks. */
  function Executed(stock: Stock, lines: Option<seq<Line>>, mode: Option<string>, rid: Uuid, seen: map<Sku, int>)
    : Result<Execution, Fault>
  {
    var requested := Normalized(lines);
    if requested.None? then Err(MALFORMED)
    else
      var items := requested.value;
      if mode == Some(SIMULATE_OUT_OF_STOCK) then
        Ok(Execution(map[], RejectedRow(items, Rejection(OUT_OF_STOCK, SimulatedDetails(items, seen)))))
      else
        var verdict := Verdict(items, Available(stock, items));
        if verdict.Some? then Ok(Execution(map[], RejectedRow(items, verdict.value)))
        else
          var rows :- DebitAll(stock, items);
          Ok(Execution(rows, ReservedRow(rid, items)))
  }

  /** Counts the attempt on the row and answers from it, unless the simulation asks for silence. */
  function Answered(e: Execution, mode: Option<string>): Writes {
    var counted := e.row.(attempts := e.row.attempts + 1);
    Writes(e.rows, Some(counted), if ShouldReply(mode, counted.attempts) then Some(ReplyOf(e.row)) else None)
  }

  /** The row after a release, with the answer it gives. */
  function Compensated(rows: Stock, r: Reservation): Writes {
    Writes(rows, Some(r.(status := RELEASED, noop := false)), Some(Released(r.reservationId, false)))
  }

  function Reserving(stock: Stock, existing: Option<Reservation>, c: Command, rid: Uuid, seen: map<Sku, int>)
    : Result<Writes, Fault>
    requires c.Reserve?
  {
    var mode := SimulateMode(c.simulate);
    if existing.Some? && existing.value.status == RELEASED then
      Ok(Writes(map[], None, Some(Rejected(Some(Rejection(ALREADY_COMPENSATED, []))))))
    else
      var e :- if existing.Some? then Ok(Execution(map[], existing.value))
               else Executed(stock, c.lines, mode, rid, seen);
      Ok(Answered(e, mode))
  }

  function Releasing(stock: Stock, existing: Option<Reservation>): Result<Writes, Fault> {
    if existing.None? then Ok(Writes(map[], Some(TOMBSTONE), Some(Released(None, true))))
    else
      var r := existing.value;
      match r.status
      case RESERVED =>
        var rows :- CreditAll(stock, r.items);
        Ok(Compensated(rows, r))
      case RELEASED => Ok(Writes(map[], None, Some(Released(r.reservationId, r.noop))))
      case REJECTED => Ok(Writes(map[], None, Some(Released(None, true))))
  }

  /** Everything a transaction writes, from the rows it reads. */
  function Effect(stock: Stock, existing: Option<Reservation>, c: Command, rid: Uuid, seen: map<Sku, int>)
    : Result<Writes, Fault>
  {
    match c
    case Reserve(_, _, _, _) => Reserving(stock, existing, c, rid, seen)
    case Release(_, _) => Releasing(stock, existing)
    case Unrecognised(_, _) => Ok(Writes(map[], None, None))
  }

  function Lookup<K(==), V>(m: map<K, V>, k: K): Option<V> {
    if k in m then Some(m[k]) else None
  }

  function Applied(db: Db, c: Command, w: Writes): Db {
    Db(db.stock + w.rows,
       if w.row.Some? then db.reservations[c.orderId := w.row.value] else db.reservations,
       if w.reply.Some? then db.outbox + [Message(c.orderId, c.messageId, w.reply.value)] else db.outbox,
       db.processed + {c.messageId})
  }

  /** One command as one atomic transaction; an exception leaves no trace. */
  function Handle(db: Db, c: Command, rid: Uuid, seen: map<Sku, int>): Result<Db, Fault> {
    var w :- Effect(db.stock, Lookup(db.reservations, c.orderId), c, rid, seen);
    Ok(Applied(db, c, w))
  }

  // ---------------------------------------------------------------- runs

  /**
   * A delivered command with what its transaction got from outside: the random reservation id, and the balances
   * that the unlocked read of a simulated rejection returned.
   */
  datatype Event = Event(command: Command, rid: Uuid, seen: map<Sku, int>)

  predicate Commits(db: Db, e: Event) {
    Handle(db, e.command, e.rid, e.seen).Ok?
  }

  function Step(db: Db, e: Event): Db {
    if Commits(db, e) then Handle(db, e.command, e.rid, e.seen).value else db
  }

  function Run(db: Db, events: seq<Event>): Db {
    if events == [] then db else Step(Run(db, events[..|events| - 1]), events[|events| - 1])
  }

  lemma {:induction false} RunSplits(db: Db, before: seq<Event>, after: seq<Event>)
    ensures Run(db, before + after) == Run(Run(db, before), after)
    decreases |after|
  {
    if after == [] {
      assert before + after == before;
    } else {
      var n := |after| - 1;
      assert (before + after)[..|before + after| - 1] == before + after[..n];
      RunSplits(db, before, after[..n]);
    }
  }

  lemma TwoSteps(db: Db, e1: Event, e2: Event)
    ensures Run(db, [e1, e2]) == Step(Step(db, e1), e2)
    ensures Run(db, [e1]) == Step(db, e1)
  {
    assert [e1][..0] == [];
    assert Run(db, [e1]) == Step(db, e1);
    assert [e1, e2][..1] == [e1];
  }

  /** An empty participant: seeded stock with nothing reserved, no reservation, no message. */
  predicate Initial(db: Db) {
    && db.reservations == map[] && db.outbox == [] && db.processed == {}
    && forall sku :: sku in db.stock ==> Legal(db.stock[sku]) && db.stock[sku].reserved == 0
  }

  predicate NonNegative(items: seq<Item>) {
    forall i :: 0 <= i < |items| ==> items[i].quantity >= 0
  }

  /** The least machine integer, which no row can absorb. */
  predicate Overflows(items: seq<Item>) {
    exists i :: 0 <= i < |items| && items[i].quantity == -INT_MAX - 1
  }

  /** The command debits what it groups its lines to, instead of rejecting it as a simulation. */
  predicate Debits(c: Command) {
    c.Reserve? && Normalized(c.lines).Some? && SimulateMode(c.simulate) != Some(SIMULATE_OUT_OF_STOCK)
  }

  /** What a caller can check before sending: no debited quantity has wrapped to a negative one that a row can take. */
  predicate Conserves(c: Command) {
    Debits(c) ==> NonNegative(Normalized(c.lines).value) || Overflows(Normalized(c.lines).value)
  }

  predicate AllConserve(events: seq<Event>) {
    forall i :: 0 <= i < |events| ==> Conserves(events[i].command)
  }

  /** The same of the exact sums that were asked for. */
  lemma ConservesMeaning(c: Command, lines: seq<Line>)
    requires Debits(c) && c.lines == Some(lines) && IntLines(lines)
    ensures Conserves(c) <==>
            || (forall sku :: Wrap32(Asked(lines, sku)) >= 0)
            || (exists sku :: Wrap32(Asked(lines, sku)) == -INT_MAX - 1)
  {
    hide Normalized, Wrap32, Asked;
    var items := Normalized(c.lines).value;
    NormalizedMeaning(lines, items);
    SortedIsDistinct(items);
    forall i | 0 <= i < |items| ensures items[i].quantity == Wrap32(Asked(lines, items[i].sku)) {
      QuantityAt(items, i);
    }
    if sku :| Wrap32(Asked(lines, sku)) < 0 {
      var i := ItemOf(items, sku);
    }
    if sku :| Wrap32(Asked(lines, sku)) == -INT_MAX - 1 {
      var i := ItemOf(items, sku);
    }
    if i :| 0 <= i < |items| && items[i].quantity == -INT_MAX - 1 {
      assert Wrap32(Asked(lines, items[i].sku)) == -INT_MAX - 1;
    }
    if i :| 0 <= i < |items| && items[i].quantity < 0 {
      assert Wrap32(Asked(lines, items[i].sku)) < 0;
    }
  }

  lemma ItemOf(items: seq<Item>, sku: Sku) returns (i: nat)
    requires Distinct(items) && Quantity(items, sku) != 0
    ensures i < |items| && items[i].sku == sku && items[i].quantity == Quantity(items, sku)
  {
    if sku !in SkusOf(items) {
      QuantityAbsent(items, sku);
    }
    i :| 0 <= i < |items| && items[i].sku == sku;
    QuantityAt(items, i);
  }
}
