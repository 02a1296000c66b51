/**
 * The same commands as interleaved transactions: each one locks stock rows one at a time, checks, debits or credits
 * row by row on its own uncommitted copies, and commits or rolls back. At most one transaction per order is in
 * flight, because the order id is the partition key of the commands topic.
 */
module RowLocks {
  import opened Prelude
  import opened Skus
  import opened StockAllocator
  import opened InventoryModel
  import C = InventoryConservation
  import opened InventoryHistory

  type TxId = nat

  /** Where a transaction stands; `dirty` holds its own uncommitted stock rows. */
  datatype Pc =
    | Begun
    | Simulating(items: seq<Item>)
    | Locking(items: seq<Item>, next: nat, available: map<Sku, int>)
    | Debiting(items: seq<Item>, next: nat, dirty: Stock)
    | Crediting(row: Reservation, next: nat, dirty: Stock)
    | Writing(writes: Writes)
    | Failed(fault: Fault)

  datatype Txn = Txn(command: Command, rid: Uuid, seen: map<Sku, int>, pc: Pc)

  /** The committed database, transactions in flight, row locks, and the committed events in commit order. */
  datatype Sys = Sys(db: Db, txns: map<TxId, Txn>, locks: map<Sku, TxId>, history: seq<Event>)

  datatype Action =
    | Begin(t: TxId, command: Command, rid: Uuid)
    | Advance(t: TxId)
    | Crash(t: TxId)

  // ---------------------------------------------------------------- steps

  function Balances(stock: Stock): map<Sku, int> {
    map sku | sku in stock :: stock[sku].available
  }

  function Unlocked(locks: map<Sku, TxId>, t: TxId): map<Sku, TxId> {
    map sku | sku in locks && locks[sku] != t :: locks[sku]
  }

  function At(sys: Sys, t: TxId, pc: Pc): Sys
    requires t in sys.txns
  {
    sys.(txns := sys.txns[t := sys.txns[t].(pc := pc)])
  }

  /** Rollback: the locks go, the committed database stays. */
  function RolledBack(sys: Sys, t: TxId): Sys {
    sys.(txns := sys.txns - {t}, locks := Unlocked(sys.locks, t))
  }

  function Committed(sys: Sys, t: TxId, w: Writes): Sys
    requires t in sys.txns
  {
    var x := sys.txns[t];
    Sys(Applied(sys.db, x.command, w), sys.txns - {t}, Unlocked(sys.locks, t),
        sys.history + [Event(x.command, x.rid, x.seen)])
  }

  /** The row lock a transaction asks for next. */
  function Wanted(sys: Sys, t: TxId): Option<Sku>
    requires t in sys.txns
  {
    match sys.txns[t].pc
    case Locking(items, next, _) =>
      if next < |items| && items[next].sku in sys.db.stock then Some(items[next].sku) else None
    case Crediting(row, next, _) =>
      if next < |row.items| && row.items[next].sku in sys.db.stock then Some(row.items[next].sku) else None
    case _ => None
  }

  predicate Blocked(sys: Sys, t: TxId)
    requires t in sys.txns
  {
    var w := Wanted(sys, t);
    w.Some? && w.value in sys.locks && sys.locks[w.value] != t
  }

  function Acquired(sys: Sys, t: TxId): Sys
    requires t in sys.txns
  {
    var w := Wanted(sys, t);
    if w.Some? then sys.(locks := sys.locks[w.value := t]) else sys
  }

  /** What the transaction does after reading its reservation row. */
  function AfterFind(db: Db, x: Txn): Pc {
    var existing := Lookup(db.reservations, x.command.orderId);
    match x.command
    case Unrecognised(_, _) => Writing(Writes(map[], None, None))
    case Release(_, _) =>
      if existing.Some? && existing.value.status == RESERVED then Crediting(existing.value, 0, map[])
      else Writing(Releasing(db.stock, existing).value)
    case Reserve(_, _, lines, simulate) =>
      if existing.Some? then Writing(Reserving(db.stock, existing, x.command, x.rid, x.seen).value)
      else if Normalized(lines).None? then Failed(MALFORMED)
      else if SimulateMode(simulate) == Some(SIMULATE_OUT_OF_STOCK) then Simulating(Normalized(lines).value)
      else Locking(Normalized(lines).value, 0, map[])
  }

  function Mode(x: Txn): Option<string> {
    if x.command.Reserve? then SimulateMode(x.command.simulate) else None
  }

  /** One step of a transaction that is not blocked. */
  function Moved(sys: Sys, t: TxId): Sys
    requires t in sys.txns && !Blocked(sys, t)
  {
    var x := sys.txns[t];
    match x.pc
    case Begun => At(sys, t, AfterFind(sys.db, x))
    case Simulating(items) =>
      var seen := Balances(sys.db.stock);
      var r := RejectedRow(items, Rejection(OUT_OF_STOCK, SimulatedDetails(items, seen)));
      sys.(txns := sys.txns[t := x.(seen := seen, pc := Writing(Answered(Execution(map[], r), Mode(x))))])
    case Locking(items, next, available) =>
      if next < |items| then
        At(Acquired(sys, t), t,
           Locking(items, next + 1, available + Available(sys.db.stock, [items[next]])))
      else
        var verdict := Verdict(items, available);
        At(sys, t, if verdict.None? then Debiting(items, 0, map[])
                   else Writing(Answered(Execution(map[], RejectedRow(items, verdict.value)), Mode(x))))
    case Debiting(items, next, dirty) =>
      if next < |items| then
        var d := Debit(sys.db.stock, dirty, items[next]);
        At(sys, t, if d.Ok? then Debiting(items, next + 1, d.value) else Failed(d.error))
      else At(sys, t, Writing(Answered(Execution(dirty, ReservedRow(x.rid, items)), Mode(x))))
    case Crediting(row, next, dirty) =>
      if next < |row.items| then
        var d := Credit(sys.db.stock, dirty, row.items[next]);
        At(Acquired(sys, t), t, if d.Ok? then Crediting(row, next + 1, d.value) else Failed(d.error))
      else At(sys, t, Writing(Compensated(dirty, row)))
    case Writing(w) => Committed(sys, t, w)
    case Failed(_) => RolledBack(sys, t)
  }

  predicate Enabled(sys: Sys, a: Action) {
    match a
    case Begin(t, c, _) =>
      t !in sys.txns && forall u :: u in sys.txns ==> sys.txns[u].command.orderId != c.orderId
    case Advance(t) => t in sys.txns && !Blocked(sys, t)
    case Crash(t) => t in sys.txns
  }

  /** One step of the system; an action that is not enabled does nothing. */
  function Next(sys: Sys, a: Action): Sys {
    if !Enabled(sys, a) then sys
    else
      match a
      case Begin(t, c, rid) => sys.(txns := sys.txns[t := Txn(c, rid, map[], Begun)])
      case Advance(t) => Moved(sys, t)
      case Crash(t) => RolledBack(sys, t)
  }

  function Start(db: Db): Sys {
    Sys(db, map[], map[], [])
  }

  function Exec(db: Db, schedule: seq<Action>): Sys {
    if schedule == [] then Start(db) else Next(Exec(db, schedule[..|schedule| - 1]), schedule[|schedule| - 1])
  }

  // ---------------------------------------------------------------- what a transaction knows

  /** `t` holds the row locks of the first `n` items that have a stock row. */
  predicate Owns(sys: Sys, t: TxId, items: seq<Item>, n: nat)
    requires n <= |items|
  {
    forall i :: 0 <= i < n && items[i].sku in sys.db.stock ==>
      items[i].sku in sys.locks && sys.locks[items[i].sku] == t
  }

  /** Items whose stock rows the outcome of a command depends on. */
  function Footprint(existing: Option<Reservation>, c: Command): seq<Item> {
    match c
    case Unrecognised(_, _) => []
    case Release(_, _) => if existing.Some? && existing.value.status == RESERVED then existing.value.items else []
    case Reserve(_, _, lines, simulate) =>
      if existing.Some? || SimulateMode(simulate) == Some(SIMULATE_OUT_OF_STOCK) then []
      else Normalized(lines).GetOr([])
  }

  predicate FreshReserve(db: Db, x: Txn, items: seq<Item>) {
    x.command.Reserve? && x.command.orderId !in db.reservations && Normalized(x.command.lines) == Some(items)
  }

  predicate TxnOk(sys: Sys, t: TxId)
    requires t in sys.txns
  {
    var x := sys.txns[t];
    var existing := Lookup(sys.db.reservations, x.command.orderId);
    match x.pc
    case Begun => true
    case Simulating(items) => FreshReserve(sys.db, x, items) && Mode(x) == Some(SIMULATE_OUT_OF_STOCK)
    case Locking(items, next, available) =>
      && FreshReserve(sys.db, x, items) && Mode(x) != Some(SIMULATE_OUT_OF_STOCK)
      && next <= |items| && Owns(sys, t, items, next)
      && available == Available(sys.db.stock, items[..next])
    case Debiting(items, next, dirty) =>
      && FreshReserve(sys.db, x, items) && Mode(x) != Some(SIMULATE_OUT_OF_STOCK)
      && next <= |items| && Owns(sys, t, items, |items|)
      && Verdict(items, Available(sys.db.stock, items)).None?
      && DebitAll(sys.db.stock, items[..next]) == Ok(dirty)
    case Crediting(row, next, dirty) =>
      && x.command.Release? && existing == Some(row) && row.status == RESERVED
      && next <= |row.items| && Owns(sys, t, row.items, next)
      && CreditAll(sys.db.stock, row.items[..next]) == Ok(dirty)
    case Writing(w) =>
      && Effect(sys.db.stock, existing, x.command, x.rid, x.seen) == Ok(w)
      && Owns(sys, t, Footprint(existing, x.command), |Footprint(existing, x.command)|)
    case Failed(_) => true
  }

  /** Every interleaving keeps this: the committed database is the serial run of the committed events. */
  ghost predicate Serial(sys: Sys, db: Db) {
    && sys.db == Run(db, sys.history)
    && (forall t :: t in sys.txns ==> TxnOk(sys, t))
    && (forall sku :: sku in sys.locks ==> sys.locks[sku] in sys.txns)
    && forall t, u :: t in sys.txns && u in sys.txns && t != u ==>
         sys.txns[t].command.orderId != sys.txns[u].command.orderId
  }

  // ---------------------------------------------------------------- locality

  /** Two stocks with the same SKUs that agree on the rows of the first `n` items. */
  predicate Agree(a: Stock, b: Stock, items: seq<Item>, n: nat)
    requires n <= |items|
  {
    a.Keys == b.Keys && forall i :: 0 <= i < n && items[i].sku in a ==> a[items[i].sku] == b[items[i].sku]
  }

  lemma {:induction false} DebitAllIsLocal(a: Stock, b: Stock, items: seq<Item>)
    requires Agree(a, b, items, |items|)
    ensures DebitAll(a, items) == DebitAll(b, items)
    decreases |items|
  {
    if items != [] {
      var front := items[..|items| - 1];
      assert forall i :: 0 <= i < |front| ==> front[i] == items[i];
      DebitAllIsLocal(a, b, front);
      assert Agree(a, b, items, |items|);
    }
  }

  lemma {:induction false} CreditAllIsLocal(a: Stock, b: Stock, items: seq<Item>)
    requires Agree(a, b, items, |items|)
    ensures CreditAll(a, items) == CreditAll(b, items)
    decreases |items|
  {
    if items != [] {
      var front := items[..|items| - 1];
      assert forall i :: 0 <= i < |front| ==> front[i] == items[i];
      CreditAllIsLocal(a, b, front);
      assert Agree(a, b, items, |items|);
    }
  }

  lemma AvailableIsLocal(a: Stock, b: Stock, items: seq<Item>)
    requires Agree(a, b, items, |items|)
    ensures Available(a, items) == Available(b, items)
  {
  }

  /** What a command does depends on its own reservation row and on the stock rows of its footprint only. */
  lemma EffectIsLocal(a: Stock, b: Stock, existing: Option<Reservation>, c: Command, rid: Uuid, seen: map<Sku, int>)
    requires Agree(a, b, Footprint(existing, c), |Footprint(existing, c)|)
    ensures Effect(a, existing, c, rid, seen) == Effect(b, existing, c, rid, seen)
  {
    var items := Footprint(existing, c);
    DebitAllIsLocal(a, b, items);
    CreditAllIsLocal(a, b, items);
    AvailableIsLocal(a, b, items);
  }

  lemma {:induction false} DebitRows(stock: Stock, items: seq<Item>)
    requires DebitAll(stock, items).Ok?
    ensures DebitAll(stock, items).value.Keys <= SkusOf(items) * stock.Keys
    decreases |items|
  {
    if items != [] {
      var n := |items| - 1;
      DebitRows(stock, items[..n]);
      SkusSnoc(items[..n], items[n]);
      assert items == items[..n] + [items[n]];
    }
  }

  lemma {:induction false} CreditRows(stock: Stock, items: seq<Item>)
    requires CreditAll(stock, items).Ok?
    ensures CreditAll(stock, items).value.Keys <= SkusOf(items) * stock.Keys
    decreases |items|
  {
    if items != [] {
      var n := |items| - 1;
      CreditRows(stock, items[..n]);
      SkusSnoc(items[..n], items[n]);
      assert items == items[..n] + [items[n]];
    }
  }

  /** A transaction writes only stock rows of its footprint. */
  lemma EffectRows(stock: Stock, existing: Option<Reservation>, c: Command, rid: Uuid, seen: map<Sku, int>)
    requires Effect(stock, existing, c, rid, seen).Ok?
    ensures Effect(stock, existing, c, rid, seen).value.rows.Keys <= SkusOf(Footprint(existing, c)) * stock.Keys
  {
    var items := Footprint(existing, c);
    if DebitAll(stock, items).Ok? {
      DebitRows(stock, items);
    }
    if CreditAll(stock, items).Ok? {
      CreditRows(stock, items);
    }
  }

  // ---------------------------------------------------------------- one step of one transaction

  lemma FindKeepsOk(sys: Sys, t: TxId)
    requires t in sys.txns && sys.txns[t].pc.Begun?
    ensures TxnOk(Moved(sys, t), t)
  {
    var x := sys.txns[t];
    var existing := Lookup(sys.db.reservations, x.command.orderId);
    match x.command
    case Unrecognised(_, _) =>
    case Release(_, _) =>
      if existing.Some? && existing.value.status == RESERVED {
        assert existing.value.items[..0] == [];
      }
    case Reserve(_, _, lines, simulate) =>
      if existing.None? && Normalized(lines).Some? {
        assert Normalized(lines).value[..0] == [];
        assert Available(sys.db.stock, []) == map[];
      }
  }

  lemma SimulateKeepsOk(sys: Sys, t: TxId)
    requires t in sys.txns && sys.txns[t].pc.Simulating? && TxnOk(sys, t)
    ensures TxnOk(Moved(sys, t), t)
  {
    var x := Moved(sys, t).txns[t];
    var items := sys.txns[t].pc.items;
    assert Executed(sys.db.stock, x.command.lines, Mode(x), x.rid, x.seen)
        == Ok(Execution(map[], RejectedRow(items, Rejection(OUT_OF_STOCK, SimulatedDetails(items, x.seen)))));
  }

  lemma AvailableSnoc(stock: Stock, front: seq<Item>, last: Item)
    ensures Available(stock, front) + Available(stock, [last]) == Available(stock, front + [last])
  {
    SkusSnoc(front, last);
    assert SkusOf([last]) == {last.sku} by {
      assert [last][0].sku in SkusOf([last]);
    }
  }

  /** The rejected and the accepted outcome of a fresh reserve, as the transaction builds them. */
  lemma FreshOutcome(stock: Stock, c: Command, rid: Uuid, seen: map<Sku, int>, items: seq<Item>)
    requires c.Reserve? && Normalized(c.lines) == Some(items)
    requires SimulateMode(c.simulate) != Some(SIMULATE_OUT_OF_STOCK)
    ensures var verdict := Verdict(items, Available(stock, items));
            var effect, mode := Effect(stock, None, c, rid, seen), SimulateMode(c.simulate);
            && (verdict.Some? ==> effect == Ok(Answered(Execution(map[], RejectedRow(items, verdict.value)), mode)))
            && (verdict.None? && DebitAll(stock, items).Ok? ==>
                 effect == Ok(Answered(Execution(DebitAll(stock, items).value, ReservedRow(rid, items)), mode)))
  {
  }

  lemma LockKeepsOk(sys: Sys, t: TxId)
    requires t in sys.txns && sys.txns[t].pc.Locking? && TxnOk(sys, t) && !Blocked(sys, t)
    ensures TxnOk(Moved(sys, t), t)
  {
    hide Verdict, DebitAll, Answered, Reserving, Executed;
    var x := sys.txns[t];
    var items, next := x.pc.items, x.pc.next;
    if next < |items| {
      LockOneKeepsOk(sys, t);
    } else {
      assert items[..next] == items;
      NothingDebited(sys.db.stock, items[..0]);
      FreshOutcome(sys.db.stock, x.command, x.rid, x.seen, items);
    }
  }

  lemma NothingDebited(stock: Stock, items: seq<Item>)
    requires items == []
    ensures DebitAll(stock, items) == Ok(map[])
  {
  }

  lemma LockOneKeepsOk(sys: Sys, t: TxId)
    requires t in sys.txns && sys.txns[t].pc.Locking? && TxnOk(sys, t) && !Blocked(sys, t)
    requires sys.txns[t].pc.next < |sys.txns[t].pc.items|
    ensures TxnOk(Moved(sys, t), t)
  {
    hide Normalized, SimulateMode, Available;
    var items, next := sys.txns[t].pc.items, sys.txns[t].pc.next;
    AvailableSnoc(sys.db.stock, items[..next], items[next]);
    assert items[..next + 1] == items[..next] + [items[next]];
  }

  lemma DebitKeepsOk(sys: Sys, t: TxId)
    requires t in sys.txns && sys.txns[t].pc.Debiting? && TxnOk(sys, t)
    ensures TxnOk(Moved(sys, t), t)
  {
    hide Verdict, DebitAll, Debit, Answered, Reserving, Executed, Available, Normalized, SimulateMode;
    var x := sys.txns[t];
    var items, next := x.pc.items, x.pc.next;
    if next < |items| {
      DebitOneMore(sys.db.stock, items, next);
    } else {
      assert items[..next] == items;
      FreshOutcome(sys.db.stock, x.command, x.rid, x.seen, items);
    }
  }

  lemma DebitOneMore(stock: Stock, items: seq<Item>, next: nat)
    requires next < |items| && DebitAll(stock, items[..next]).Ok?
    ensures DebitAll(stock, items[..next + 1]) == Debit(stock, DebitAll(stock, items[..next]).value, items[next])
  {
    assert items[..next + 1][..next] == items[..next];
  }

  lemma CreditKeepsOk(sys: Sys, t: TxId)
    requires t in sys.txns && sys.txns[t].pc.Crediting? && TxnOk(sys, t) && !Blocked(sys, t)
    ensures TxnOk(Moved(sys, t), t)
  {
    var x := sys.txns[t];
    var items, next := x.pc.row.items, x.pc.next;
    if next < |items| {
      assert items[..next + 1][..next] == items[..next];
    } else {
      assert items[..next] == items;
    }
  }

  predicate Ends(pc: Pc) {
    pc.Writing? || pc.Failed?
  }

  lemma MoveKeepsOk(sys: Sys, t: TxId)
    requires t in sys.txns && TxnOk(sys, t) && !Blocked(sys, t) && !Ends(sys.txns[t].pc)
    ensures TxnOk(Moved(sys, t), t)
  {
    hide *;
    match sys.txns[t].pc
    case Begun => FindKeepsOk(sys, t);
    case Simulating(_) => SimulateKeepsOk(sys, t);
    case Locking(_, _, _) => LockKeepsOk(sys, t);
    case Debiting(_, _, _) => DebitKeepsOk(sys, t);
    case Crediting(_, _, _) => CreditKeepsOk(sys, t);
    case Writing(_) => EndsHere(sys.txns[t].pc);
    case Failed(_) => EndsHere(sys.txns[t].pc);
  }

  lemma EndsHere(pc: Pc)
    requires pc.Writing? || pc.Failed?
    ensures Ends(pc)
  {
  }

  // ---------------------------------------------------------------- the other transactions

  /** What one transaction knows survives every step of another that leaves the database alone. */
  lemma OthersKeepOk(sys: Sys, after: Sys, u: TxId)
    requires u in sys.txns && TxnOk(sys, u) && u in after.txns && after.txns[u] == sys.txns[u] && after.db == sys.db
    requires forall sku :: sku in sys.locks && sys.locks[sku] == u ==> sku in after.locks && after.locks[sku] == u
    ensures TxnOk(after, u)
  {
  }

  /** A step that ends nothing: only `t` moves, and it takes at most one free lock. */
  lemma MoveFrame(sys: Sys, t: TxId)
    requires t in sys.txns && !Blocked(sys, t) && !Ends(sys.txns[t].pc)
    ensures var after := Moved(sys, t);
            && after.db == sys.db && after.history == sys.history && after.txns.Keys == sys.txns.Keys
            && after.txns[t].command == sys.txns[t].command
            && (forall u :: u in sys.txns && u != t ==> after.txns[u] == sys.txns[u])
            && after.locks == Acquired(sys, t).locks
  {
    hide AfterFind, Verdict, Available, Debit, Credit, Answered, Blocked, SimulatedDetails;
  }

  lemma AcquiredFrame(sys: Sys, t: TxId)
    requires t in sys.txns && !Blocked(sys, t)
    ensures var locks := Acquired(sys, t).locks;
            && (forall sku :: sku in sys.locks ==>
                 sku in locks && (sys.locks[sku] != t ==> locks[sku] == sys.locks[sku]))
            && (forall sku :: sku in locks ==> locks[sku] == t || (sku in sys.locks && locks[sku] == sys.locks[sku]))
  {
  }

  lemma MoveKeepsSerial(sys: Sys, db: Db, t: TxId)
    requires Serial(sys, db) && t in sys.txns && !Blocked(sys, t) && !Ends(sys.txns[t].pc)
    ensures Serial(Moved(sys, t), db)
  {
    hide Run, TxnOk, Moved, Ends, Acquired, Blocked, Wanted;
    MoveFrame(sys, t);
    AcquiredFrame(sys, t);
    MoveKeepsOk(sys, t);
    var after := Moved(sys, t);
    forall u | u in after.txns ensures TxnOk(after, u) {
      if u != t {
        OthersKeepOk(sys, after, u);
      }
    }
  }

  lemma RollbackKeepsSerial(sys: Sys, db: Db, t: TxId)
    requires Serial(sys, db) && t in sys.txns
    ensures Serial(RolledBack(sys, t), db)
  {
    hide Run, TxnOk;
    var after := RolledBack(sys, t);
    forall u | u in after.txns ensures TxnOk(after, u) {
      OthersKeepOk(sys, after, u);
    }
  }

  lemma BeginKeepsSerial(sys: Sys, db: Db, t: TxId, c: Command, rid: Uuid)
    requires Serial(sys, db) && Enabled(sys, Begin(t, c, rid))
    ensures Serial(Next(sys, Begin(t, c, rid)), db)
  {
    hide Run, TxnOk;
    var after := Next(sys, Begin(t, c, rid));
    forall u | u in after.txns ensures TxnOk(after, u) {
      if u != t {
        OthersKeepOk(sys, after, u);
      } else {
        BegunIsOk(after, u);
      }
    }
  }

  lemma BegunIsOk(sys: Sys, t: TxId)
    requires t in sys.txns && sys.txns[t].pc.Begun?
    ensures TxnOk(sys, t)
  {
  }

  // ---------------------------------------------------------------- commit

  /** Rows that `u` has locked are the same before and after. */
  predicate RowsKept(sys: Sys, after: Sys, u: TxId) {
    && after.db.stock.Keys == sys.db.stock.Keys
    && forall sku :: sku in sys.locks && sys.locks[sku] == u && sku in sys.db.stock ==>
         after.db.stock[sku] == sys.db.stock[sku]
  }

  lemma OwnedRowsAgree(sys: Sys, after: Sys, u: TxId, items: seq<Item>, n: nat)
    requires n <= |items| && Owns(sys, u, items, n) && RowsKept(sys, after, u)
    ensures Agree(sys.db.stock, after.db.stock, items, n)
    ensures Agree(sys.db.stock, after.db.stock, items[..n], |items[..n]|)
  {
    assert forall i :: 0 <= i < n ==> items[..n][i] == items[i];
  }

  lemma LocksKept(sys: Sys, after: Sys, u: TxId, items: seq<Item>, n: nat)
    requires n <= |items| && Owns(sys, u, items, n) && after.db.stock.Keys == sys.db.stock.Keys
    requires forall sku :: sku in sys.locks && sys.locks[sku] == u ==> sku in after.locks && after.locks[sku] == u
    ensures Owns(after, u, items, n)
  {
  }

  /** What one transaction knows survives the commit of another: its rows are locked, its order is its own. */
  lemma CommitKeepsOthersOk(sys: Sys, after: Sys, u: TxId)
    requires u in sys.txns && TxnOk(sys, u) && u in after.txns && after.txns[u] == sys.txns[u]
    requires RowsKept(sys, after, u)
    requires Lookup(after.db.reservations, sys.txns[u].command.orderId)
          == Lookup(sys.db.reservations, sys.txns[u].command.orderId)
    requires forall sku :: sku in sys.locks && sys.locks[sku] == u ==> sku in after.locks && after.locks[sku] == u
    ensures TxnOk(after, u)
  {
    var x := sys.txns[u];
    match x.pc
    case Begun =>
    case Simulating(_) =>
    case Locking(items, next, _) =>
      OwnedRowsAgree(sys, after, u, items, next);
      LocksKept(sys, after, u, items, next);
      AvailableIsLocal(sys.db.stock, after.db.stock, items[..next]);
    case Debiting(items, next, _) =>
      OwnedRowsAgree(sys, after, u, items, |items|);
      LocksKept(sys, after, u, items, |items|);
      AvailableIsLocal(sys.db.stock, after.db.stock, items);
      DebitingAgrees(sys.db.stock, after.db.stock, items, next);
    case Crediting(row, next, _) =>
      OwnedRowsAgree(sys, after, u, row.items, next);
      LocksKept(sys, after, u, row.items, next);
      CreditAllIsLocal(sys.db.stock, after.db.stock, row.items[..next]);
    case Writing(_) =>
      var existing := Lookup(sys.db.reservations, x.command.orderId);
      var items := Footprint(existing, x.command);
      OwnedRowsAgree(sys, after, u, items, |items|);
      LocksKept(sys, after, u, items, |items|);
      EffectIsLocal(sys.db.stock, after.db.stock, existing, x.command, x.rid, x.seen);
    case Failed(_) =>
  }

  lemma DebitingAgrees(a: Stock, b: Stock, items: seq<Item>, next: nat)
    requires next <= |items| && Agree(a, b, items, |items|)
    ensures DebitAll(a, items[..next]) == DebitAll(b, items[..next])
  {
    assert forall i :: 0 <= i < next ==> items[..next][i] == items[i];
    DebitAllIsLocal(a, b, items[..next]);
  }

  /** The committed transaction writes only rows it has locked. */
  lemma CommitWritesLockedRows(sys: Sys, t: TxId, w: Writes)
    requires t in sys.txns && sys.txns[t].pc == Writing(w) && TxnOk(sys, t)
    ensures forall sku :: sku in w.rows ==> sku in sys.db.stock && sku in sys.locks && sys.locks[sku] == t
  {
    var x := sys.txns[t];
    var existing := Lookup(sys.db.reservations, x.command.orderId);
    EffectRows(sys.db.stock, existing, x.command, x.rid, x.seen);
    forall sku | sku in w.rows ensures sku in sys.db.stock && sku in sys.locks && sys.locks[sku] == t {
      var items := Footprint(existing, x.command);
      var i :| 0 <= i < |items| && items[i].sku == sku;
    }
  }

  /** A commit is the serial step of its command at that moment. */
  lemma CommitIsStep(sys: Sys, db: Db, t: TxId, w: Writes)
    requires sys.db == Run(db, sys.history) && t in sys.txns && sys.txns[t].pc == Writing(w) && TxnOk(sys, t)
    ensures var e := Event(sys.txns[t].command, sys.txns[t].rid, sys.txns[t].seen);
            && Commits(sys.db, e)
            && Committed(sys, t, w).db == Step(sys.db, e) == Run(db, sys.history + [e])
  {
    var e := Event(sys.txns[t].command, sys.txns[t].rid, sys.txns[t].seen);
    assert (sys.history + [e])[..|sys.history|] == sys.history;
  }

  lemma CommitFrame(sys: Sys, db: Db, t: TxId, w: Writes, u: TxId)
    requires Serial(sys, db) && t in sys.txns && sys.txns[t].pc == Writing(w) && u in sys.txns && u != t
    ensures var after := Committed(sys, t, w);
            && u in after.txns && after.txns[u] == sys.txns[u] && RowsKept(sys, after, u)
            && Lookup(after.db.reservations, sys.txns[u].command.orderId)
               == Lookup(sys.db.reservations, sys.txns[u].command.orderId)
            && forall sku :: sku in sys.locks && sys.locks[sku] == u ==> sku in after.locks && after.locks[sku] == u
  {
    hide Run, TxnOk;
    CommitWritesLockedRows(sys, t, w);
    assert Committed(sys, t, w).db.stock == sys.db.stock + w.rows;
  }

  lemma CommitKeepsSerial(sys: Sys, db: Db, t: TxId, w: Writes)
    requires Serial(sys, db) && t in sys.txns && sys.txns[t].pc == Writing(w)
    ensures Serial(Committed(sys, t, w), db)
  {
    hide Run, TxnOk, Step, RowsKept, Applied;
    CommitIsStep(sys, db, t, w);
    var after := Committed(sys, t, w);
    forall u | u in after.txns ensures TxnOk(after, u) {
      CommitFrame(sys, db, t, w, u);
      CommitKeepsOthersOk(sys, after, u);
    }
  }

  // ---------------------------------------------------------------- every interleaving

  lemma NextKeepsSerial(sys: Sys, db: Db, a: Action)
    requires Serial(sys, db)
    ensures Serial(Next(sys, a), db)
  {
    hide Serial, Run, TxnOk, Blocked;
    if Enabled(sys, a) {
      match a
      case Begin(t, c, rid) => BeginKeepsSerial(sys, db, t, c, rid);
      case Crash(t) => RollbackKeepsSerial(sys, db, t);
      case Advance(t) =>
        match sys.txns[t].pc
        case Writing(w) => CommitKeepsSerial(sys, db, t, w);
        case Failed(_) => RollbackKeepsSerial(sys, db, t);
        case _ => MoveKeepsSerial(sys, db, t);
    }
  }

  /**
   * Serializability: whatever the interleaving, the committed database is the one a serial run of the committed
   * commands leaves, in commit order; aborted and unfinished transactions leave nothing.
   */
  lemma {:induction false} InterleavingsAreSerial(db: Db, schedule: seq<Action>)
    ensures Serial(Exec(db, schedule), db)
    ensures Exec(db, schedule).db == Run(db, Exec(db, schedule).history)
    decreases |schedule|
  {
    if schedule != [] {
      InterleavingsAreSerial(db, schedule[..|schedule| - 1]);
      NextKeepsSerial(Exec(db, schedule[..|schedule| - 1]), db, schedule[|schedule| - 1]);
    }
  }

  // ---------------------------------------------------------------- the throws are unreachable

  /** Orders hold stock of SKUs that have a row. */
  predicate KnownSkus(db: Db) {
    forall o :: o in db.reservations && db.reservations[o].status == RESERVED ==>
      SkusOf(db.reservations[o].items) <= db.stock.Keys
  }

  lemma {:induction false} DebitedAreKnown(stock: Stock, items: seq<Item>)
    requires DebitAll(stock, items).Ok?
    ensures SkusOf(items) <= stock.Keys
    decreases |items|
  {
    if items != [] {
      var front, last := items[..|items| - 1], items[|items| - 1];
      DebitedAreKnown(stock, front);
      DebitRows(stock, front);
      assert items == front + [last];
      SkusSnoc(front, last);
    }
  }

  lemma StepKeepsKnown(db: Db, e: Event)
    requires KnownSkus(db)
    ensures KnownSkus(Step(db, e)) && Step(db, e).stock.Keys == db.stock.Keys
  {
    hide Verdict, Available, DebitAll, CreditAll, SkusOf, Normalized, SimulatedDetails;
    var existing, c := Lookup(db.reservations, e.command.orderId), e.command;
    if Commits(db, e) {
      EffectRows(db.stock, existing, c, e.rid, e.seen);
      if c.Reserve? && existing.None? {
        var items := Normalized(c.lines).value;
        if DebitAll(db.stock, items).Ok? {
          DebitedAreKnown(db.stock, items);
        }
      }
    }
  }

  lemma {:induction false} RunKeepsKnown(db: Db, events: seq<Event>)
    requires Initial(db)
    ensures KnownSkus(Run(db, events))
    decreases |events|
  {
    if events != [] {
      RunKeepsKnown(db, events[..|events| - 1]);
      StepKeepsKnown(Run(db, events[..|events| - 1]), events[|events| - 1]);
    }
  }

  /** With the rows locked and checked, the next debit finds enough. */
  lemma DebitNeverThrows(sys: Sys, t: TxId)
    requires t in sys.txns && TxnOk(sys, t) && sys.txns[t].pc.Debiting?
    requires sys.txns[t].pc.next < |sys.txns[t].pc.items|
    ensures var d := Debit(sys.db.stock, sys.txns[t].pc.dirty, sys.txns[t].pc.items[sys.txns[t].pc.next]);
            d.Ok? || d == Err(SQL_ERROR)
  {
    hide Verdict, Debit, Normalized, Available, Owns;
    var items, next := sys.txns[t].pc.items, sys.txns[t].pc.next;
    C.CoveredItems(sys.db, sys.txns[t].command, items);
    C.CoveredDebit(sys.db.stock, items[..next + 1]);
    DebitOneMore(sys.db.stock, items, next);
  }

  lemma CreditNeverThrows(sys: Sys, t: TxId)
    requires t in sys.txns && TxnOk(sys, t) && sys.txns[t].pc.Crediting? && KnownSkus(sys.db)
    requires sys.txns[t].pc.next < |sys.txns[t].pc.row.items|
    ensures var d := Credit(sys.db.stock, sys.txns[t].pc.dirty, sys.txns[t].pc.row.items[sys.txns[t].pc.next]);
            d.Ok? || d == Err(SQL_ERROR)
  {
    var row := sys.txns[t].pc.row;
    assert row.items[sys.txns[t].pc.next].sku in SkusOf(row.items);
  }

  /** The exceptions of the handler's own making have not been thrown. */
  predicate NothingThrown(sys: Sys) {
    forall t :: t in sys.txns && sys.txns[t].pc.Failed? ==>
      sys.txns[t].pc.fault != INSUFFICIENT_DESPITE_LOCK && sys.txns[t].pc.fault != SKU_MISSING_ON_RELEASE
  }

  lemma MoveThrowsNothing(sys: Sys, db: Db, t: TxId)
    requires Initial(db) && Serial(sys, db) && NothingThrown(sys)
    requires t in sys.txns && !Blocked(sys, t) && !Ends(sys.txns[t].pc)
    ensures NothingThrown(Moved(sys, t))
  {
    hide Run, TxnOk, Blocked, Verdict, Available, Debit, Credit, Answered, SimulatedDetails, Acquired, Effect,
      Releasing, Reserving,
      KnownSkus;
    RunKeepsKnown(db, sys.history);
    if sys.txns[t].pc.Debiting? && sys.txns[t].pc.next < |sys.txns[t].pc.items| {
      DebitNeverThrows(sys, t);
    } else if sys.txns[t].pc.Crediting? && sys.txns[t].pc.next < |sys.txns[t].pc.row.items| {
      CreditNeverThrows(sys, t);
    }
    MoveFrame(sys, t);
  }

  lemma NextThrowsNothing(sys: Sys, db: Db, a: Action)
    requires Initial(db) && Serial(sys, db) && NothingThrown(sys)
    ensures NothingThrown(Next(sys, a))
  {
    hide Serial, Run, Blocked, Wanted, Applied;
    if Enabled(sys, a) && a.Advance? && !Ends(sys.txns[a.t].pc) {
      MoveThrowsNothing(sys, db, a.t);
    }
  }

  /**
   * Under every interleaving of any commands, the debit throw despite the lock and the missing SKU on release are
   * unreachable.
   */
  lemma {:induction false} ThrowsAreUnreachable(db: Db, schedule: seq<Action>)
    requires Initial(db)
    ensures NothingThrown(Exec(db, schedule))
    decreases |schedule|
  {
    if schedule != [] {
      var front := schedule[..|schedule| - 1];
      ThrowsAreUnreachable(db, front);
      InterleavingsAreSerial(db, front);
      NextThrowsNothing(Exec(db, front), db, schedule[|schedule| - 1]);
    }
  }

  // ---------------------------------------------------------------- commands that conserve stock

  /** A failure that the command itself brings: a malformed payload, or a sum that wrapped to the least integer. */
  predicate InputFault(c: Command, fault: Fault) {
    c.Reserve? &&
    match Normalized(c.lines)
    case None => fault == MALFORMED
    case Some(items) => fault == SQL_ERROR && Overflows(items)
  }

  /** Commands in flight and committed conserve stock, and nothing but the input of a command has made it fail. */
  ghost predicate OnlyInputFails(sys: Sys) {
    && AllConserve(sys.history)
    && forall t :: t in sys.txns ==>
         Conserves(sys.txns[t].command)
         && (sys.txns[t].pc.Failed? ==> InputFault(sys.txns[t].command, sys.txns[t].pc.fault))
  }

  ghost predicate ConservingSchedule(schedule: seq<Action>) {
    forall i :: 0 <= i < |schedule| && schedule[i].Begin? ==> Conserves(schedule[i].command)
  }

  lemma {:induction false} DebitPrefixOk(stock: Stock, items: seq<Item>, n: nat)
    requires n <= |items| && DebitAll(stock, items).Ok?
    ensures DebitAll(stock, items[..n]).Ok?
    decreases |items|
  {
    if n < |items| {
      DebitPrefixOk(stock, items[..|items| - 1], n);
      assert items[..|items| - 1][..n] == items[..n];
    } else {
      assert items[..n] == items;
    }
  }

  lemma {:induction false} CreditPrefixOk(stock: Stock, items: seq<Item>, n: nat)
    requires n <= |items| && CreditAll(stock, items).Ok?
    ensures CreditAll(stock, items[..n]).Ok?
    decreases |items|
  {
    if n < |items| {
      CreditPrefixOk(stock, items[..|items| - 1], n);
      assert items[..|items| - 1][..n] == items[..n];
    } else {
      assert items[..n] == items;
    }
  }

  lemma CreditOneMore(stock: Stock, items: seq<Item>, next: nat)
    requires next < |items| && CreditAll(stock, items[..next]).Ok?
    ensures CreditAll(stock, items[..next + 1]) == Credit(stock, CreditAll(stock, items[..next]).value, items[next])
  {
    assert items[..next + 1][..next] == items[..next];
  }

  /** With the rows locked and checked, the next debit succeeds, unless a quantity is the least integer. */
  lemma DebitSucceeds(sys: Sys, db: Db, t: TxId)
    requires Initial(db) && C.Balanced(sys.db, db.stock)
    requires t in sys.txns && TxnOk(sys, t) && Conserves(sys.txns[t].command) && sys.txns[t].pc.Debiting?
    requires sys.txns[t].pc.next < |sys.txns[t].pc.items|
    ensures var d := Debit(sys.db.stock, sys.txns[t].pc.dirty, sys.txns[t].pc.items[sys.txns[t].pc.next]);
            d.Ok? || InputFault(sys.txns[t].command, d.error)
  {
    hide Verdict, Debit, Normalized, Available, Owns, C.Balanced;
    var items, next := sys.txns[t].pc.items, sys.txns[t].pc.next;
    if Overflows(items) {
      DebitNeverThrows(sys, t);
    } else {
      C.ExecutionDebits(sys.db, db.stock, sys.txns[t].command, items);
      DebitPrefixOk(sys.db.stock, items, next + 1);
      DebitOneMore(sys.db.stock, items, next);
    }
  }

  /** Every row a release needs is there, and its credit succeeds. */
  lemma CreditSucceeds(sys: Sys, db: Db, t: TxId)
    requires Initial(db) && C.Balanced(sys.db, db.stock)
    requires t in sys.txns && TxnOk(sys, t) && sys.txns[t].pc.Crediting?
    requires sys.txns[t].pc.next < |sys.txns[t].pc.row.items|
    ensures Credit(sys.db.stock, sys.txns[t].pc.dirty, sys.txns[t].pc.row.items[sys.txns[t].pc.next]).Ok?
  {
    var items, next := sys.txns[t].pc.row.items, sys.txns[t].pc.next;
    C.ReleaseCredits(sys.db, db.stock, sys.txns[t].command.orderId);
    CreditPrefixOk(sys.db.stock, items, next + 1);
    CreditOneMore(sys.db.stock, items, next);
  }

  lemma MoveOnlyFailsOnInput(sys: Sys, db: Db, t: TxId)
    requires Initial(db) && Serial(sys, db) && OnlyInputFails(sys)
    requires t in sys.txns && !Blocked(sys, t) && !Ends(sys.txns[t].pc)
    ensures OnlyInputFails(Moved(sys, t))
  {
    hide Run, TxnOk, Blocked, Verdict, Available, Debit, Credit, Answered, SimulatedDetails, Acquired, Conserves,
      AllConserve,
      C.Balanced, Effect, Releasing, Reserving;
    C.RunKeepsBalance(db, sys.history);
    if sys.txns[t].pc.Debiting? && sys.txns[t].pc.next < |sys.txns[t].pc.items| {
      DebitSucceeds(sys, db, t);
    } else if sys.txns[t].pc.Crediting? && sys.txns[t].pc.next < |sys.txns[t].pc.row.items| {
      CreditSucceeds(sys, db, t);
    }
    MoveFrame(sys, t);
  }

  lemma NextOnlyFailsOnInput(sys: Sys, db: Db, a: Action)
    requires Initial(db) && Serial(sys, db) && OnlyInputFails(sys) && (a.Begin? ==> Conserves(a.command))
    ensures OnlyInputFails(Next(sys, a))
  {
    hide Serial, Run, Blocked, Wanted, Conserves, Applied;
    if Enabled(sys, a) && a.Advance? && !Ends(sys.txns[a.t].pc) {
      MoveOnlyFailsOnInput(sys, db, a.t);
    }
  }

  /**
   * Under every interleaving of conserving commands, the only exceptions are those a command brings itself: a
   * malformed payload, or a sum that wrapped to the least integer. Other constraint violations are unreachable.
   */
  lemma {:induction false} FailuresComeFromInput(db: Db, schedule: seq<Action>)
    requires Initial(db) && ConservingSchedule(schedule)
    ensures OnlyInputFails(Exec(db, schedule))
    decreases |schedule|
  {
    if schedule != [] {
      var front := schedule[..|schedule| - 1];
      FailuresComeFromInput(db, front);
      InterleavingsAreSerial(db, front);
      NextOnlyFailsOnInput(Exec(db, front), db, schedule[|schedule| - 1]);
    }
  }

  /** So the books balance at every moment of every interleaving. */
  lemma InterleavingsConserveStock(db: Db, schedule: seq<Action>)
    requires Initial(db) && ConservingSchedule(schedule)
    ensures C.Balanced(Exec(db, schedule).db, db.stock)
  {
    InterleavingsAreSerial(db, schedule);
    FailuresComeFromInput(db, schedule);
    C.RunKeepsBalance(db, Exec(db, schedule).history);
  }

  // ---------------------------------------------------------------- no deadlock

  /** Locks are taken in item order: a waiting transaction holds only rows of the items before the awaited one. */
  predicate LocksInOrder(sys: Sys, t: TxId)
    requires t in sys.txns
  {
    forall sku :: sku in sys.locks && sys.locks[sku] == t ==>
      match sys.txns[t].pc
      case Begun => false
      case Simulating(_) => false
      case Locking(items, next, _) => exists i :: 0 <= i < next && i < |items| && items[i].sku == sku
      case Crediting(row, next, _) => exists i :: 0 <= i < next && i < |row.items| && row.items[i].sku == sku
      case _ => true
  }

  ghost predicate Ordered(sys: Sys) {
    forall t :: t in sys.txns ==> LocksInOrder(sys, t)
  }

  lemma MoveKeepsOrder(sys: Sys, t: TxId)
    requires t in sys.txns && !Blocked(sys, t) && !Ends(sys.txns[t].pc) && LocksInOrder(sys, t)
    ensures LocksInOrder(Moved(sys, t), t)
  {
    hide Verdict, Available, Debit, Credit, Answered, SimulatedDetails, Releasing, Reserving, Normalized;
    var x, after := sys.txns[t], Moved(sys, t);
    match x.pc
    case Locking(items, next, _) =>
      if next < |items| {
        forall sku | sku in after.locks && after.locks[sku] == t
          ensures exists i :: 0 <= i < next + 1 && i < |items| && items[i].sku == sku
        {
          if sku == items[next].sku {
          } else {
            assert sku in sys.locks && sys.locks[sku] == t;
          }
        }
      }
    case Crediting(row, next, _) =>
      if next < |row.items| {
        forall sku | sku in after.locks && after.locks[sku] == t
          ensures exists i :: 0 <= i < next + 1 && i < |row.items| && row.items[i].sku == sku
        {
          if sku == row.items[next].sku {
          } else {
            assert sku in sys.locks && sys.locks[sku] == t;
          }
        }
      }
    case _ =>
  }

  lemma OthersKeepOrder(sys: Sys, after: Sys, u: TxId)
    requires u in sys.txns && u in after.txns && after.txns[u] == sys.txns[u] && LocksInOrder(sys, u)
    requires forall sku :: sku in after.locks && after.locks[sku] == u ==> sku in sys.locks && sys.locks[sku] == u
    ensures LocksInOrder(after, u)
  {
  }

  lemma NextKeepsOrder(sys: Sys, db: Db, a: Action)
    requires Serial(sys, db) && Ordered(sys)
    ensures Ordered(Next(sys, a))
  {
    hide Run, TxnOk, Blocked, LocksInOrder, Wanted, Applied, Moved, Acquired;
    if Enabled(sys, a) {
      var after := Next(sys, a);
      if a.Advance? && !Ends(sys.txns[a.t].pc) {
        MoveFrame(sys, a.t);
        AcquiredFrame(sys, a.t);
        MoveKeepsOrder(sys, a.t);
      } else if a.Begin? {
        BeginHoldsNothing(sys, db, a);
      } else {
        EndFrame(sys, a);
      }
      forall u | u in after.txns && u != a.t ensures LocksInOrder(after, u) {
        OthersKeepOrder(sys, after, u);
      }
    }
  }

  lemma BeginHoldsNothing(sys: Sys, db: Db, a: Action)
    requires Serial(sys, db) && a.Begin? && Enabled(sys, a)
    ensures LocksInOrder(Next(sys, a), a.t)
  {
    hide Run, TxnOk;
  }

  lemma EndFrame(sys: Sys, a: Action)
    requires Enabled(sys, a) && !a.Begin? && (a.Advance? ==> Ends(sys.txns[a.t].pc))
    ensures Next(sys, a).txns == sys.txns - {a.t} && Next(sys, a).locks == Unlocked(sys.locks, a.t)
  {
  }

  lemma {:induction false} InterleavingsAreOrdered(db: Db, schedule: seq<Action>)
    ensures Ordered(Exec(db, schedule))
    decreases |schedule|
  {
    if schedule != [] {
      var front := schedule[..|schedule| - 1];
      InterleavingsAreOrdered(db, front);
      InterleavingsAreSerial(db, front);
      NextKeepsOrder(Exec(db, front), db, schedule[|schedule| - 1]);
    }
  }

  /** Persisted items of held orders are in SKU order. */
  ghost predicate SortedRows(db: Db) {
    forall o :: o in db.reservations && db.reservations[o].status == RESERVED ==> Sorted(db.reservations[o].items)
  }

  lemma StepKeepsSortedRows(db: Db, e: Event)
    requires SortedRows(db)
    ensures SortedRows(Step(db, e))
  {
    hide Sorted, Verdict, DebitAll, CreditAll, SimulatedDetails, Available;
    var c := e.command;
    if c.Reserve? && Normalized(c.lines).Some? {
      MergeLinesSorted(c.lines.value);
    }
  }

  lemma {:induction false} RunKeepsSortedRows(db: Db, events: seq<Event>)
    requires Initial(db)
    ensures SortedRows(Run(db, events))
    decreases |events|
  {
    if events != [] {
      RunKeepsSortedRows(db, events[..|events| - 1]);
      StepKeepsSortedRows(Run(db, events[..|events| - 1]), events[|events| - 1]);
    }
  }

  /** A transaction only ever waits for a row above all the rows it holds. */
  lemma WaitsAboveItsLocks(sys: Sys, db: Db, t: TxId, sku: Sku)
    requires Initial(db) && Serial(sys, db) && Ordered(sys)
    requires t in sys.txns && Wanted(sys, t).Some? && sku in sys.locks && sys.locks[sku] == t
    ensures Less(sku, Wanted(sys, t).value)
  {
    hide Run, Less, Normalized;
    RunKeepsSortedRows(db, sys.history);
    assert TxnOk(sys, t) && LocksInOrder(sys, t);
    if sys.txns[t].pc.Locking? {
      NormalizedIsSorted(sys.txns[t].command.lines);
    }
  }

  lemma NormalizedIsSorted(lines: Option<seq<Line>>)
    requires Normalized(lines).Some?
    ensures Sorted(Normalized(lines).value)
  {
    MergeLinesSorted(lines.value);
  }

  /** `t` waits for a row lock that `u` holds. */
  predicate Waits(sys: Sys, t: TxId, u: TxId) {
    t in sys.txns && Blocked(sys, t) && sys.locks[Wanted(sys, t).value] == u
  }

  predicate WaitCycle(sys: Sys, cycle: seq<TxId>) {
    |cycle| > 0 && forall i :: 0 <= i < |cycle| ==> Waits(sys, cycle[i], cycle[if i + 1 < |cycle| then i + 1 else 0])
  }

  /** Along a chain of waits the awaited rows go up. */
  lemma WaitedRowsRise(sys: Sys, db: Db, t: TxId, u: TxId)
    requires Initial(db) && Serial(sys, db) && Ordered(sys) && Waits(sys, t, u) && u in sys.txns && Blocked(sys, u)
    ensures Less(Wanted(sys, t).value, Wanted(sys, u).value)
  {
    hide Serial, Ordered, Less;
    WaitsAboveItsLocks(sys, db, u, Wanted(sys, t).value);
  }

  lemma {:induction false} ChainRises(sys: Sys, db: Db, cycle: seq<TxId>, k: nat)
    requires Initial(db) && Serial(sys, db) && Ordered(sys) && WaitCycle(sys, cycle) && 0 < k < |cycle|
    ensures Waits(sys, cycle[0], cycle[if 1 < |cycle| then 1 else 0])
    ensures Waits(sys, cycle[k], cycle[if k + 1 < |cycle| then k + 1 else 0])
    ensures Less(Wanted(sys, cycle[0]).value, Wanted(sys, cycle[k]).value)
  {
    hide Serial, Ordered, Less, Wanted;
    assert Waits(sys, cycle[k], cycle[if k + 1 < |cycle| then k + 1 else 0]);
    if k == 1 {
      assert Waits(sys, cycle[0], cycle[1]);
      WaitedRowsRise(sys, db, cycle[0], cycle[1]);
    } else {
      ChainRises(sys, db, cycle, k - 1);
      WaitedRowsRise(sys, db, cycle[k - 1], cycle[k]);
      LessTransitive(Wanted(sys, cycle[0]).value, Wanted(sys, cycle[k - 1]).value, Wanted(sys, cycle[k]).value);
    }
  }

  lemma OrderedHasNoCycle(sys: Sys, db: Db, cycle: seq<TxId>)
    requires Initial(db) && Serial(sys, db) && Ordered(sys)
    ensures !WaitCycle(sys, cycle)
  {
    hide Serial, Ordered, Less, Wanted;
    if WaitCycle(sys, cycle) {
      var last := |cycle| - 1;
      assert Waits(sys, cycle[last], cycle[0]);
      assert Waits(sys, cycle[0], cycle[if 1 < |cycle| then 1 else 0]);
      WaitedRowsRise(sys, db, cycle[last], cycle[0]);
      if last > 0 {
        ChainRises(sys, db, cycle, last);
        LessTransitive(Wanted(sys, cycle[0]).value, Wanted(sys, cycle[last]).value, Wanted(sys, cycle[0]).value);
      }
      LessIrreflexive(Wanted(sys, cycle[0]).value);
    }
  }

  /** No reachable state has a cycle of transactions waiting for each other's row locks. */
  lemma NoWaitCycle(db: Db, schedule: seq<Action>, cycle: seq<TxId>)
    requires Initial(db)
    ensures !WaitCycle(Exec(db, schedule), cycle)
  {
    InterleavingsAreSerial(db, schedule);
    InterleavingsAreOrdered(db, schedule);
    OrderedHasNoCycle(Exec(db, schedule), db, cycle);
  }

  /** Among blocked transactions, one waits for the highest row. */
  lemma {:induction false} HighestWait(sys: Sys, ts: set<TxId>) returns (top: TxId)
    requires ts != {} && forall t :: t in ts ==> t in sys.txns && Blocked(sys, t)
    ensures top in ts
    ensures Blocked(sys, top)
    ensures forall t :: t in ts ==> Blocked(sys, t) && (t == top || !Less(Wanted(sys, top).value, Wanted(sys, t).value))
    decreases |ts|
  {
    hide Less, Wanted;
    var t :| t in ts;
    if ts == {t} {
      top := t;
    } else {
      var rest := ts - {t};
      assert |rest| < |ts|;
      var other := HighestWait(sys, rest);
      var w, v := Wanted(sys, t).value, Wanted(sys, other).value;
      if Less(v, w) {
        top := t;
        forall u | u in ts && u != t ensures !Less(w, Wanted(sys, u).value) {
          var x := Wanted(sys, u).value;
          if Less(w, x) {
            LessTransitive(v, w, x);
            LessIrreflexive(v);
          }
        }
      } else {
        top := other;
      }
    }
  }

  /** While any transaction is in flight, some transaction can take a step. */
  lemma SomeoneCanStep(db: Db, schedule: seq<Action>)
    requires Initial(db) && Exec(db, schedule).txns != map[]
    ensures exists t :: Enabled(Exec(db, schedule), Advance(t))
  {
    hide Serial, Ordered, Less, Wanted, Exec;
    var sys := Exec(db, schedule);
    InterleavingsAreSerial(db, schedule);
    InterleavingsAreOrdered(db, schedule);
    if forall t :: t in sys.txns ==> Blocked(sys, t) {
      var t0 :| t0 in sys.txns;
      var top := HighestWait(sys, sys.txns.Keys);
      var u := HolderOf(sys, db, top);
      WaitedRowsRise(sys, db, top, u);
    } else {
      var t :| t in sys.txns && !Blocked(sys, t);
      assert Enabled(sys, Advance(t));
    }
  }

  lemma HolderOf(sys: Sys, db: Db, t: TxId) returns (u: TxId)
    requires Serial(sys, db) && t in sys.txns && Blocked(sys, t)
    ensures u in sys.txns && Waits(sys, t, u)
  {
    u := sys.locks[Wanted(sys, t).value];
  }

  /** Only rows that exist are locked, in every reachable state: a missing SKU blocks nobody. */
  lemma {:induction false} LocksAreRows(db: Db, schedule: seq<Action>)
    ensures forall sku :: sku in Exec(db, schedule).locks ==> sku in Exec(db, schedule).db.stock
    decreases |schedule|
  {
    hide Next;
    if schedule != [] {
      var front := schedule[..|schedule| - 1];
      LocksAreRows(db, front);
      assert Exec(db, schedule) == Next(Exec(db, front), schedule[|schedule| - 1]);
      NextLocksRows(Exec(db, front), schedule[|schedule| - 1]);
    }
  }

  lemma NextLocksRows(sys: Sys, a: Action)
    requires forall sku :: sku in sys.locks ==> sku in sys.db.stock
    ensures var after := Next(sys, a);
            && (forall sku :: sku in sys.db.stock ==> sku in after.db.stock)
            && forall sku :: sku in after.locks ==> sku in after.db.stock
  {
    hide AfterFind, Verdict, Available, Debit, Credit, Answered, SimulatedDetails, Compensated, Mode, Balances;
    if Enabled(sys, a) && a.Advance? && !sys.txns[a.t].pc.Writing? {
      AcquiresARow(sys, a.t);
      hide Acquired;
    }
  }

  lemma AcquiresARow(sys: Sys, t: TxId)
    requires t in sys.txns
    ensures var after := Acquired(sys, t);
            && after.db == sys.db && after.txns == sys.txns
            && forall sku :: sku in after.locks ==> sku in sys.locks || sku in sys.db.stock
  {
  }
}
