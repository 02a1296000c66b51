/** The participant as the code runs it: tables updated in place inside one transaction, rolled back on an exception. */
module InventoryHandler {
  import opened Prelude
  import opened Skus
  import opened StockAllocator
  import opened InventoryModel

  /** `InventoryRepository.java`: the `stock` and `reservations` tables. */
  class InventoryRepository {
    var stock: Stock
    var reservations: Reservations

    /** The locking and the plain balance query fill the same map, row by row in SKU order. */
    method QueryAvailable(items: seq<Item>) returns (available: map<Sku, int>)
      ensures available == Available(stock, items)
    {
      available := map[];
      for i := 0 to |items|
        invariant available == Available(stock, items[..i])
      {
        assert SkusOf(items[..i + 1]) == SkusOf(items[..i]) + {items[i].sku} by {
          assert items[..i + 1] == items[..i] + [items[i]];
          SkusSnoc(items[..i], items[i]);
        }
        if items[i].sku in stock {
          available := available[items[i].sku := stock[items[i].sku].available];
        }
      }
      assert items[..|items|] == items;
    }

    /** Conditional debit: `Ok(false)` when no row qualifies, an SQL error when the new row breaks a constraint. */
    method ReserveStock(sku: Sku, quantity: int) returns (updated: Result<bool, Fault>)
      modifies this`stock
      ensures var row := Lookup(old(stock), sku);
              if row.None? || row.value.available < quantity then updated == Ok(false) && stock == old(stock)
              else var moved := StockRow(row.value.available - quantity, row.value.reserved + quantity);
                   if Legal(moved) then updated == Ok(true) && stock == old(stock)[sku := moved]
                   else updated == Err(SQL_ERROR) && stock == old(stock)
    {
      if sku !in stock || stock[sku].available < quantity {
        return Ok(false);
      }
      var moved := StockRow(stock[sku].available - quantity, stock[sku].reserved + quantity);
      if !Legal(moved) {
        return Err(SQL_ERROR);
      }
      stock := stock[sku := moved];
      return Ok(true);
    }

    method ReleaseStock(sku: Sku, quantity: int) returns (done: Result<bool, Fault>)
      modifies this`stock
      ensures var row := Lookup(old(stock), sku);
              if row.None? then done == Err(SKU_MISSING_ON_RELEASE) && stock == old(stock)
              else var moved := StockRow(row.value.available + quantity, Max(row.value.reserved - quantity, 0));
                   if Legal(moved) then done == Ok(true) && stock == old(stock)[sku := moved]
                   else done == Err(SQL_ERROR) && stock == old(stock)
    {
      if sku !in stock {
        return Err(SKU_MISSING_ON_RELEASE);
      }
      var moved := StockRow(stock[sku].available + quantity, Max(stock[sku].reserved - quantity, 0));
      if !Legal(moved) {
        return Err(SQL_ERROR);
      }
      stock := stock[sku := moved];
      return Ok(true);
    }

    method InsertReservation(o: Uuid, r: Reservation)
      requires o !in reservations
      modifies this`reservations
      ensures reservations == old(reservations)[o := r]
    {
      reservations := reservations[o := r];
    }

    method MarkReleased(o: Uuid)
      requires o in reservations
      modifies this`reservations
      ensures reservations == old(reservations)[o := old(reservations)[o].(status := RELEASED, noop := false)]
    {
      reservations := reservations[o := reservations[o].(status := RELEASED, noop := false)];
    }

    method IncrementAttempts(o: Uuid) returns (attempts: nat)
      requires o in reservations
      modifies this`reservations
      ensures attempts == old(reservations)[o].attempts + 1
      ensures reservations == old(reservations)[o := old(reservations)[o].(attempts := attempts)]
    {
      attempts := reservations[o].attempts + 1;
      reservations := reservations[o := reservations[o].(attempts := attempts)];
    }
  }

  /** `OutboxWriter.java`: rows appended inside the caller's transaction. */
  class OutboxWriter {
    var rows: seq<Message>

    method Publish(message: Message)
      modifies this
      ensures rows == old(rows) + [message]
    {
      rows := rows + [message];
    }
  }

  /** `IdempotencyGuard.java`. */
  class IdempotencyGuard {
    var processed: set<Uuid>

    method TryMarkProcessed(id: Uuid) returns (first: bool)
      modifies this
      ensures processed == old(processed) + {id}
      ensures first <==> id !in old(processed)
    {
      first := id !in processed;
      processed := processed + {id};
    }
  }

  /** The balances of the requested SKUs are all that a simulated rejection quotes. */
  lemma QuotedBalances(stock: Stock, items: seq<Item>, seen: map<Sku, int>)
    requires seen == map sku | sku in stock :: stock[sku].available
    ensures SimulatedDetails(items, Available(stock, items)) == SimulatedDetails(items, seen)
  {
    forall i | 0 <= i < |items|
      ensures SimulatedDetails(items, Available(stock, items))[i] == SimulatedDetails(items, seen)[i]
    {
      assert items[i].sku in SkusOf(items);
    }
  }

  /** Writing a row in place is writing it in the transaction's own copy. */
  lemma DebitInPlace(stock: Stock, dirty: Stock, item: Item)
    ensures var row, debit := Lookup(stock + dirty, item.sku), Debit(stock, dirty, item);
            if row.None? || row.value.available < item.quantity then debit == Err(INSUFFICIENT_DESPITE_LOCK)
            else var moved := StockRow(row.value.available - item.quantity, row.value.reserved + item.quantity);
                 if Legal(moved) then debit.Ok? && stock + debit.value == (stock + dirty)[item.sku := moved]
                 else debit == Err(SQL_ERROR)
  {
  }

  lemma CreditInPlace(stock: Stock, dirty: Stock, item: Item)
    ensures var row, credit := Lookup(stock + dirty, item.sku), Credit(stock, dirty, item);
            if row.None? then credit == Err(SKU_MISSING_ON_RELEASE)
            else var moved := StockRow(row.value.available + item.quantity, Max(row.value.reserved - item.quantity, 0));
                 if Legal(moved) then credit.Ok? && stock + credit.value == (stock + dirty)[item.sku := moved]
                 else credit == Err(SQL_ERROR)
  {
  }

  lemma FirstRows(stock: Stock, items: seq<Item>)
    ensures DebitAll(stock, items[..0]) == CreditAll(stock, items[..0]) == Ok(map[])
    ensures stock + map[] == stock && items[..|items|] == items
  {
  }

  lemma NextRow(stock: Stock, items: seq<Item>, i: nat)
    requires i < |items|
    ensures DebitAll(stock, items[..i]).Ok? ==>
              DebitAll(stock, items[..i + 1]) == Debit(stock, DebitAll(stock, items[..i]).value, items[i])
    ensures CreditAll(stock, items[..i]).Ok? ==>
              CreditAll(stock, items[..i + 1]) == Credit(stock, CreditAll(stock, items[..i]).value, items[i])
  {
    assert items[..i + 1][..i] == items[..i];
  }

  lemma DebitPrefixFails(stock: Stock, items: seq<Item>, n: nat)
    requires n <= |items| && DebitAll(stock, items[..n]).Err?
    ensures DebitAll(stock, items) == Err(DebitAll(stock, items[..n]).error)
    decreases |items|
  {
    if n < |items| {
      assert items[..|items| - 1][..n] == items[..n];
      DebitPrefixFails(stock, items[..|items| - 1], n);
    } else {
      assert items[..n] == items;
    }
  }

  lemma CreditPrefixFails(stock: Stock, items: seq<Item>, n: nat)
    requires n <= |items| && CreditAll(stock, items[..n]).Err?
    ensures CreditAll(stock, items) == Err(CreditAll(stock, items[..n]).error)
    decreases |items|
  {
    if n < |items| {
      assert items[..|items| - 1][..n] == items[..n];
      CreditPrefixFails(stock, items[..|items| - 1], n);
    } else {
      assert items[..n] == items;
    }
  }

  /** `InventoryCommandHandler.java`. */
  class InventoryCommandHandler {
    const repo: InventoryRepository
    const outbox: OutboxWriter
    const idempotency: IdempotencyGuard

    constructor (repo: InventoryRepository, outbox: OutboxWriter, idempotency: IdempotencyGuard)
      ensures this.repo == repo && this.outbox == outbox && this.idempotency == idempotency
    {
      this.repo, this.outbox, this.idempotency := repo, outbox, idempotency;
    }

    /** The database the handler works on. */
    function Tables(): Db
      reads repo, outbox, idempotency
    {
      Db(repo.stock, repo.reservations, outbox.rows, idempotency.processed)
    }

    function Seen(): map<Sku, int>
      reads repo
    {
      map sku | sku in repo.stock :: repo.stock[sku].available
    }

    /** One delivered command in one transaction: its whole effect, or none of it. */
    method Handle(c: Command, rid: Uuid) returns (fault: Option<Fault>)
      modifies repo, outbox, idempotency
      ensures var spec := InventoryModel.Handle(old(Tables()), c, rid, old(Seen()));
              match spec
              case Ok(db) => fault == None && Tables() == db
              case Err(f) => fault == Some(f) && Tables() == old(Tables())
    {
      var before := Tables();
      var first := idempotency.TryMarkProcessed(c.messageId);
      match c {
        case Reserve(_, _, _, _) => fault := Reserve(c, rid, first);
        case Release(_, _) => fault := Release(c, first);
        case Unrecognised(_, _) => fault := None; assert repo.stock + map[] == repo.stock;
      }
      if fault.Some? {
        // rollback
        repo.stock, repo.reservations := before.stock, before.reservations;
        outbox.rows := before.outbox;
        idempotency.processed := before.processed;
      }
    }

    /** `reserve`: `first` only chooses the wording of a log line. */
    method Reserve(c: Command, rid: Uuid, first: bool) returns (fault: Option<Fault>)
      requires c.Reserve?
      modifies repo, outbox
      ensures var spec := Reserving(old(repo.stock), Lookup(old(repo.reservations), c.orderId), c, rid, old(Seen()));
              match spec
              case Ok(w) =>
                fault == None && Tables() == Applied(old(Tables()), c, w).(processed := idempotency.processed)
              case Err(f) => fault == Some(f)
    {
      hide DebitAll, Verdict, Normalized, SimulatedDetails, Available, Executed;
      var mode := SimulateMode(c.simulate);
      var existing := Lookup(repo.reservations, c.orderId);
      assert repo.stock + map[] == repo.stock;
      if existing.Some? && existing.value.status == RELEASED {
        outbox.Publish(Message(c.orderId, c.messageId, Rejected(Some(Rejection(ALREADY_COMPENSATED, [])))));
        return None;
      }
      var reservation;
      if existing.Some? {
        reservation := existing.value;
      } else {
        var executed := Execute(c.orderId, c.lines, mode, rid);
        if executed.Err? {
          return Some(executed.error);
        }
        reservation := executed.value;
      }
      var attempts := repo.IncrementAttempts(c.orderId);
      if ShouldReply(mode, attempts) {
        outbox.Publish(Message(c.orderId, c.messageId, ReplyOf(reservation)));
      }
      return None;
    }

    /** The debit loop: one conditional update per SKU, in SKU order; a missed update throws. */
    method DebitEach(requested: seq<Item>) returns (fault: Option<Fault>)
      modifies repo`stock
      ensures match DebitAll(old(repo.stock), requested)
              case Ok(rows) => fault == None && repo.stock == old(repo.stock) + rows
              case Err(f) => fault == Some(f)
    {
      hide DebitAll, CreditAll, Debit, Credit, Legal;
      ghost var dirty: Stock := map[];
      FirstRows(repo.stock, requested);
      for i := 0 to |requested|
        invariant DebitAll(old(repo.stock), requested[..i]) == Ok(dirty)
        invariant repo.stock == old(repo.stock) + dirty
      {
        NextRow(old(repo.stock), requested, i);
        DebitInPlace(old(repo.stock), dirty, requested[i]);
        var updated := repo.ReserveStock(requested[i].sku, requested[i].quantity);
        ghost var debit := Debit(old(repo.stock), dirty, requested[i]);
        if updated.Err? || !updated.value {
          DebitPrefixFails(old(repo.stock), requested, i + 1);
          return Some(if updated.Err? then updated.error else INSUFFICIENT_DESPITE_LOCK);
        }
        dirty := debit.value;
      }
      return None;
    }

    /** The credit loop of a release, over the items in their persisted order. */
    method CreditEach(items: seq<Item>) returns (fault: Option<Fault>)
      modifies repo`stock
      ensures match CreditAll(old(repo.stock), items)
              case Ok(rows) => fault == None && repo.stock == old(repo.stock) + rows
              case Err(f) => fault == Some(f)
    {
      hide DebitAll, CreditAll, Debit, Credit, Legal;
      ghost var dirty: Stock := map[];
      FirstRows(repo.stock, items);
      for i := 0 to |items|
        invariant CreditAll(old(repo.stock), items[..i]) == Ok(dirty)
        invariant repo.stock == old(repo.stock) + dirty
      {
        NextRow(old(repo.stock), items, i);
        CreditInPlace(old(repo.stock), dirty, items[i]);
        var done := repo.ReleaseStock(items[i].sku, items[i].quantity);
        ghost var credit := Credit(old(repo.stock), dirty, items[i]);
        if done.Err? {
          CreditPrefixFails(old(repo.stock), items, i + 1);
          return Some(done.error);
        }
        dirty := credit.value;
      }
      return None;
    }

    /** `execute`: all or nothing; a failure part way leaves rows for the rollback to undo. */
    method Execute(o: Uuid, lines: Option<seq<Line>>, mode: Option<string>, rid: Uuid)
      returns (reservation: Result<Reservation, Fault>)
      requires o !in repo.reservations
      modifies repo
      ensures var spec := Executed(old(repo.stock), lines, mode, rid, old(Seen()));
              match spec
              case Ok(e) => reservation == Ok(e.row) && repo.stock == old(repo.stock) + e.rows
                            && repo.reservations == old(repo.reservations)[o := e.row]
              case Err(f) => reservation == Err(f)
    {
      var grouped := Normalize(lines);
      if grouped.None? {
        return Err(MALFORMED);
      }
      var requested := grouped.value;
      assert repo.stock + map[] == repo.stock;
      if mode == Some(SIMULATE_OUT_OF_STOCK) {
        var available := repo.QueryAvailable(requested);
        QuotedBalances(repo.stock, requested, Seen());
        var r := RejectedRow(requested, Rejection(OUT_OF_STOCK, SimulatedDetails(requested, available)));
        repo.InsertReservation(o, r);
        return Ok(r);
      }
      var available := repo.QueryAvailable(requested);
      var rejection := Check(requested, available);
      if rejection.Some? {
        var r := RejectedRow(requested, rejection.value);
        repo.InsertReservation(o, r);
        return Ok(r);
      }
      var fault := DebitEach(requested);
      if fault.Some? {
        return Err(fault.value);
      }
      var r := ReservedRow(rid, requested);
      repo.InsertReservation(o, r);
      return Ok(r);
    }

    /** `release`: always executed and always answered. */
    method Release(c: Command, first: bool) returns (fault: Option<Fault>)
      requires c.Release?
      modifies repo, outbox
      ensures var spec := Releasing(old(repo.stock), Lookup(old(repo.reservations), c.orderId));
              match spec
              case Ok(w) =>
                fault == None && Tables() == Applied(old(Tables()), c, w).(processed := idempotency.processed)
              case Err(f) => fault == Some(f)
    {
      var existing := Lookup(repo.reservations, c.orderId);
      assert repo.stock + map[] == repo.stock;
      if existing.None? {
        repo.InsertReservation(c.orderId, TOMBSTONE);
        outbox.Publish(Message(c.orderId, c.messageId, Released(None, true)));
        return None;
      }
      var r := existing.value;
      match r.status {
        case RESERVED =>
          fault := CreditEach(r.items);
          if fault.Some? {
            return;
          }
          repo.MarkReleased(c.orderId);
          outbox.Publish(Message(c.orderId, c.messageId, Released(r.reservationId, false)));
        case RELEASED =>
          outbox.Publish(Message(c.orderId, c.messageId, Released(r.reservationId, r.noop)));
        case REJECTED =>
          outbox.Publish(Message(c.orderId, c.messageId, Released(None, true)));
      }
      return None;
    }
  }
}
