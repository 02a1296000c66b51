/**
 * Simulated rejections quote balances read without a lock. What that changes: nothing but the quotes, which are those
 * of an earlier moment of the same history; and exactly when the quotes are those of the commit.
 */
module Quotes {
  import opened Prelude
  import opened Skus
  import opened StockAllocator
  import opened InventoryModel
  import C = InventoryConservation
  import opened InventoryHistory
  import opened RowLocks

  /** The same commands, each reading the balances committed just before it. */
  function Live(db: Db, events: seq<Event>): seq<Event> {
    if events == [] then []
    else
      var front := Live(db, events[..|events| - 1]);
      front + [events[|events| - 1].(seen := Balances(Run(db, front).stock))]
  }

  lemma {:induction false} QuotesDoNotSteer(db: Db, events: seq<Event>)
    ensures SameCore(Run(db, events), Run(db, Live(db, events)))
    decreases |events|
  {
    if events != [] {
      hide SameCore, Step;
      var front, e := events[..|events| - 1], events[|events| - 1];
      QuotesDoNotSteer(db, front);
      var live := Live(db, front);
      var seen := Balances(Run(db, live).stock);
      StepKeepsSameCore(Run(db, front), Run(db, live), e, seen);
      assert (live + [e.(seen := seen)])[..|live|] == live;
    } else {
      NothingDiffers(db);
    }
  }

  lemma NothingDiffers(db: Db)
    ensures SameCore(db, db)
  {
  }

  /**
   * Against a serial run in which every command reads the balances committed just before it, only the balances
   * quoted in simulated rejections may differ: the stock is equal, and so is every reservation's status, items, id,
   * and rejection reason.
   */
  lemma InterleavingsMatchLiveRun(db: Db, schedule: seq<Action>)
    ensures var sys := Exec(db, schedule);
            SameCore(sys.db, Run(db, Live(db, sys.history)))
  {
    InterleavingsAreSerial(db, schedule);
    QuotesDoNotSteer(db, Exec(db, schedule).history);
  }

  // ---------------------------------------------------------------- exactly when the quotes are live

  /** The command rejects an order for the first time, as a simulation. */
  predicate Quoting(db: Db, c: Command) {
    && c.Reserve? && c.orderId !in db.reservations && Normalized(c.lines).Some?
    && SimulateMode(c.simulate) == Some(SIMULATE_OUT_OF_STOCK)
  }

  function Quote(seen: map<Sku, int>, sku: Sku): int {
    if sku in seen then seen[sku] else 0
  }

  /** A quoting command quotes, for its own SKUs, the balances of the moment. */
  predicate QuotesNow(db: Db, e: Event) {
    Quoting(db, e.command) ==>
      forall item <- Normalized(e.command.lines).value :: Quote(e.seen, item.sku) == Quote(Balances(db.stock), item.sku)
  }

  predicate AlwaysQuotesNow(db: Db, events: seq<Event>) {
    forall i :: 0 <= i < |events| ==> QuotesNow(Run(db, events[..i]), events[i])
  }

  lemma SameDetails(items: seq<Item>, a: map<Sku, int>, b: map<Sku, int>)
    ensures SimulatedDetails(items, a) == SimulatedDetails(items, b)
       <==> forall item <- items :: Quote(a, item.sku) == Quote(b, item.sku)
  {
    var x, y := SimulatedDetails(items, a), SimulatedDetails(items, b);
    if x == y {
      forall item | item in items ensures Quote(a, item.sku) == Quote(b, item.sku) {
        var i :| 0 <= i < |items| && items[i] == item;
        assert x[i] == y[i];
      }
    } else {
      var i :| 0 <= i < |items| && x[i] != y[i];
      assert items[i] in items;
    }
  }

  /** The quotes are all that the read balances enter into. */
  lemma FreshStep(db: Db, e: Event)
    requires QuotesNow(db, e)
    ensures Step(db, e) == Step(db, e.(seen := Balances(db.stock)))
  {
    hide Normalized, SimulatedDetails, Verdict, DebitAll, CreditAll;
    var now := Balances(db.stock);
    if Quoting(db, e.command) {
      SameDetails(Normalized(e.command.lines).value, e.seen, now);
    }
    var existing := Lookup(db.reservations, e.command.orderId);
    assert Effect(db.stock, existing, e.command, e.rid, e.seen) == Effect(db.stock, existing, e.command, e.rid, now);
  }

  /** The order was rejected in both, with different details. */
  predicate RejectedApart(a: Db, b: Db, o: Uuid) {
    && o in a.reservations && o in b.reservations
    && a.reservations[o].status == REJECTED && b.reservations[o].status == REJECTED
    && a.reservations[o].rejection != b.reservations[o].rejection
  }

  lemma StaleStep(db: Db, e: Event)
    requires !QuotesNow(db, e)
    ensures RejectedApart(Step(db, e), Step(db, e.(seen := Balances(db.stock))), e.command.orderId)
  {
    hide Normalized, SimulatedDetails, Verdict, DebitAll, CreditAll;
    SameDetails(Normalized(e.command.lines).value, e.seen, Balances(db.stock));
  }

  /** A rejected order keeps its rejection. */
  lemma RejectionStays(db: Db, e: Event, o: Uuid)
    requires o in db.reservations && db.reservations[o].status == REJECTED
    ensures var after := Step(db, e);
            && o in after.reservations && after.reservations[o].status == REJECTED
            && after.reservations[o].rejection == db.reservations[o].rejection
  {
    hide Normalized, SimulatedDetails, Verdict, DebitAll, CreditAll, Available;
  }

  lemma ApartStays(a: Db, b: Db, ea: Event, eb: Event, o: Uuid)
    requires RejectedApart(a, b, o)
    ensures RejectedApart(Step(a, ea), Step(b, eb), o)
  {
    hide Step;
    RejectionStays(a, ea, o);
    RejectionStays(b, eb, o);
  }

  lemma NotQuotedNow(db: Db, events: seq<Event>)
    requires !AlwaysQuotesNow(db, events) && events != [] && AlwaysQuotesNow(db, events[..|events| - 1])
    ensures !QuotesNow(Run(db, events[..|events| - 1]), events[|events| - 1])
  {
    hide QuotesNow, Run;
    var front := events[..|events| - 1];
    assert events[..|front|] == front;
    assert forall i :: 0 <= i < |front| ==> front[..i] == events[..i] && front[i] == events[i];
  }

  lemma {:induction false} StaleShows(db: Db, events: seq<Event>) returns (o: Uuid)
    requires !AlwaysQuotesNow(db, events)
    ensures RejectedApart(Run(db, events), Run(db, Live(db, events)), o)
    decreases |events|
  {
    if events == [] {
      return;
    }
    hide Step, QuotesNow, Balances, AlwaysQuotesNow, RejectedApart;
    var front, e := events[..|events| - 1], events[|events| - 1];
    var live := Live(db, front);
    var last := e.(seen := Balances(Run(db, live).stock));
    assert (live + [last])[..|live|] == live;
    if AlwaysQuotesNow(db, front) {
      LiveRunIsExact(db, front);
      NotQuotedNow(db, events);
      StaleStep(Run(db, front), e);
      o := e.command.orderId;
    } else {
      o := StaleShows(db, front);
      ApartStays(Run(db, front), Run(db, live), e, last, o);
    }
  }

  lemma QuotedNow(db: Db, events: seq<Event>)
    requires AlwaysQuotesNow(db, events) && events != []
    ensures var front := events[..|events| - 1];
            AlwaysQuotesNow(db, front) && QuotesNow(Run(db, front), events[|events| - 1])
  {
    hide QuotesNow, Run;
    var front := events[..|events| - 1];
    assert events[..|front|] == front;
    assert forall i :: 0 <= i < |front| ==> front[..i] == events[..i] && front[i] == events[i];
  }

  lemma {:induction false} LiveRunIsExact(db: Db, events: seq<Event>)
    requires AlwaysQuotesNow(db, events)
    ensures Run(db, events) == Run(db, Live(db, events))
    decreases |events|
  {
    if events != [] {
      hide Step, QuotesNow, Balances, AlwaysQuotesNow;
      var front, e := events[..|events| - 1], events[|events| - 1];
      QuotedNow(db, events);
      LiveRunIsExact(db, front);
      var live := Live(db, front);
      FreshStep(Run(db, live), e);
      assert (live + [e.(seen := Balances(Run(db, live).stock))])[..|live|] == live;
    }
  }

  /**
   * A serial run equals the one in which every command reads the balances committed just before it, replies and
   * attempts included, if and only if each simulated first rejection quotes the balances of its commit for its SKUs.
   */
  lemma LiveRunIsExactIff(db: Db, events: seq<Event>)
    ensures Run(db, events) == Run(db, Live(db, events)) <==> AlwaysQuotesNow(db, events)
  {
    hide Run, Live, AlwaysQuotesNow;
    if AlwaysQuotesNow(db, events) {
      LiveRunIsExact(db, events);
    } else {
      var o := StaleShows(db, events);
    }
  }

  // ---------------------------------------------------------------- where the quotes come from

  /** The balances of some moment of the history. */
  ghost predicate WasBalance(db: Db, history: seq<Event>, seen: map<Sku, int>) {
    exists k :: 0 <= k <= |history| && seen == Balances(Run(db, history[..k]).stock)
  }

  /** What was quoted, and what is about to be, was read from a committed state. */
  ghost predicate QuotesArePast(sys: Sys, db: Db) {
    && (forall i :: 0 <= i < |sys.history| && Quoting(Run(db, sys.history[..i]), sys.history[i].command) ==>
          WasBalance(db, sys.history[..i], sys.history[i].seen))
    && forall t :: t in sys.txns && sys.txns[t].pc.Writing? && Quoting(sys.db, sys.txns[t].command) ==>
         WasBalance(db, sys.history, sys.txns[t].seen)
  }

  lemma WasBalanceLater(db: Db, history: seq<Event>, e: Event, seen: map<Sku, int>)
    requires WasBalance(db, history, seen)
    ensures WasBalance(db, history + [e], seen)
  {
    hide Balances, Run;
    var k :| 0 <= k <= |history| && seen == Balances(Run(db, history[..k]).stock);
    assert (history + [e])[..k] == history[..k];
  }

  lemma IsBalance(sys: Sys, db: Db)
    requires sys.db == Run(db, sys.history)
    ensures WasBalance(db, sys.history, Balances(sys.db.stock))
  {
    hide Balances, Run;
    assert sys.history[..|sys.history|] == sys.history;
  }

  /** A step that ends nothing: only a simulation's read makes a quoting transaction ready to write. */
  lemma MoveKeepsPast(sys: Sys, db: Db, t: TxId)
    requires Serial(sys, db) && QuotesArePast(sys, db) && t in sys.txns && !Blocked(sys, t) && !Ends(sys.txns[t].pc)
    ensures QuotesArePast(Moved(sys, t), db)
  {
    hide Balances, Run, WasBalance, Verdict, Available, Debit, Credit, Answered, SimulatedDetails, Normalized, Blocked,
      DebitAll, CreditAll, Owns;
    MoveFrame(sys, t);
    IsBalance(sys, db);
    assert TxnOk(sys, t);
  }

  lemma KeysGrow(db: Db, e: Event, c: Command)
    requires Quoting(Step(db, e), c)
    ensures Quoting(db, c)
  {
    hide Normalized, Effect;
  }

  lemma CommitKeepsPast(sys: Sys, db: Db, t: TxId, w: Writes)
    requires Serial(sys, db) && QuotesArePast(sys, db) && t in sys.txns && sys.txns[t].pc == Writing(w)
    ensures QuotesArePast(Committed(sys, t, w), db)
  {
    hide Run, WasBalance, Quoting, Applied, Handle, Step, TxnOk;
    var after, e := Committed(sys, t, w), Event(sys.txns[t].command, sys.txns[t].rid, sys.txns[t].seen);
    CommitIsStep(sys, db, t, w);
    assert after.history[..|sys.history|] == sys.history;
    forall i | 0 <= i < |after.history| && Quoting(Run(db, after.history[..i]), after.history[i].command)
      ensures WasBalance(db, after.history[..i], after.history[i].seen)
    {
      if i < |sys.history| {
        assert after.history[..i] == sys.history[..i];
      }
    }
    forall u | u in after.txns && after.txns[u].pc.Writing? && Quoting(after.db, after.txns[u].command)
      ensures WasBalance(db, after.history, after.txns[u].seen)
    {
      KeysGrow(sys.db, e, after.txns[u].command);
      WasBalanceLater(db, sys.history, e, after.txns[u].seen);
    }
  }

  lemma NextKeepsPast(sys: Sys, db: Db, a: Action)
    requires Serial(sys, db) && QuotesArePast(sys, db)
    ensures QuotesArePast(Next(sys, a), db)
  {
    hide Serial, Run, Wanted, Applied, WasBalance, Quoting, TxnOk, Blocked;
    if Enabled(sys, a) && a.Advance? {
      if sys.txns[a.t].pc.Writing? {
        CommitKeepsPast(sys, db, a.t, sys.txns[a.t].pc.writes);
      } else if !sys.txns[a.t].pc.Failed? {
        MoveKeepsPast(sys, db, a.t);
      }
    }
  }

  /** Under every interleaving a simulated rejection quotes the balances of a moment of the committed history. */
  lemma {:induction false} InterleavingsQuoteThePast(db: Db, schedule: seq<Action>)
    ensures QuotesArePast(Exec(db, schedule), db)
    decreases |schedule|
  {
    if schedule != [] {
      var front := schedule[..|schedule| - 1];
      InterleavingsQuoteThePast(db, front);
      InterleavingsAreSerial(db, front);
      NextKeepsPast(Exec(db, front), db, schedule[|schedule| - 1]);
    }
  }

  // ---------------------------------------------------------------- an interleaving with a stale quote

  function Quoted(sku: Sku): Command {
    Reserve(1, 1, Some([Line(Some(sku), 1)]), Some(SIMULATE_OUT_OF_STOCK))
  }

  function Taken(sku: Sku): Command {
    Reserve(2, 2, Some([Line(Some(sku), 4)]), None)
  }

  function Ten(sku: Sku): Db {
    Db(map[sku := StockRow(10, 0)], map[], [], {})
  }

  function ItemsOf(sku: Sku, quantity: int): seq<Item> {
    [Item(sku, quantity)]
  }

  /** The simulation after its read: about to write a rejection that quotes ten. */
  function Reader(sku: Sku): Txn {
    var rejection := Rejection(OUT_OF_STOCK, SimulatedDetails(ItemsOf(sku, 1), map[sku := 10]));
    Txn(Quoted(sku), 0, map[sku := 10],
        Writing(Answered(Execution(map[], RejectedRow(ItemsOf(sku, 1), rejection)), Some(SIMULATE_OUT_OF_STOCK))))
  }

  /** The other order at some point of its way, while the simulation waits to write. */
  function Between(sku: Sku, pc: Pc, locks: map<Sku, TxId>): Sys {
    Sys(Ten(sku), map[1 := Reader(sku), 2 := Txn(Taken(sku), 0, map[], pc)], locks, [])
  }

  function Paid(sku: Sku): Writes {
    Answered(Execution(map[sku := StockRow(6, 4)], ReservedRow(0, ItemsOf(sku, 4))), None)
  }

  /** The simulation reads; the other order reserves four units and commits; the simulation commits. */
  function Schedule(sku: Sku): seq<Action> {
    [Begin(1, Quoted(sku), 0)] + [Advance(1)] + [Advance(1)] + [Begin(2, Taken(sku), 0)] + [Advance(2)] + [Advance(2)]
    + [Advance(2)] + [Advance(2)] + [Advance(2)] + [Advance(2)] + [Advance(1)]
  }

  lemma Onward(db: Db, front: seq<Action>, a: Action, before: Sys, after: Sys)
    requires Exec(db, front) == before && Next(before, a) == after
    ensures Exec(db, front + [a]) == after
  {
    hide Next;
    assert (front + [a])[..|front|] == front;
  }

  lemma ReaderSteps(sku: Sku)
    requires !IsBlank(sku)
    ensures var s := Start(Ten(sku));
            var begun := s.(txns := map[1 := Txn(Quoted(sku), 0, map[], Begun)]);
            var reading := s.(txns := map[1 := Txn(Quoted(sku), 0, map[], Simulating(ItemsOf(sku, 1)))]);
            && Next(s, Begin(1, Quoted(sku), 0)) == begun
            && Next(begun, Advance(1)) == reading
            && Next(reading, Advance(1)) == s.(txns := map[1 := Reader(sku)])
  {
    hide IsBlank, SimulatedDetails, Normalized;
    C.OneLine(sku, 1);
    assert Balances(Ten(sku).stock) == map[sku := 10];
  }

  lemma WriterLocks(sku: Sku)
    requires !IsBlank(sku)
    ensures var s := Start(Ten(sku)).(txns := map[1 := Reader(sku)]);
            var items := ItemsOf(sku, 4);
            && Next(s, Begin(2, Taken(sku), 0)) == Between(sku, Begun, map[])
            && Next(Between(sku, Begun, map[]), Advance(2)) == Between(sku, Locking(items, 0, map[]), map[])
            && Next(Between(sku, Locking(items, 0, map[]), map[]), Advance(2))
               == Between(sku, Locking(items, 1, map[sku := 10]), map[sku := 2])
  {
    hide IsBlank, SimulatedDetails, Normalized, Reader;
    C.OneLine(sku, 4);
    assert Reader(sku).command == Quoted(sku) by { ReaderIs(sku); }
    var items, empty := ItemsOf(sku, 4), map[];
    var s := Start(Ten(sku)).(txns := map[1 := Reader(sku)]);
    assert Enabled(s, Begin(2, Taken(sku), 0));
    assert Next(s, Begin(2, Taken(sku), 0)) == Between(sku, Begun, map[]);
    assert Next(Between(sku, Begun, map[]), Advance(2)) == Between(sku, Locking(items, 0, map[]), map[]);
    var locking := Between(sku, Locking(items, 0, map[]), map[]);
    assert Wanted(locking, 2) == Some(sku);
    assert empty + Available(Ten(sku).stock, [items[0]]) == map[sku := 10];
  }

  lemma ReaderIs(sku: Sku)
    ensures Reader(sku).command == Quoted(sku)
  {
  }

  lemma WriterDebits(sku: Sku)
    ensures var items, locks, rows := ItemsOf(sku, 4), map[sku := 2 as TxId], map[sku := StockRow(6, 4)];
            && Next(Between(sku, Locking(items, 1, map[sku := 10]), locks), Advance(2))
               == Between(sku, Debiting(items, 0, map[]), locks)
            && Next(Between(sku, Debiting(items, 0, map[]), locks), Advance(2))
               == Between(sku, Debiting(items, 1, rows), locks)
            && Next(Between(sku, Debiting(items, 1, rows), locks), Advance(2)) ==
               Between(sku, Writing(Paid(sku)), locks)
  {
    hide Reader, Answered;
    var items := ItemsOf(sku, 4);
    VerdictMeaning(items, map[sku := 10]);
    assert Covered(items, map[sku := 10]);
  }

  /** The other order has committed. */
  function Sold(sku: Sku): Sys {
    Sys(Applied(Ten(sku), Taken(sku), Paid(sku)), map[1 := Reader(sku)], map[], [Event(Taken(sku), 0, map[])])
  }

  lemma Commits2(sku: Sku)
    ensures Next(Between(sku, Writing(Paid(sku)), map[sku := 2]), Advance(2)) == Sold(sku)
    ensures Next(Sold(sku), Advance(1)).history == [Event(Taken(sku), 0, map[]), Event(Quoted(sku), 0, map[sku := 10])]
  {
    hide Applied, Answered;
    var s := Between(sku, Writing(Paid(sku)), map[sku := 2]);
    assert s.txns - {2} == map[1 := Reader(sku)];
    assert Unlocked(s.locks, 2) == map[];
    assert s.history + [Event(Taken(sku), 0, map[])] == [Event(Taken(sku), 0, map[])];
  }

  /** That interleaving, up to its last step. */
  lemma ScheduleRuns(sku: Sku)
    requires !IsBlank(sku)
    ensures Exec(Ten(sku), Schedule(sku)).history ==
                [Event(Taken(sku), 0, map[]), Event(Quoted(sku), 0, map[sku := 10])]
  {
    hide Next, Reader, Paid, Sold, Quoted, Taken, Ten, ItemsOf;
    var db, items, locks, rows := Ten(sku), ItemsOf(sku, 4), map[sku := 2], map[sku := StockRow(6, 4)];
    ReaderSteps(sku);
    WriterLocks(sku);
    WriterDebits(sku);
    Commits2(sku);
    var s := Start(db);
    var begun := s.(txns := map[1 := Txn(Quoted(sku), 0, map[], Begun)]);
    var reading := s.(txns := map[1 := Txn(Quoted(sku), 0, map[], Simulating(ItemsOf(sku, 1)))]);
    var s3 := s.(txns := map[1 := Reader(sku)]);
    var a1 := [Begin(1, Quoted(sku), 0)];
    assert [] + a1 == a1;
    Onward(db, [], Begin(1, Quoted(sku), 0), s, begun);
    var a2 := a1 + [Advance(1)];
    Onward(db, a1, Advance(1), begun, reading);
    var a3 := a2 + [Advance(1)];
    Onward(db, a2, Advance(1), reading, s3);
    var a4 := a3 + [Begin(2, Taken(sku), 0)];
    Onward(db, a3, Begin(2, Taken(sku), 0), s3, Between(sku, Begun, map[]));
    var a5 := a4 + [Advance(2)];
    Onward(db, a4, Advance(2), Between(sku, Begun, map[]), Between(sku, Locking(items, 0, map[]), map[]));
    var a6 := a5 + [Advance(2)];
    var locked := Between(sku, Locking(items, 1, map[sku := 10]), locks);
    Onward(db, a5, Advance(2), Between(sku, Locking(items, 0, map[]), map[]), locked);
    var a7 := a6 + [Advance(2)];
    Onward(db, a6, Advance(2), locked, Between(sku, Debiting(items, 0, map[]), locks));
    var a8 := a7 + [Advance(2)];
    Onward(db, a7, Advance(2), Between(sku, Debiting(items, 0, map[]), locks),
           Between(sku, Debiting(items, 1, rows), locks));
    var a9 := a8 + [Advance(2)];
    Onward(db, a8, Advance(2), Between(sku, Debiting(items, 1, rows), locks), Between(sku, Writing(Paid(sku)), locks));
    var a10 := a9 + [Advance(2)];
    Onward(db, a9, Advance(2), Between(sku, Writing(Paid(sku)), locks), Sold(sku));
    Onward(db, a10, Advance(1), Sold(sku), Next(Sold(sku), Advance(1)));
    assert Schedule(sku) == a10 + [Advance(1)];
  }

  /** A simulated rejection of one unit quotes the balance that was read. */
  lemma QuoteStep(db: Db, e: Event, sku: Sku)
    requires e.command.Reserve? && e.command.simulate == Some(SIMULATE_OUT_OF_STOCK)
    requires Normalized(e.command.lines) == Some([Item(sku, 1)]) && e.command.orderId !in db.reservations
    requires sku in e.seen
    ensures Step(db, e).reservations == db.reservations[e.command.orderId :=
              RejectedRow([Item(sku, 1)], Rejection(OUT_OF_STOCK, [Detail(sku, 1, e.seen[sku])])).(attempts := 1)]
  {
    assert SimulatedDetails([Item(sku, 1)], e.seen) == [Detail(sku, 1, e.seen[sku])];
  }

  /**
   * A quoted balance can be stale: in this interleaving the simulation reads ten, another order then takes four and
   * commits, and the rejection that quotes ten is committed after it.
   */
  lemma QuotesCanBeStale(sku: Sku)
    requires !IsBlank(sku)
    ensures var sys := Exec(Ten(sku), Schedule(sku));
            && sys.db == Run(Ten(sku), sys.history) != Run(Ten(sku), Live(Ten(sku), sys.history))
            && Lookup(sys.db.reservations, 1)
               == Some(RejectedRow([Item(sku, 1)], Rejection(OUT_OF_STOCK, [Detail(sku, 1, 10)])).(attempts := 1))
  {
    hide Step, Normalized, RejectedRow, ReservedRow, Exec, Schedule;
    var db := Ten(sku);
    var taken, quoted := Event(Taken(sku), 0, map[]), Event(Quoted(sku), 0, map[sku := 10]);
    var history := [taken, quoted];
    ScheduleRuns(sku);
    InterleavingsAreSerial(db, Schedule(sku));
    C.OneLine(sku, 1);
    C.OneLine(sku, 4);
    C.SingleItemReserve(db, taken, sku, 4);
    var sold := Step(db, taken);
    QuoteStep(sold, quoted, sku);
    TwoSteps(db, taken, quoted);
    assert history[..1] == [taken] && history[1] == quoted;
    assert Item(sku, 1) in [Item(sku, 1)];
    assert !QuotesNow(Run(db, history[..1]), history[1]);
    LiveRunIsExactIff(db, history);
  }
}
