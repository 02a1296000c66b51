/** Exactly which orders can always be ended: for each other one, a checkout whose release is refused for good. */
module SagaStuck {
  import opened Prelude
  import opened SagaModel
  import opened SagaParticipants
  import opened SagaRuns
  import opened SagaSends
  import opened SagaProgress
  import A = StockAllocator
  import I = InventoryModel
  import C = InventoryConservation
  import H = InventoryHistory

  // ---------------------------------------------------------------- a release that is refused for good

  /** The saga waits for a release that the inventory refuses. */
  ghost predicate Stuck(x: Setup, w: World) {
    && Inv(x, w) && w.saga.Some? && w.saga.value.status.RELEASING_INVENTORY? && Holds(x, w)
    && I.CreditAll(w.inventory.stock, w.inventory.reservations[x.orderId].items).Err?
  }

  /** Neither the order's own reserve, sent again, nor its release changes anything that the release depends on. */
  lemma OwnCommands(x: Setup, db: I.Db, c: Command, id: Uuid, seen: map<I.Skus.Sku, int>)
    requires c.body.Reserve? || c.body.Release?
    requires x.orderId in db.reservations && db.reservations[x.orderId].status == I.RESERVED
    requires I.CreditAll(db.stock, db.reservations[x.orderId].items).Err?
    ensures var after := I.Step(db, I.Event(ForInventory(x, c), id, seen));
            && after.stock == db.stock && x.orderId in after.reservations
            && after.reservations[x.orderId].status == I.RESERVED
            && after.reservations[x.orderId].items == db.reservations[x.orderId].items
  {
    hide I.CreditAll, A.Normalized, A.Verdict, I.DebitAll;
    assert db.stock + map[] == db.stock;
  }

  lemma NextStuck(x: Setup, w: World, a: Action)
    requires Stuck(x, w) && !a.Elsewhere?
    ensures Stuck(x, Next(x, w, a))
  {
    NextKeepsInv(x, w, a);
    if Enabled(x, w, a) {
      match a
      case Hear(e, id, now) => NotReleased(x, w, e);
      case Deliver(c, id, seen, tracking) =>
        DeliveriesKeepSaga(x, w, c, id, seen, tracking);
        if c.body.Reserve? || c.body.Release? {
          OwnCommands(x, w.inventory, c, id, seen);
        }
        hide Inv, I.Step, I.CreditAll;
      case _ => hide Inv, I.CreditAll, Backoff;
    }
  }

  lemma NotReleased(x: Setup, w: World, e: Envelope)
    requires Stuck(x, w) && IsPublished(x, w, e.causationId, e.reply)
    ensures !Accepts(w.saga.value, e)
  {
    hide I.CreditAll;
    RepliesStayTrue(x, w, e.causationId, e.reply);
    hide Inv;
  }

  lemma {:induction false} StaysStuck(x: Setup, w: World, more: seq<Action>)
    requires Stuck(x, w) && Alone(more)
    ensures Stuck(x, Exec(x, w, more))
    decreases |more|
  {
    hide Stuck, Next;
    if more != [] {
      StaysStuck(x, w, more[..|more| - 1]);
      NextStuck(x, Exec(x, w, more[..|more| - 1]), more[|more| - 1]);
    }
  }

  // ---------------------------------------------------------------- timing out

  /** Deadlines alone lead from the first action to its compensation. */
  lemma {:induction false} TimesOut(x: Setup, w: World) returns (ticks: seq<Action>)
    requires Inv(x, w) && SendsOk(x, w) && w.saga.Some? && w.saga.value.status.RESERVING_INVENTORY?
    ensures (forall a <- ticks :: a.Tick?)
    ensures var after := Exec(x, w, ticks);
            && Inv(x, after) && after.saga.Some? && after.saga.value.status.RELEASING_INVENTORY?
            && after.inventory == w.inventory
    decreases TimeLeft(x, w.saga.value)
  {
    var s := w.saga.value;
    var due := if s.deadlineAt.Some? then s.deadlineAt.value else s.nextRetryAt.value;
    var tick := Tick(Above(w.sent), due);
    TwoActions(x, w, tick, tick);
    NextKeepsInv(x, w, tick);
    NextKeepsSends(x, w, tick);
    TickHelps(x, s, Above(w.sent), due);
    FirstTick(s, Above(w.sent), due, x.settings);
    hide Inv, SendsOk, OnTick, Exec;
    var after := Next(x, w, tick);
    assert after.saga.value == OnTick(s, Above(w.sent), due, x.settings).saga && after.inventory == w.inventory;
    if after.saga.value.status.RELEASING_INVENTORY? {
      ticks := [tick];
    } else {
      var rest := TimesOut(x, after);
      ticks := [tick] + rest;
      ExecSplits(x, w, [tick], rest);
    }
  }

  lemma FirstTick(s: Instance, id: Uuid, now: int, settings: Settings)
    requires s.status.RESERVING_INVENTORY?
    ensures var after := OnTick(s, id, now, settings).saga.status;
            after.RESERVING_INVENTORY? || after.RELEASING_INVENTORY?
  {
    hide Backoff, BuildCommand;
  }

  // ---------------------------------------------------------------- the checkout that gets stuck

  /** The order's reserve as the saga sends it, under its first id. */
  function OwnReserve(x: Setup): I.Command {
    I.Reserve(0, x.orderId, x.order.lines, x.order.simulateInventory)
  }

  /** Another order holds what the command takes back. */
  function Before(x: Setup): World
    requires I.Debits(OwnReserve(x))
  {
    var c := OwnReserve(x);
    World(None, {}, [], I.Step(C.Stocked(c), C.FirstOrder(c)), None, None, PENDING, {})
  }

  /** The saga reserves, and a third order takes what that has put on offer. */
  function Starting(x: Setup): seq<Action>
    requires I.Debits(OwnReserve(x))
  {
    [Begin(0, 0, 0)] + [Deliver(Reserving(x), 0, map[], "")] + [Elsewhere(C.ThirdOrder(OwnReserve(x)))]
  }

  function Reserving(x: Setup): Command {
    Command(0, 0, Body.Reserve(x.order.lines, x.order.simulateInventory))
  }

  lemma BeforeIsInitial(x: Setup, items: seq<A.Item>)
    requires C.TakesBack(OwnReserve(x), items) && !I.Conserves(OwnReserve(x))
    ensures Initial(x, Before(x)) && C.Balanced(Before(x).inventory, C.Stocked(OwnReserve(x)).stock)
    ensures C.Prepared(Before(x).inventory.stock, items)
    ensures forall o :: o in Before(x).inventory.reservations ==> o == x.orderId + 1
  {
    hide C.TakesBack, I.Step, C.Stocked, C.FirstOrder, C.Balanced, C.Prepared, H.History, I.Conserves, I.Initial;
    var c := OwnReserve(x);
    assert I.Debits(c) && (c.lines.Some? ==> A.IntLines(c.lines.value)) by { Takes(c, items); }
    C.StockedIsInitial(c, items);
    C.FirstConserves(c);
    C.FirstStep(c, items);
    C.InitiallyBalanced(C.Stocked(c));
    C.StepKeepsBalance(C.Stocked(c), C.Stocked(c).stock, C.FirstOrder(c));
    H.RunHistory(C.Stocked(c), []);
    assert I.Run(C.Stocked(c), []) == C.Stocked(c);
    H.StepMovesForward(C.Stocked(c), C.FirstOrder(c));
  }

  lemma Takes(c: I.Command, items: seq<A.Item>)
    requires C.TakesBack(c, items)
    ensures I.Debits(c) && (c.lines.Some? ==> A.IntLines(c.lines.value))
    ensures A.Distinct(items) && items != []
  {
    hide A.Normalized;
    C.TakenBack(c, items);
  }

  lemma Started(x: Setup, items: seq<A.Item>)
    requires C.TakesBack(OwnReserve(x), items) && !I.Conserves(OwnReserve(x))
    ensures var after := Exec(x, Before(x), Starting(x));
            && after.saga.Some? && after.saga.value.status.RESERVING_INVENTORY?
            && Holds(x, after) && after.inventory.reservations[x.orderId].items == items
            && C.Exhausted(after.inventory.stock, items)
    ensures OthersConserve(Starting(x))
  {
    hide C.TakesBack, I.Step, C.Stocked, C.FirstOrder, C.ThirdOrder, C.Balanced, C.Prepared, H.History, I.Conserves;
    hide I.Debits, C.Exhausted, A.SkusOf;
    var c, cmd := OwnReserve(x), Reserving(x);
    assert I.Debits(c) by { Takes(c, items); }
    BeforeIsInitial(x, items);
    var w := Before(x);
    var w1 := Next(x, w, Begin(0, 0, 0));
    assert w1.sent == [cmd] && w1.inventory == w.inventory;
    C.TakeBackStep(c, items, w.inventory);
    var w2 := Next(x, w1, Deliver(cmd, 0, map[], ""));
    assert w2.inventory == I.Step(w.inventory, I.Event(c, 0, map[]));
    assert w2.inventory.stock.Keys == A.SkusOf(items) by { SameKeys(w.inventory.stock, items); }
    C.ThirdStep(c, items, w2.inventory);
    ThirdIsOther(c);
    var third := Elsewhere(C.ThirdOrder(c));
    var w3 := Next(x, w2, third);
    assert w3.inventory == I.Step(w2.inventory, C.ThirdOrder(c));
    ThreeActions(x, w, Begin(0, 0, 0), Deliver(cmd, 0, map[], ""), third);
  }

  lemma SameKeys(stock: I.Stock, items: seq<A.Item>)
    requires C.Prepared(stock, items)
    ensures stock.Keys == A.SkusOf(items)
  {
  }

  lemma ThirdIsOther(c: I.Command)
    requires I.Debits(c)
    ensures C.ThirdOrder(c).command.orderId == c.orderId + 2
  {
  }

  lemma ThreeActions(x: Setup, w: World, a: Action, b: Action, c: Action)
    ensures Exec(x, w, [a] + [b] + [c]) == Next(x, Next(x, Next(x, w, a), b), c)
  {
    hide Next;
    assert ([a] + [b] + [c])[..2] == [a, b];
    TwoActions(x, w, a, b);
  }

  /** The checkout of an order that does not conserve stock, up to where only other orders can help it. */
  lemma GetsStuck(x: Setup) returns (actions: seq<Action>)
    requires !OrderConserves(x) && (x.order.lines.Some? ==> A.IntLines(x.order.lines.value))
    ensures I.Debits(OwnReserve(x))
    ensures Initial(x, Before(x)) && C.Balanced(Before(x).inventory, C.Stocked(OwnReserve(x)).stock)
    ensures OthersConserve(actions) && Stuck(x, Exec(x, Before(x), actions))
  {
    hide C.Stocked, C.FirstOrder, C.ThirdOrder, C.Balanced, C.Prepared, H.History, A.Normalized, I.NonNegative, I.Step;
    hide I.Overflows, A.IntLines, Inv, SendsOk, C.Exhausted;
    var c := OwnReserve(x);
    var items := A.Normalized(c.lines).value;
    assert C.TakesBack(c, items);
    BeforeIsInitial(x, items);
    Started(x, items);
    var w, first := Before(x), Starting(x);
    ExecKeepsInv(x, w, first);
    ExecKeepsSends(x, w, first);
    var ticks := TimesOut(x, Exec(x, w, first));
    actions := first + ticks;
    ExecSplits(x, w, first, ticks);
    Takes(c, items);
    hide Exec, Initial, OrderConserves, C.TakesBack, Starting, Before;
    var end := Exec(x, w, actions);
    Exhausts(end.inventory.stock, items);
  }

  lemma Exhausts(stock: I.Stock, items: seq<A.Item>)
    requires A.Distinct(items) && C.Exhausted(stock, items)
    ensures I.CreditAll(stock, items).Err?
  {
    hide I.CreditAll, A.Distinct;
    var i :| 0 <= i < |items| && items[i].quantity < 0 && items[i].sku in stock && stock[items[i].sku].available == 0;
    C.RefusedCredit(stock, items, i);
  }

  /** Some further steps of its own end the checkout. */
  ghost predicate CanEndAlone(x: Setup, w: World, actions: seq<Action>) {
    exists more :: Alone(more) && Ended(Exec(x, w, actions + more))
  }

  /**
   * Exactly which orders never depend on others to end: those that debit no negative quantity, or the least integer.
   * For any other one there is a checkout whose release is refused at every delivery, until another order gives way.
   */
  lemma EndsAloneIff(x: Setup)
    requires x.order.lines.Some? ==> A.IntLines(x.order.lines.value)
    ensures OrderConserves(x) <==>
            forall w: World, seed: I.Stock, actions: seq<Action> ::
              Initial(x, w) && C.Balanced(w.inventory, seed) && OthersConserve(actions) ==> CanEndAlone(x, w, actions)
  {
    hide Initial, C.Balanced, OrderConserves, OthersConserve, Exec, Alone, Ended, A.IntLines;
    if OrderConserves(x) {
      forall w: World, seed: I.Stock, actions: seq<Action> |
        Initial(x, w) && C.Balanced(w.inventory, seed) && OthersConserve(actions)
        ensures CanEndAlone(x, w, actions)
      {
        var more := NeverStuck(x, w, seed, actions);
      }
    } else {
      var actions := GetsStuck(x);
      var w := Before(x);
      hide Before, Stuck;
      if CanEndAlone(x, w, actions) {
        var more :| Alone(more) && Ended(Exec(x, w, actions + more));
        ExecSplits(x, w, actions, more);
        StaysStuck(x, Exec(x, w, actions), more);
        StuckIsNoEnd(x, Exec(x, w, actions + more));
      }
    }
  }

  lemma StuckIsNoEnd(x: Setup, w: World)
    requires Stuck(x, w)
    ensures !Ended(w)
  {
  }
}
