/** Where a checkout goes when every command is delivered once and answered: completion, and each way to be canceled. */
module SagaRoutes {
  import opened Prelude
  import opened SagaModel
  import opened P = SagaParticipants
  import opened SagaRuns
  import opened SagaSends
  import opened SagaProgress
  import A = StockAllocator
  import I = InventoryModel
  import C = InventoryConservation
  import H = InventoryHistory
  import R = InventoryReplies

  // ---------------------------------------------------------------- one round

  function Bodies(sent: seq<Command>): seq<Body> {
    seq(|sent|, i requires 0 <= i < |sent| => sent[i].body)
  }

  /** A saga in a state, with what it has sent, the last of it still to be answered. */
  predicate Stage(x: Setup, w: World, status: Status, bodies: seq<Body>) {
    && w.saga.Some? && w.saga.value.status == status && w.saga.value.order == x.order && Bodies(w.sent) == bodies
    && (!KindOf(status).TERMINAL? ==> w.sent != [] && w.sent[|w.sent| - 1] == BuildCommand(w.saga.value))
  }

  /** No shipment is recorded. */
  predicate Unrecorded(w: World) {
    w.saga.Some? && w.saga.value.shipmentId == None && w.saga.value.tracking == None
  }

  /** Why the saga goes back. */
  predicate Why(w: World, reason: string, step: Step) {
    w.saga.Some? && w.saga.value.failureReason == Some(reason) && w.saga.value.failedStep == Some(step)
  }

  /** The saga, its sends and the messages it has read: the rest is as it was, apart from what is named. */
  predicate OnlySaga(w: World, after: World) {
    after == w.(saga := after.saga, sent := after.sent, handled := after.handled)
  }

  /** The command in hand is delivered. */
  function Served(x: Setup, w: World, id: Uuid, tracking: string): World
    requires w.sent != []
  {
    Delivered(x, w, w.sent[|w.sent| - 1], id, map[], tracking)
  }

  /** One delivery and the answer to it. */
  lemma Round(x: Setup, w: World, status: Status, bodies: seq<Body>, id: Uuid, tracking: string, r: Reply)
    returns (actions: seq<Action>, e: Envelope, next: Uuid)
    requires Stage(x, w, status, bodies) && !KindOf(status).TERMINAL? && Expects(status, r)
    requires IsPublished(x, Served(x, w, id, tracking), w.sent[|w.sent| - 1].messageId, r)
    ensures Alone(actions) && e.reply == r && Accepts(w.saga.value, e)
    ensures var t, after := Replied(w.saga.value, e, next, 0, x.settings), Exec(x, w, actions);
            && after == Applied(Served(x, w, id, tracking), t).(handled := after.handled)
            && Bodies(after.sent) == bodies + Bodies(t.commands)
  {
    var c := w.sent[|w.sent| - 1];
    var deliver := Deliver(c, id, map[], tracking);
    var w1 := Next(x, w, deliver);
    assert w1 == Served(x, w, id, tracking);
    DeliveriesKeepSaga(x, w, c, id, map[], tracking);
    hide Delivered, IsPublished, Replied;
    var n := Unused(w1.handled);
    e := Envelope(n, c.messageId, r);
    next := Above(w1.sent);
    var hear := Hear(e, next, 0);
    actions := [deliver, hear];
    TwoActions(x, w, deliver, hear);
    var t := Replied(w.saga.value, e, next, 0, x.settings);
    assert Bodies(w1.sent + t.commands) == Bodies(w1.sent) + Bodies(t.commands);
  }

  lemma OneBody(c: Command)
    ensures Bodies([c]) == [c.body] && Bodies([]) == []
  {
  }

  /** The saga begins. */
  lemma Begins(x: Setup, w: World) returns (actions: seq<Action>)
    requires Initial(x, w)
    ensures Alone(actions)
    ensures var after := Exec(x, w, actions);
            && Stage(x, after, RESERVING_INVENTORY, [Body.Reserve(x.order.lines, x.order.simulateInventory)])
            && Unrecorded(after) && OnlySaga(w, after)
  {
    hide H.History;
    var begin := Begin(0, 0, 0);
    TwoActions(x, w, begin, begin);
    actions := [begin];
    var t := Start(x.order, 0, 0, 0, x.settings);
    assert w.sent + t.commands == t.commands;
  }

  // ---------------------------------------------------------------- inventory

  /** What the inventory makes of the order, simulations aside. */
  predicate Suffices(stock: I.Stock, items: seq<A.Item>) {
    forall i :: 0 <= i < |items| ==> items[i].sku in stock && items[i].quantity <= stock[items[i].sku].available
  }

  /** The order can be grouped without overflow. */
  predicate IsPlain(x: Setup, items: seq<A.Item>) {
    A.Normalized(x.order.lines) == Some(items) && I.NonNegative(items)
  }

  /** The order's stock is taken. */
  predicate Reserved(x: Setup, before: I.Db, after: I.Db, items: seq<A.Item>, rid: Uuid) {
    && R.Took(before.stock, after.stock, items)
    && x.orderId in after.reservations && after.reservations[x.orderId].status == I.RESERVED
    && after.reservations[x.orderId].reservationId == Some(rid) && after.reservations[x.orderId].items == items
  }

  /** The first delivery of the reserve. */
  lemma ReserveServed(x: Setup, w: World, seed: I.Stock, items: seq<A.Item>, rid: Uuid, bodies: seq<Body>)
    requires Stage(x, w, RESERVING_INVENTORY, bodies)
    requires H.History(w.inventory) && C.Balanced(w.inventory, seed) && x.orderId !in w.inventory.reservations
    requires IsPlain(x, items) && x.order.simulateInventory != Some("TIMEOUT")
    ensures var after := Served(x, w, rid, "");
            && after == w.(inventory := after.inventory)
            && H.History(after.inventory) && C.Balanced(after.inventory, seed)
            && x.orderId in after.inventory.reservations
            && R.Outcome(w.inventory.stock, after.inventory.stock, after.inventory.reservations[x.orderId], items,
                         x.order.simulateInventory, rid, map[])
            && |after.inventory.outbox| > 0
            && var m := after.inventory.outbox[|after.inventory.outbox| - 1];
               && m.orderId == x.orderId && m.causationId == w.sent[|w.sent| - 1].messageId
               && R.AnswersReserve(m.reply, after.inventory.reservations[x.orderId])
  {
    hide A.Normalized, C.Balanced, H.History, R.Outcome;
    var c := w.sent[|w.sent| - 1];
    var e := I.Event(ForInventory(x, c), rid, map[]);
    NotOverflowing(items);
    C.StepKeepsBalance(w.inventory, seed, e);
    H.StepMovesForward(w.inventory, e);
    R.FirstReserve(w.inventory, e.command, rid, map[], items);
    R.ReserveReplies(w.inventory, e.command, rid, map[]);
    hide I.Handle;
  }

  lemma NotOverflowing(items: seq<A.Item>)
    requires I.NonNegative(items)
    ensures !I.Overflows(items)
  {
  }

  lemma AllTaken(before: I.Stock, after: I.Stock, r: I.Reservation, items: seq<A.Item>, simulate: Option<string>,
                 rid: Uuid)
    requires Suffices(before, items) && simulate != Some("OUT_OF_STOCK")
    requires R.Outcome(before, after, r, items, simulate, rid, map[])
    ensures R.Took(before, after, items) && r.reservationId == Some(rid) && r.status == I.RESERVED && r.items == items
  {
    forall i | 0 <= i < |items| ensures items[i].sku in before && !R.IsShort(items[i], R.Balances(before)) {
    }
    hide R.Took, R.IsShort;
  }

  /** Everything is reserved, and the payment is asked for. */
  lemma InventoryReserves(x: Setup, w: World, seed: I.Stock, items: seq<A.Item>, rid: Uuid, bodies: seq<Body>)
    returns (actions: seq<Action>)
    requires Stage(x, w, RESERVING_INVENTORY, bodies)
    requires H.History(w.inventory) && C.Balanced(w.inventory, seed) && x.orderId !in w.inventory.reservations
    requires IsPlain(x, items) && Suffices(w.inventory.stock, items)
    requires x.order.simulateInventory != Some("TIMEOUT") && x.order.simulateInventory != Some("OUT_OF_STOCK")
    requires Unrecorded(w)
    ensures Alone(actions)
    ensures var after := Exec(x, w, actions);
            && Stage(x, after, AUTHORIZING_PAYMENT, bodies + [Authorize(x.order.simulatePayment)])
            && Unrecorded(after) && OnlySaga(w.(inventory := after.inventory), after)
            && Reserved(x, w.inventory, after.inventory, items, rid)
            && H.History(after.inventory) && C.Balanced(after.inventory, seed)
  {
    hide A.Normalized, C.Balanced, H.History, R.Took, R.ListsShort, R.ListsUnknown, R.QuotesSeen, IsPlain;
    ReserveServed(x, w, seed, items, rid, bodies);
    var after := Served(x, w, rid, "");
    hide Served;
    AllTaken(w.inventory.stock, after.inventory.stock, after.inventory.reservations[x.orderId], items,
             x.order.simulateInventory, rid);
    var m := after.inventory.outbox[|after.inventory.outbox| - 1];
    assert IsAnswer(x, m, w.sent[|w.sent| - 1].messageId, InventoryReserved);
    var e, next;
    actions, e, next := Round(x, w, RESERVING_INVENTORY, bodies, rid, "", InventoryReserved);
    OneBody(BuildCommand(Replied(w.saga.value, e, next, 0, x.settings).saga));
    hide Exec, Suffices, R.Outcome;
  }

  /** Why the inventory rejects an order. */
  function RejectionText(stock: I.Stock, items: seq<A.Item>, simulate: Option<string>): string {
    if simulate != Some("OUT_OF_STOCK") && exists i :: 0 <= i < |items| && items[i].sku !in stock then "UNKNOWN_SKU"
    else "OUT_OF_STOCK"
  }

  lemma NothingTaken(before: I.Stock, after: I.Stock, r: I.Reservation, items: seq<A.Item>, simulate: Option<string>,
                     rid: Uuid)
    requires simulate == Some("OUT_OF_STOCK") || !Suffices(before, items)
    requires R.Outcome(before, after, r, items, simulate, rid, map[])
    ensures after == before && r.status == I.REJECTED
    ensures ReasonText(r.rejection) == RejectionText(before, items, simulate)
  {
    if simulate != Some("OUT_OF_STOCK") {
      var i :| 0 <= i < |items| && !(items[i].sku in before && items[i].quantity <= before[items[i].sku].available);
      assert items[i].sku in before ==> R.IsShort(items[i], R.Balances(before));
    }
    hide R.ListsShort, R.ListsUnknown, R.QuotesSeen, R.IsShort;
  }

  /** Nothing is reserved, and the order is to be canceled. */
  lemma InventoryRejects(x: Setup, w: World, seed: I.Stock, items: seq<A.Item>, rid: Uuid, bodies: seq<Body>)
    returns (actions: seq<Action>)
    requires Stage(x, w, RESERVING_INVENTORY, bodies)
    requires H.History(w.inventory) && C.Balanced(w.inventory, seed) && x.orderId !in w.inventory.reservations
    requires IsPlain(x, items) && x.order.simulateInventory != Some("TIMEOUT")
    requires x.order.simulateInventory == Some("OUT_OF_STOCK") || !Suffices(w.inventory.stock, items)
    ensures Alone(actions)
    ensures var after := Exec(x, w, actions);
            var reason := RejectionText(w.inventory.stock, items, x.order.simulateInventory);
            && Stage(x, after, CANCELING_ORDER, bodies + [CancelOrder(Some(reason), Some(INVENTORY))])
            && Why(after, reason, INVENTORY) && OnlySaga(w.(inventory := after.inventory), after)
            && after.inventory.stock == w.inventory.stock
  {
    hide A.Normalized, C.Balanced, H.History, R.Outcome, IsPlain, Suffices, RejectionText, ReasonText;
    ReserveServed(x, w, seed, items, rid, bodies);
    var after := Served(x, w, rid, "");
    hide Served;
    var row := after.inventory.reservations[x.orderId];
    NothingTaken(w.inventory.stock, after.inventory.stock, row, items, x.order.simulateInventory, rid);
    var m := after.inventory.outbox[|after.inventory.outbox| - 1];
    var r := InventoryRejected(ReasonText(row.rejection));
    assert IsAnswer(x, m, w.sent[|w.sent| - 1].messageId, r);
    var e, next;
    actions, e, next := Round(x, w, RESERVING_INVENTORY, bodies, rid, "", r);
    OneBody(BuildCommand(Replied(w.saga.value, e, next, 0, x.settings).saga));
    hide Exec;
  }

  // ---------------------------------------------------------------- payment and shipping

  predicate AnswersAtOnce(simulate: Option<string>) {
    simulate != Some("TIMEOUT") && simulate != Some("TIMEOUT_ONCE")
  }

  /** The payment is taken; a physical order is to be shipped, a digital one to be confirmed. */
  lemma PaymentTaken(x: Setup, w: World, payment: Uuid, bodies: seq<Body>) returns (actions: seq<Action>)
    requires Stage(x, w, AUTHORIZING_PAYMENT, bodies) && Unrecorded(w) && w.payment.None?
    requires bodies != [] && bodies[|bodies| - 1] == Authorize(x.order.simulatePayment)
    requires AnswersAtOnce(x.order.simulatePayment) && x.order.simulatePayment != Some("DECLINE")
    ensures Alone(actions)
    ensures var after := Exec(x, w, actions);
            && (if x.order.physical
                then Stage(x, after, CREATING_SHIPMENT,
                           bodies + [Create(x.order.addressValid, x.order.simulateShipping)])
                else Stage(x, after, CONFIRMING_ORDER, bodies + [Confirm(Some(payment), None, None)]))
            && Unrecorded(after) && after.saga.value.paymentId == Some(payment)
            && OnlySaga(w.(payment := after.payment, answers := after.answers), after)
            && after.payment.Some? && after.payment.value.status == AUTHORIZED
            && after.payment.value.paymentId == Some(payment)
  {
    var after := Served(x, w, payment, "");
    var r := PaymentAuthorized(Some(payment));
    assert Answer(w.sent[|w.sent| - 1].messageId, r) in after.answers;
    var e, next;
    actions, e, next := Round(x, w, AUTHORIZING_PAYMENT, bodies, payment, "", r);
    OneBody(BuildCommand(Replied(w.saga.value, e, next, 0, x.settings).saga));
    hide Exec;
  }

  /** The payment is declined, and the stock is to be released. */
  lemma PaymentDeclined(x: Setup, w: World, payment: Uuid, bodies: seq<Body>) returns (actions: seq<Action>)
    requires Stage(x, w, AUTHORIZING_PAYMENT, bodies) && w.payment.None?
    requires x.order.simulatePayment == Some("DECLINE")
    requires bodies != [] && bodies[|bodies| - 1] == Authorize(x.order.simulatePayment)
    ensures Alone(actions)
    ensures var after := Exec(x, w, actions);
            && Stage(x, after, RELEASING_INVENTORY, bodies + [Release(Some("PAYMENT_DECLINED"))])
            && Why(after, "PAYMENT_DECLINED", PAYMENT)
            && OnlySaga(w.(payment := after.payment, answers := after.answers), after)
            && after.payment.Some? && after.payment.value.status == DECLINED
  {
    var after := Served(x, w, payment, "");
    var r := PaymentFailed("DECLINED");
    assert Answer(w.sent[|w.sent| - 1].messageId, r) in after.answers;
    var e, next;
    actions, e, next := Round(x, w, AUTHORIZING_PAYMENT, bodies, payment, "", r);
    OneBody(BuildCommand(Replied(w.saga.value, e, next, 0, x.settings).saga));
    hide Exec;
  }

  /** The carrier takes the order. */
  predicate CanShip(x: Setup) {
    x.order.addressValid && x.order.simulateShipping != Some("FAIL")
  }

  lemma ShipmentMade(x: Setup, w: World, shipment: Uuid, tracking: string, bodies: seq<Body>)
    returns (actions: seq<Action>)
    requires Stage(x, w, CREATING_SHIPMENT, bodies) && w.shipment.None? && CanShip(x)
    requires AnswersAtOnce(x.order.simulateShipping)
    requires bodies != [] && bodies[|bodies| - 1] == Create(x.order.addressValid, x.order.simulateShipping)
    ensures Alone(actions)
    ensures var after := Exec(x, w, actions);
            && Stage(x, after, CONFIRMING_ORDER,
                     bodies + [Confirm(w.saga.value.paymentId, Some(shipment), Some(tracking))])
            && OnlySaga(w.(shipment := after.shipment, answers := after.answers), after)
            && after.shipment.Some? && after.shipment.value.status == CREATED
            && after.shipment.value.shipmentId == Some(shipment) && after.shipment.value.tracking == Some(tracking)
  {
    var after := Served(x, w, shipment, tracking);
    var r := ShipmentCreated(Some(shipment), Some(tracking));
    assert Answer(w.sent[|w.sent| - 1].messageId, r) in after.answers;
    var e, next;
    actions, e, next := Round(x, w, CREATING_SHIPMENT, bodies, shipment, tracking, r);
    OneBody(BuildCommand(Replied(w.saga.value, e, next, 0, x.settings).saga));
    hide Exec;
  }

  /** The carrier refuses, and the payment is to be refunded. */
  lemma ShipmentRefused(x: Setup, w: World, shipment: Uuid, tracking: string, bodies: seq<Body>)
    returns (actions: seq<Action>)
    requires Stage(x, w, CREATING_SHIPMENT, bodies) && w.shipment.None? && !CanShip(x)
    requires AnswersAtOnce(x.order.simulateShipping)
    requires bodies != [] && bodies[|bodies| - 1] == Create(x.order.addressValid, x.order.simulateShipping)
    ensures Alone(actions)
    ensures var after := Exec(x, w, actions);
            && Stage(x, after, REFUNDING_PAYMENT, bodies + [Refund(Some("SHIPMENT_FAILED"))])
            && Why(after, "SHIPMENT_FAILED", SHIPPING)
            && OnlySaga(w.(shipment := after.shipment, answers := after.answers), after)
            && after.shipment.Some? && after.shipment.value.status == FAILED
  {
    var after := Served(x, w, shipment, tracking);
    var r := ShipmentFailed(if x.order.simulateShipping == Some("FAIL") then "CARRIER_REJECTED" else "INVALID_ADDRESS");
    assert Answer(w.sent[|w.sent| - 1].messageId, r) in after.answers;
    var e, next;
    actions, e, next := Round(x, w, CREATING_SHIPMENT, bodies, shipment, tracking, r);
    OneBody(BuildCommand(Replied(w.saga.value, e, next, 0, x.settings).saga));
    hide Exec;
  }

  // ---------------------------------------------------------------- the way back, and the end

  lemma PaymentReturned(x: Setup, w: World, reason: string, step: Step, bodies: seq<Body>)
    returns (actions: seq<Action>)
    requires Stage(x, w, REFUNDING_PAYMENT, bodies) && Why(w, reason, step) && Charged(w)
    requires bodies != [] && bodies[|bodies| - 1].Refund?
    ensures Alone(actions)
    ensures var after := Exec(x, w, actions);
            && Stage(x, after, RELEASING_INVENTORY, bodies + [Release(Some(reason))]) && Why(after, reason, step)
            && OnlySaga(w.(payment := after.payment, answers := after.answers), after)
            && after.payment == Some(w.payment.value.(status := REFUNDED, noop := false))
  {
    var after := Served(x, w, 0, "");
    assert Answer(w.sent[|w.sent| - 1].messageId, PaymentRefunded) in after.answers;
    var e, next;
    actions, e, next := Round(x, w, REFUNDING_PAYMENT, bodies, 0, "", PaymentRefunded);
    OneBody(BuildCommand(Replied(w.saga.value, e, next, 0, x.settings).saga));
    hide Exec;
  }

  /** Giving back what was taken restores the stock. */
  lemma BackAgain(a: I.Stock, b: I.Stock, c: I.Stock, items: seq<A.Item>)
    requires R.Took(a, b, items) && R.GaveBack(b, c, items)
    ensures c == a
  {
    forall sku | sku in a ensures c[sku] == a[sku] {
    }
  }

  lemma StockReturned(x: Setup, w: World, seed: I.Stock, before: I.Stock, reason: string, step: Step,
                      bodies: seq<Body>)
    returns (actions: seq<Action>)
    requires Stage(x, w, RELEASING_INVENTORY, bodies) && Why(w, reason, step)
    requires bodies != [] && bodies[|bodies| - 1].Release?
    requires H.History(w.inventory) && C.Balanced(w.inventory, seed) && SagaRuns.Holds(x, w)
    requires R.Took(before, w.inventory.stock, w.inventory.reservations[x.orderId].items)
    ensures Alone(actions)
    ensures var after := Exec(x, w, actions);
            && Stage(x, after, CANCELING_ORDER, bodies + [CancelOrder(Some(reason), Some(step))])
            && Why(after, reason, step) && OnlySaga(w.(inventory := after.inventory), after)
            && after.inventory.stock == before && Free(x, after)
  {
    hide C.Balanced, H.History, R.Took, R.GaveBack, I.Handle;
    var c := w.sent[|w.sent| - 1];
    var command := ForInventory(x, c);
    R.ReleaseReplies(w.inventory, seed, command, 0, map[]);
    var after := Served(x, w, 0, "");
    assert after.inventory == I.Handle(w.inventory, command, 0, map[]).value;
    BackAgain(before, w.inventory.stock, after.inventory.stock, w.inventory.reservations[x.orderId].items);
    var m := after.inventory.outbox[|after.inventory.outbox| - 1];
    assert IsAnswer(x, m, c.messageId, InventoryReleased);
    hide Served;
    var e, next;
    actions, e, next := Round(x, w, RELEASING_INVENTORY, bodies, 0, "", InventoryReleased);
    OneBody(BuildCommand(Replied(w.saga.value, e, next, 0, x.settings).saga));
    hide Exec;
  }

  lemma OrderEnds(x: Setup, w: World, status: Status, bodies: seq<Body>) returns (actions: seq<Action>)
    requires Stage(x, w, status, bodies) && KindOf(status).FINALIZATION? && w.order == PENDING && bodies != []
    requires if status.CONFIRMING_ORDER? then bodies[|bodies| - 1].Confirm? else bodies[|bodies| - 1].CancelOrder?
    ensures Alone(actions)
    ensures var after, last := Exec(x, w, actions), bodies[|bodies| - 1];
            && Stage(x, after, if status.CONFIRMING_ORDER? then COMPLETED else Status.CANCELED, bodies)
            && OnlySaga(w.(order := after.order, answers := after.answers), after)
            && after.order == if status.CONFIRMING_ORDER? then CONFIRMED(last.paymentId, last.shipmentId, last.tracking)
                              else OrderStatus.CANCELED(last.reason, last.failedStep)
  {
    var after := Served(x, w, 0, "");
    var r := if status.CONFIRMING_ORDER? then OrderConfirmed else OrderCanceled;
    assert Answer(w.sent[|w.sent| - 1].messageId, r) in after.answers;
    var e, next;
    actions, e, next := Round(x, w, status, bodies, 0, "", r);
    OneBody(w.sent[|w.sent| - 1]);
    assert bodies + [] == bodies;
    hide Exec;
  }

  // ---------------------------------------------------------------- whole checkouts

  /** An order that is not disturbed: it can be grouped, and no silence is simulated. */
  predicate IsUndisturbed(x: Setup, items: seq<A.Item>) {
    && IsPlain(x, items) && x.order.simulateInventory != Some("TIMEOUT") && AnswersAtOnce(x.order.simulatePayment)
    && (x.order.physical ==> AnswersAtOnce(x.order.simulateShipping))
  }

  function Asked(x: Setup): seq<Body> {
    [Body.Reserve(x.order.lines, x.order.simulateInventory)]
  }

  function Paid(x: Setup): seq<Body> {
    Asked(x) + [Authorize(x.order.simulatePayment)]
  }

  function Carried(x: Setup): seq<Body> {
    Paid(x) + [Create(x.order.addressValid, x.order.simulateShipping)]
  }

  /** The checkout ended, having sent exactly these. */
  predicate EndedWith(x: Setup, w: World, status: Status, bodies: seq<Body>) {
    w.saga.Some? && w.saga.value.status == status && Bodies(w.sent) == bodies
  }

  predicate IsRejected(x: Setup, w: World, items: seq<A.Item>) {
    x.order.simulateInventory == Some("OUT_OF_STOCK") || !Suffices(w.inventory.stock, items)
  }

  lemma RejectedCheckout(x: Setup, w: World, seed: I.Stock, items: seq<A.Item>, rid: Uuid)
    returns (actions: seq<Action>)
    requires Initial(x, w) && C.Balanced(w.inventory, seed) && IsUndisturbed(x, items) && IsRejected(x, w, items)
    ensures Alone(actions)
    ensures var after := Exec(x, w, actions);
            var reason := RejectionText(w.inventory.stock, items, x.order.simulateInventory);
            && EndedWith(x, after, Status.CANCELED, Asked(x) + [CancelOrder(Some(reason), Some(INVENTORY))])
            && after.order == OrderStatus.CANCELED(Some(reason), Some(INVENTORY))
            && after.inventory.stock == w.inventory.stock && after.payment == None && after.shipment == None
  {
    var a := Begins(x, w);
    var w1 := Exec(x, w, a);
    hide Initial, Exec, C.Balanced, IsPlain, Suffices, H.History, RejectionText;
    var b := InventoryRejects(x, w1, seed, items, rid, Asked(x));
    var w2 := Exec(x, w1, b);
    ExecSplits(x, w, a, b);
    var reason := RejectionText(w.inventory.stock, items, x.order.simulateInventory);
    var c := OrderEnds(x, w2, CANCELING_ORDER, Asked(x) + [CancelOrder(Some(reason), Some(INVENTORY))]);
    ExecSplits(x, w, a + b, c);
    actions := a + b + c;
  }

  /** The stock is taken and the payment asked for. */
  lemma ReachesPayment(x: Setup, w: World, seed: I.Stock, items: seq<A.Item>, rid: Uuid) returns (actions: seq<Action>)
    requires Initial(x, w) && C.Balanced(w.inventory, seed) && IsUndisturbed(x, items) && !IsRejected(x, w, items)
    ensures Alone(actions)
    ensures var after := Exec(x, w, actions);
            && Stage(x, after, AUTHORIZING_PAYMENT, Paid(x)) && Unrecorded(after)
            && OnlySaga(w.(inventory := after.inventory), after)
            && Reserved(x, w.inventory, after.inventory, items, rid)
            && H.History(after.inventory) && C.Balanced(after.inventory, seed)
  {
    var a := Begins(x, w);
    hide Exec, C.Balanced, IsPlain, Suffices, H.History, Reserved;
    var b := InventoryReserves(x, Exec(x, w, a), seed, items, rid, Asked(x));
    ExecSplits(x, w, a, b);
    actions := a + b;
  }

  lemma DeclinedCheckout(x: Setup, w: World, seed: I.Stock, items: seq<A.Item>, rid: Uuid, payment: Uuid)
    returns (actions: seq<Action>)
    requires Initial(x, w) && C.Balanced(w.inventory, seed) && IsUndisturbed(x, items) && !IsRejected(x, w, items)
    requires x.order.simulatePayment == Some("DECLINE")
    ensures Alone(actions)
    ensures var after, reason := Exec(x, w, actions), Some("PAYMENT_DECLINED");
            && EndedWith(x, after, Status.CANCELED, Paid(x) + [Release(reason)] + [CancelOrder(reason, Some(PAYMENT))])
            && after.order == OrderStatus.CANCELED(reason, Some(PAYMENT))
            && after.inventory.stock == w.inventory.stock && Free(x, after) && after.shipment == None
            && after.payment.Some? && after.payment.value.status == DECLINED
  {
    var a := ReachesPayment(x, w, seed, items, rid);
    var w1 := Exec(x, w, a);
    hide Exec, C.Balanced, IsPlain, Suffices, H.History, R.Took;
    var b := PaymentDeclined(x, w1, payment, Paid(x));
    var w2 := Exec(x, w1, b);
    ExecSplits(x, w, a, b);
    var reason := Some("PAYMENT_DECLINED");
    var c := StockReturned(x, w2, seed, w.inventory.stock, reason.value, PAYMENT, Paid(x) + [Release(reason)]);
    var w3 := Exec(x, w2, c);
    ExecSplits(x, w, a + b, c);
    var d := OrderEnds(x, w3, CANCELING_ORDER, Paid(x) + [Release(reason)] + [CancelOrder(reason, Some(PAYMENT))]);
    ExecSplits(x, w, a + b + c, d);
    actions := a + b + c + d;
    assert Free(x, Exec(x, w3, d));
  }

  lemma ReachesShipping(x: Setup, w: World, seed: I.Stock, items: seq<A.Item>, rid: Uuid, payment: Uuid)
    returns (actions: seq<Action>)
    requires Initial(x, w) && C.Balanced(w.inventory, seed) && IsUndisturbed(x, items) && !IsRejected(x, w, items)
    requires x.order.simulatePayment != Some("DECLINE") && x.order.physical
    ensures Alone(actions)
    ensures var after := Exec(x, w, actions);
            && Stage(x, after, CREATING_SHIPMENT, Carried(x)) && after.saga.value.paymentId == Some(payment)
            && Charged(after) && after.payment.value.paymentId == Some(payment)
            && after.shipment == None && after.order == PENDING
            && Reserved(x, w.inventory, after.inventory, items, rid)
            && H.History(after.inventory) && C.Balanced(after.inventory, seed)
  {
    var a := ReachesPayment(x, w, seed, items, rid);
    hide Exec, C.Balanced, IsPlain, Suffices, H.History, Reserved;
    var b := PaymentTaken(x, Exec(x, w, a), payment, Paid(x));
    ExecSplits(x, w, a, b);
    actions := a + b;
  }

  lemma UnshippedCheckout(x: Setup, w: World, seed: I.Stock, items: seq<A.Item>, rid: Uuid, payment: Uuid)
    returns (actions: seq<Action>)
    requires Initial(x, w) && C.Balanced(w.inventory, seed) && IsUndisturbed(x, items) && !IsRejected(x, w, items)
    requires x.order.simulatePayment != Some("DECLINE") && x.order.physical && !CanShip(x)
    ensures Alone(actions)
    ensures var after, reason := Exec(x, w, actions), Some("SHIPMENT_FAILED");
            && EndedWith(x, after, Status.CANCELED,
                         Carried(x) + [Refund(reason)] + [Release(reason)] + [CancelOrder(reason, Some(SHIPPING))])
            && after.order == OrderStatus.CANCELED(reason, Some(SHIPPING))
            && after.inventory.stock == w.inventory.stock && Free(x, after)
            && after.payment.Some? && after.payment.value.status == REFUNDED
            && after.shipment.Some? && after.shipment.value.status == FAILED
  {
    var a := ReachesShipping(x, w, seed, items, rid, payment);
    var w1 := Exec(x, w, a);
    hide Exec, C.Balanced, IsPlain, Suffices, H.History, R.Took, CanShip, IsRejected, IsUndisturbed, Initial;
    var reason := Some("SHIPMENT_FAILED");
    var b := ShipmentRefused(x, w1, 0, "", Carried(x));
    var w2 := Exec(x, w1, b);
    ExecSplits(x, w, a, b);
    var c := PaymentReturned(x, w2, reason.value, SHIPPING, Carried(x) + [Refund(reason)]);
    var w3 := Exec(x, w2, c);
    ExecSplits(x, w, a + b, c);
    var d := StockReturned(x, w3, seed, w.inventory.stock, reason.value, SHIPPING,
                           Carried(x) + [Refund(reason)] + [Release(reason)]);
    var w4 := Exec(x, w3, d);
    ExecSplits(x, w, a + b + c, d);
    var e := OrderEnds(x, w4, CANCELING_ORDER,
                       Carried(x) + [Refund(reason)] + [Release(reason)] + [CancelOrder(reason, Some(SHIPPING))]);
    ExecSplits(x, w, a + b + c + d, e);
    actions := a + b + c + d + e;
    assert Free(x, Exec(x, w4, e));
  }

  /** What a completed checkout has sent: the carrier is asked for physical orders only. */
  function CompletedBodies(x: Setup, payment: Uuid, shipment: Uuid, tracking: string): seq<Body> {
    if x.order.physical then Carried(x) + [Confirm(Some(payment), Some(shipment), Some(tracking))]
    else Paid(x) + [Confirm(Some(payment), None, None)]
  }

  lemma CompletedCheckout(x: Setup, w: World, seed: I.Stock, items: seq<A.Item>, rid: Uuid, payment: Uuid,
                          shipment: Uuid, tracking: string)
    returns (actions: seq<Action>)
    requires Initial(x, w) && C.Balanced(w.inventory, seed) && IsUndisturbed(x, items) && !IsRejected(x, w, items)
    requires x.order.simulatePayment != Some("DECLINE") && (x.order.physical ==> CanShip(x))
    ensures Alone(actions)
    ensures var after := Exec(x, w, actions);
            && EndedWith(x, after, COMPLETED, CompletedBodies(x, payment, shipment, tracking))
            && after.order == (if x.order.physical then CONFIRMED(Some(payment), Some(shipment), Some(tracking))
                               else CONFIRMED(Some(payment), None, None))
            && Reserved(x, w.inventory, after.inventory, items, rid)
            && Charged(after) && (if x.order.physical then Shipped(after) else after.shipment == None)
  {
    hide C.Balanced, IsPlain, Suffices, H.History, Reserved, CanShip, IsRejected;
    var a, b, w2;
    if x.order.physical {
      a := ReachesShipping(x, w, seed, items, rid, payment);
      b := ShipmentMade(x, Exec(x, w, a), shipment, tracking, Carried(x));
    } else {
      a := ReachesPayment(x, w, seed, items, rid);
      b := PaymentTaken(x, Exec(x, w, a), payment, Paid(x));
    }
    hide Exec;
    w2 := Exec(x, Exec(x, w, a), b);
    ExecSplits(x, w, a, b);
    var c := OrderEnds(x, w2, CONFIRMING_ORDER, CompletedBodies(x, payment, shipment, tracking));
    ExecSplits(x, w, a + b, c);
    actions := a + b + c;
  }
}
