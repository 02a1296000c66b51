/**
 * One checkout end to end: the saga with its participants, over messages that are delivered any number of times, late
 * and in any order, replies that never come, deadlines at any moment, and other orders at the inventory.
 */
module SagaRuns {
  import opened Prelude
  import opened SagaModel
  import opened P = SagaParticipants
  import A = StockAllocator
  import I = InventoryModel
  import H = InventoryHistory

  /** What stays the same during a checkout. */
  datatype Setup = Setup(orderId: Uuid, order: Snapshot, settings: Settings)

  /** A published reply, by the command it answers. */
  datatype Answer = Answer(causationId: Uuid, reply: Reply)

  /** `sent` is the saga's outbox, `answers` are the replies of payment, shipping and order. */
  datatype World = World(
    saga: Option<Instance>, handled: set<Uuid>, sent: seq<Command>, inventory: I.Db,
    payment: Option<Payment>, shipment: Option<Shipment>, order: OrderStatus, answers: set<Answer>)

  datatype Action =
    | Begin(messageId: Uuid, id: Uuid, now: int)
    | Hear(envelope: Envelope, id: Uuid, now: int)
    | Tick(id: Uuid, now: int)
    | Resume(now: int)
    | Deliver(command: Command, id: Uuid, seen: map<I.Skus.Sku, int>, tracking: string)
    | Elsewhere(event: I.Event)

  /** The id is new to the saga's outbox, as a random one is. */
  predicate IsNew(w: World, id: Uuid) {
    forall c <- w.sent :: c.messageId != id
  }

  predicate IsPublished(x: Setup, w: World, causationId: Uuid, reply: Reply) {
    || Answer(causationId, reply) in w.answers
    || exists i :: 0 <= i < |w.inventory.outbox| && IsAnswer(x, w.inventory.outbox[i], causationId, reply)
  }

  predicate IsAnswer(x: Setup, m: I.Message, causationId: Uuid, reply: Reply) {
    m.orderId == x.orderId && m.causationId == causationId && FromInventory(m.reply) == reply
  }

  predicate Enabled(x: Setup, w: World, a: Action) {
    match a
    case Begin(_, id, _) => w.saga.None? && IsNew(w, id)
    case Hear(e, id, _) =>
      w.saga.Some? && e.messageId !in w.handled && IsPublished(x, w, e.causationId, e.reply) && IsNew(w, id)
    case Tick(id, _) => w.saga.Some? && IsNew(w, id)
    case Resume(_) => w.saga.Some?
    case Deliver(c, _, _, _) => c in w.sent
    case Elsewhere(e) => e.command.orderId != x.orderId
  }

  /** What the service does with a transition: the row and the commands in one transaction. */
  function Applied(w: World, t: Transition): World {
    w.(saga := Some(t.saga), sent := w.sent + t.commands)
  }

  /** The replies with this one, if any. */
  function Answered(w: World, c: Command, reply: Option<Reply>): set<Answer> {
    if reply.None? then w.answers else w.answers + {Answer(c.messageId, reply.value)}
  }

  /** The inventory's command for one of the saga. */
  function ForInventory(x: Setup, c: Command): I.Command
    requires c.body.Reserve? || c.body.Release?
  {
    if c.body.Reserve? then I.Reserve(c.messageId, x.orderId, c.body.lines, c.body.simulate)
    else I.Release(c.messageId, x.orderId)
  }

  function Delivered(x: Setup, w: World, c: Command, id: Uuid, seen: map<I.Skus.Sku, int>, tracking: string): World {
    match c.body
    case Reserve(_, _) => w.(inventory := I.Step(w.inventory, I.Event(ForInventory(x, c), id, seen)))
    case Release(_) => w.(inventory := I.Step(w.inventory, I.Event(ForInventory(x, c), id, seen)))
    case Authorize(simulate) =>
      var e := Authorizing(w.payment, simulate, id);
      w.(payment := Some(e.row), answers := Answered(w, c, e.reply))
    case Refund(_) =>
      var e := Refunding(w.payment);
      w.(payment := Some(e.row), answers := Answered(w, c, e.reply))
    case Create(addressValid, simulate) =>
      var e := Creating(w.shipment, addressValid, simulate, id, tracking);
      w.(shipment := Some(e.row), answers := Answered(w, c, e.reply))
    case CancelShipment(_) =>
      var e := CallingOff(w.shipment);
      w.(shipment := Some(e.row), answers := Answered(w, c, e.reply))
    case Confirm(paymentId, shipmentId, tracking') =>
      var order := Settled(w.order, CONFIRMED(paymentId, shipmentId, tracking'));
      w.(order := order, answers := Answered(w, c, Some(OrderReply(order))))
    case CancelOrder(reason, failedStep) =>
      var order := Settled(w.order, OrderStatus.CANCELED(reason, failedStep));
      w.(order := order, answers := Answered(w, c, Some(OrderReply(order))))
  }

  /** One step; an action that is not enabled does nothing. */
  function Next(x: Setup, w: World, a: Action): World {
    if !Enabled(x, w, a) then w
    else
      match a
      case Begin(messageId, id, now) =>
        Applied(w, Start(x.order, messageId, id, now, x.settings)).(handled := w.handled + {messageId})
      case Hear(e, id, now) =>
        Applied(w, OnReply(w.saga.value, e, id, now, x.settings)).(handled := w.handled + {e.messageId})
      case Tick(id, now) => Applied(w, OnTick(w.saga.value, id, now, x.settings))
      case Resume(now) => Applied(w, Resumed(w.saga.value, now, x.settings))
      case Deliver(c, id, seen, tracking) => Delivered(x, w, c, id, seen, tracking)
      case Elsewhere(e) => w.(inventory := I.Step(w.inventory, e))
  }

  function Exec(x: Setup, w: World, actions: seq<Action>): World {
    if actions == [] then w else Next(x, Exec(x, w, actions[..|actions| - 1]), actions[|actions| - 1])
  }

  /** A pending order whose saga has not begun, at an inventory that other orders may have used. */
  ghost predicate Initial(x: Setup, w: World) {
    && w.saga.None? && w.handled == {} && w.sent == [] && w.answers == {}
    && w.payment.None? && w.shipment.None? && w.order == PENDING
    && H.History(w.inventory) && x.orderId !in w.inventory.reservations
  }

  // ---------------------------------------------------------------- what a checkout has done

  predicate Holds(x: Setup, w: World) {
    x.orderId in w.inventory.reservations && w.inventory.reservations[x.orderId].status == I.RESERVED
  }

  /** The inventory row exists and does not hold stock: then it never will. */
  predicate Free(x: Setup, w: World) {
    x.orderId in w.inventory.reservations && w.inventory.reservations[x.orderId].status != I.RESERVED
  }

  predicate Charged(w: World) {
    w.payment.Some? && w.payment.value.status == AUTHORIZED
  }

  predicate Shipped(w: World) {
    w.shipment.Some? && w.shipment.value.status == CREATED
  }

  /** A command of this rank is out. */
  predicate Sent(w: World, k: int) {
    exists c <- w.sent :: Rank(c.body) == k
  }

  predicate SentBody(w: World, body: Body) {
    exists c <- w.sent :: c.body == body
  }

  /** The place of a command in a checkout: forward actions, then compensations in reverse, then the end. */
  function Rank(body: Body): int {
    match body
    case Reserve(_, _) => 0
    case Authorize(_) => 1
    case Create(_, _) => 2
    case CancelShipment(_) => 3
    case Refund(_) => 4
    case Release(_) => 5
    case Confirm(_, _, _) => 6
    case CancelOrder(_, _) => 7
  }

  /** The rank of the command that a state sends. */
  function StatusRank(status: Status): int {
    match status
    case RESERVING_INVENTORY => 0
    case AUTHORIZING_PAYMENT => 1
    case CREATING_SHIPMENT => 2
    case CANCELING_SHIPMENT => 3
    case REFUNDING_PAYMENT => 4
    case RELEASING_INVENTORY => 5
    case CONFIRMING_ORDER | COMPLETED => 6
    case CANCELING_ORDER | CANCELED => 7
  }

  /** Which commands a saga may have sent by the time it is in a state. */
  predicate MayHaveSent(status: Status, body: Body) {
    match status
    case RESERVING_INVENTORY => body.Reserve?
    case AUTHORIZING_PAYMENT => body.Reserve? || body.Authorize?
    case CREATING_SHIPMENT => body.Reserve? || body.Authorize? || body.Create?
    case CANCELING_SHIPMENT => Rank(body) <= 3
    case REFUNDING_PAYMENT => Rank(body) <= 4
    case RELEASING_INVENTORY => Rank(body) <= 5
    case CONFIRMING_ORDER | COMPLETED => Rank(body) <= 2 || body.Confirm?
    case CANCELING_ORDER | CANCELED => Rank(body) <= 5 || body.CancelOrder?
  }

  // ---------------------------------------------------------------- the invariant

  /** The payment has been undone, or was never made and never will be. */
  predicate Unpaid(w: World) {
    if w.payment.Some? then w.payment.value.status != AUTHORIZED else !Sent(w, 1)
  }

  predicate Unshipped(w: World) {
    if w.shipment.Some? then w.shipment.value.status != CREATED else !Sent(w, 2)
  }

  predicate Unreleased(x: Setup, db: I.Db) {
    x.orderId in db.reservations ==> db.reservations[x.orderId].status != I.RELEASED
  }

  /** What the participants did has been asked for. */
  predicate Caused(x: Setup, w: World) {
    && (Unreleased(x, w.inventory) || Sent(w, 5))
    && (w.payment.Some? ==> Sent(w, 1) || Sent(w, 4))
    && (w.payment.Some? && w.payment.value.status == REFUNDED ==> Sent(w, 4))
    && (w.shipment.Some? ==> Sent(w, 2) || Sent(w, 3))
    && (w.shipment.Some? && w.shipment.value.status == CALLED_OFF ==> Sent(w, 3))
    && (w.order.CONFIRMED? ==>
         SentBody(w, Confirm(w.order.paymentId, w.order.shipmentId, w.order.tracking)))
    && (w.order.CANCELED? ==> Sent(w, 7))
  }

  /** A reply stays true of its participant's row. */
  predicate IsTrue(w: World, reply: Reply) {
    match reply
    case PaymentAuthorized(id) =>
      w.payment.Some? && w.payment.value.status != DECLINED && w.payment.value.paymentId == id
    case PaymentFailed(_) => w.payment.Some? && w.payment.value.status != AUTHORIZED
    case PaymentRefunded => w.payment.Some? && w.payment.value.status != AUTHORIZED
    case ShipmentCreated(id, tracking) =>
      && w.shipment.Some? && w.shipment.value.status != FAILED && w.shipment.value.shipmentId == id
      && w.shipment.value.tracking == tracking
    case ShipmentFailed(_) => w.shipment.Some? && w.shipment.value.status != CREATED
    case ShipmentCanceled => w.shipment.Some? && w.shipment.value.status != CREATED
    case OrderConfirmed => w.order.CONFIRMED?
    case OrderCanceled => w.order.CANCELED?
    case _ => false
  }

  predicate Recorded(w: World, s: Instance) {
    && Charged(w) && s.paymentId == w.payment.value.paymentId
    && (s.order.physical && !s.status.CREATING_SHIPMENT? ==>
         Shipped(w) && s.shipmentId == w.shipment.value.shipmentId && s.tracking == w.shipment.value.tracking)
  }

  /** What a saga may rely on in each state. */
  predicate Known(x: Setup, w: World, s: Instance) {
    match s.status
    case RESERVING_INVENTORY | CANCELING_SHIPMENT => true
    case AUTHORIZING_PAYMENT => Holds(x, w)
    case CREATING_SHIPMENT => Holds(x, w) && Recorded(w, s)
    case CONFIRMING_ORDER => Holds(x, w) && Recorded(w, s)
    case COMPLETED => Holds(x, w) && Recorded(w, s) && w.order == CONFIRMED(s.paymentId, s.shipmentId, s.tracking)
    case REFUNDING_PAYMENT => Unshipped(w)
    case RELEASING_INVENTORY => Unshipped(w) && Unpaid(w)
    case CANCELING_ORDER => Unshipped(w) && Unpaid(w) && Free(x, w)
    case CANCELED => Unshipped(w) && Unpaid(w) && Free(x, w) && w.order.CANCELED?
  }

  predicate SagaOk(x: Setup, w: World) {
    match w.saga
    case None => w.sent == []
    case Some(s) =>
      && s.order == x.order && Known(x, w, s)
      && (forall c <- w.sent :: MayHaveSent(s.status, c.body))
      && (forall c <- w.sent :: c.body.Confirm? ==> c.body == Confirm(s.paymentId, s.shipmentId, s.tracking))
  }

  ghost predicate Inv(x: Setup, w: World) {
    && H.History(w.inventory) && Caused(x, w) && SagaOk(x, w)
    && (forall a <- w.answers :: IsTrue(w, a.reply))
  }

  // ---------------------------------------------------------------- deliveries

  /** Another command of the inventory: rows move forward, and only a release of the order releases it. */
  lemma InventoryMoves(x: Setup, db: I.Db, e: I.Event)
    requires H.History(db)
    ensures var after := I.Step(db, e);
            && H.History(after)
            && (x.orderId in db.reservations ==>
                 x.orderId in after.reservations
                 && H.RowLater(db.reservations[x.orderId], after.reservations[x.orderId]))
    ensures e.command.orderId != x.orderId || !e.command.Release? ==> Unreleased(x, db) ==> Unreleased(x, I.Step(db, e))
  {
    hide H.History, H.RowLater;
    H.StepMovesForward(db, e);
    hide A.Normalized, A.Verdict, I.DebitAll, I.CreditAll, A.SimulatedDetails;
  }

  lemma InventoryKeeps(x: Setup, w: World, e: I.Event)
    requires Inv(x, w)
    requires e.command.orderId == x.orderId && e.command.Release? ==> Sent(w, 5)
    ensures Inv(x, w.(inventory := I.Step(w.inventory, e)))
  {
    hide H.History, I.Step, IsTrue, MayHaveSent;
    InventoryMoves(x, w.inventory, e);
    var after := w.(inventory := I.Step(w.inventory, e));
    SameSent(w, after);
    if w.saga.Some? && Holds(x, w) && Sent(w, 5) {
      NotYetSent(w, w.saga.value);
    }
    assert Caused(x, after);
    forall a <- w.answers ensures IsTrue(after, a.reply) {
      SameTruth(w, after, a.reply);
    }
  }

  lemma SameTruth(w: World, after: World, reply: Reply)
    requires after.payment == w.payment && after.shipment == w.shipment && after.order == w.order
    ensures IsTrue(after, reply) == IsTrue(w, reply)
  {
  }

  /** A command of a later rank is not out yet. */
  lemma NotYetSent(w: World, s: Instance)
    requires forall c <- w.sent :: MayHaveSent(s.status, c.body)
    ensures s.status in {RESERVING_INVENTORY, AUTHORIZING_PAYMENT, CREATING_SHIPMENT, CONFIRMING_ORDER, COMPLETED} ==>
              !Sent(w, 3) && !Sent(w, 4) && !Sent(w, 5)
    ensures s.status in {RESERVING_INVENTORY, AUTHORIZING_PAYMENT} ==> !Sent(w, 2)
    ensures s.status.RESERVING_INVENTORY? ==> !Sent(w, 1)
    ensures Sent(w, 7) ==> s.status.CANCELING_ORDER? || s.status.CANCELED?
    ensures (exists c <- w.sent :: c.body.Confirm?) ==> s.status.CONFIRMING_ORDER? || s.status.COMPLETED?
  {
  }

  /** A payment row moves forward, and a reply is true of the row it leaves. */
  predicate PaymentMoved(before: Option<Payment>, after: Payment, reply: Option<Reply>, refund: bool) {
    && (before.Some? ==> after.paymentId == before.value.paymentId)
    && (before.Some? ==> after.status == before.value.status || (refund && after.status == REFUNDED))
    && (after.status == REFUNDED ==> refund || (before.Some? && before.value.status == REFUNDED))
    && (refund ==> after.status != AUTHORIZED)
    && (reply.Some? ==>
         (reply.value == PaymentAuthorized(after.paymentId) && after.status == AUTHORIZED)
         || ((reply.value.PaymentFailed? || reply.value.PaymentRefunded?) && after.status != AUTHORIZED))
  }

  lemma PaymentMoves(existing: Option<Payment>, simulate: Option<string>, id: Uuid)
    ensures var e := Authorizing(existing, simulate, id); PaymentMoved(existing, e.row, e.reply, false)
    ensures var e := Refunding(existing); PaymentMoved(existing, e.row, e.reply, true)
  {
  }

  lemma PaymentKeeps(x: Setup, w: World, c: Command, id: Uuid)
    requires Inv(x, w) && c in w.sent && (c.body.Authorize? || c.body.Refund?)
    ensures Inv(x, Delivered(x, w, c, id, map[], ""))
  {
    hide H.History, MayHaveSent, Authorizing, Refunding;
    PaymentMoves(w.payment, if c.body.Authorize? then c.body.simulate else None, id);
    var after := Delivered(x, w, c, id, map[], "");
    assert Sent(w, Rank(c.body));
    NotYetSent(w, w.saga.value);
    SameSent(w, after);
    assert Caused(x, after);
    forall a <- after.answers ensures IsTrue(after, a.reply) {
      assert a in w.answers ==> IsTrue(w, a.reply);
    }
    assert Known(x, after, w.saga.value);
  }

  lemma SameSent(w: World, after: World)
    requires after.sent == w.sent
    ensures forall k :: Sent(after, k) == Sent(w, k)
    ensures forall b :: SentBody(after, b) == SentBody(w, b)
  {
  }

  predicate ShipmentMoved(before: Option<Shipment>, after: Shipment, reply: Option<Reply>, cancel: bool) {
    && (before.Some? ==> after.shipmentId == before.value.shipmentId && after.tracking == before.value.tracking)
    && (before.Some? ==> after.status == before.value.status || (cancel && after.status == CALLED_OFF))
    && (after.status == CALLED_OFF ==> cancel || (before.Some? && before.value.status == CALLED_OFF))
    && (cancel ==> after.status != CREATED)
    && (reply.Some? ==>
         (reply.value == ShipmentCreated(after.shipmentId, after.tracking) && after.status == CREATED)
         || ((reply.value.ShipmentFailed? || reply.value.ShipmentCanceled?) && after.status != CREATED))
  }

  lemma ShipmentMoves(existing: Option<Shipment>, valid: bool, simulate: Option<string>, id: Uuid, tracking: string)
    ensures var e := Creating(existing, valid, simulate, id, tracking); ShipmentMoved(existing, e.row, e.reply, false)
    ensures var e := CallingOff(existing); ShipmentMoved(existing, e.row, e.reply, true)
  {
  }

  /** What is known outlives a forward move of the shipment. */
  lemma ShipmentKnown(x: Setup, w: World, after: World, s: Instance, reply: Option<Reply>, cancel: bool)
    requires Known(x, w, s) && after == w.(shipment := after.shipment, answers := after.answers)
    requires after.shipment.Some? && ShipmentMoved(w.shipment, after.shipment.value, reply, cancel)
    requires Sent(w, if cancel then 3 else 2)
    requires s.status in {RESERVING_INVENTORY, AUTHORIZING_PAYMENT, CREATING_SHIPMENT, CONFIRMING_ORDER, COMPLETED} ==>
               !Sent(w, 3)
    ensures Known(x, after, s)
  {
    SameSent(w, after);
    hide Sent;
  }

  lemma ShipmentKeeps(x: Setup, w: World, c: Command, id: Uuid, tracking: string)
    requires Inv(x, w) && c in w.sent && (c.body.Create? || c.body.CancelShipment?)
    ensures Inv(x, Delivered(x, w, c, id, map[], tracking))
  {
    hide H.History, MayHaveSent, Creating, CallingOff, Known;
    ShipmentMoves(w.shipment, c.body.Create? && c.body.addressValid, if c.body.Create? then c.body.simulate else None,
                  id, tracking);
    var after := Delivered(x, w, c, id, map[], tracking);
    assert Sent(w, Rank(c.body));
    NotYetSent(w, w.saga.value);
    SameSent(w, after);
    ShipmentKnown(x, w, after, w.saga.value, if c.body.Create? then
      Creating(w.shipment, c.body.addressValid, c.body.simulate, id, tracking).reply else CallingOff(w.shipment).reply,
      c.body.CancelShipment?);
    assert Caused(x, after) by { hide IsTrue, Sent; }
    hide Caused, Sent;
    forall a <- after.answers ensures IsTrue(after, a.reply) {
      assert a in w.answers ==> IsTrue(w, a.reply);
    }
  }

  lemma OrderKeeps(x: Setup, w: World, c: Command)
    requires Inv(x, w) && c in w.sent && (c.body.Confirm? || c.body.CancelOrder?)
    ensures Inv(x, Delivered(x, w, c, 0, map[], ""))
  {
    hide H.History, MayHaveSent;
    var after := Delivered(x, w, c, 0, map[], "");
    assert Sent(w, Rank(c.body));
    SameSent(w, after);
    NotYetSent(w, w.saga.value);
  }

  // ---------------------------------------------------------------- transitions

  /** A transition to a new state with its command, whatever it records. */
  lemma EnterKeeps(x: Setup, w: World, t: Transition)
    requires Inv(x, w) && w.saga.Some? && t.saga.order == x.order && !KindOf(t.saga.status).TERMINAL?
    requires t.commands == [BuildCommand(t.saga)]
    requires forall c <- w.sent :: MayHaveSent(t.saga.status, c.body) && !c.body.Confirm?
    requires Known(x, w.(sent := w.sent + t.commands), t.saga)
    ensures Inv(x, Applied(w, t))
  {
    hide H.History, Known;
    var after := Applied(w, t);
    SentGrows(w, after, t.commands[0]);
    SameKnown(x, w.(sent := w.sent + t.commands), after, t.saga);
    forall a <- w.answers ensures IsTrue(after, a.reply) {
      SameTruth(w, after, a.reply);
    }
  }

  lemma SentGrows(w: World, after: World, c: Command)
    requires after.sent == w.sent + [c]
    ensures forall k :: Sent(after, k) <==> Sent(w, k) || k == Rank(c.body)
    ensures forall b :: SentBody(w, b) ==> SentBody(after, b)
  {
    assert forall d :: d in after.sent <==> d in w.sent || d == c;
  }

  lemma SameKnown(x: Setup, w: World, after: World, s: Instance)
    requires after == w.(saga := after.saga)
    ensures Known(x, after, s) == Known(x, w, s)
  {
    SameSent(w, after);
  }

  /** What a published reply says now, however old it is. */
  predicate StillSays(x: Setup, w: World, reply: Reply) {
    match reply
    case InventoryReserved =>
      x.orderId in w.inventory.reservations && w.inventory.reservations[x.orderId].status != I.REJECTED
    case InventoryRejected(_) => Free(x, w)
    case InventoryReleased => Free(x, w)
    case _ => IsTrue(w, reply)
  }

  lemma RepliesStayTrue(x: Setup, w: World, causationId: Uuid, reply: Reply)
    requires Inv(x, w) && IsPublished(x, w, causationId, reply)
    ensures StillSays(x, w, reply)
  {
    if Answer(causationId, reply) in w.answers {
      assert IsTrue(w, Answer(causationId, reply).reply);
    } else {
      var i :| 0 <= i < |w.inventory.outbox| && IsAnswer(x, w.inventory.outbox[i], causationId, reply);
      assert H.ReplyHolds(w.inventory.outbox[i], w.inventory.reservations);
    }
  }

  /** What has been done stays done until its compensation is sent. */
  lemma StillDone(x: Setup, w: World)
    requires Caused(x, w)
    ensures w.payment.Some? && w.payment.value.status == REFUNDED ==> Sent(w, 4)
    ensures w.shipment.Some? && w.shipment.value.status == CALLED_OFF ==> Sent(w, 3)
    ensures !Unreleased(x, w.inventory) ==> Sent(w, 5)
  {
  }

  /** An accepted success, as a change of state. */
  lemma SuccessKeeps(x: Setup, w: World, e: Envelope, id: Uuid, now: int)
    requires Inv(x, w) && w.saga.Some? && Accepts(w.saga.value, e) && StillSays(x, w, e.reply)
    requires e.reply.InventoryReserved? || e.reply.PaymentAuthorized? || e.reply.ShipmentCreated?
    ensures Inv(x, Applied(w, Replied(w.saga.value, e, id, now, x.settings)))
  {
    var s := w.saga.value;
    StillDone(x, w);
    NotYetSent(w, s);
    hide H.History, Caused, Sent;
    EnterKeeps(x, w, Replied(s, e, id, now, x.settings));
  }

  /** What was not asked for is not there. */
  lemma NotThere(x: Setup, w: World)
    requires Caused(x, w)
    ensures !Sent(w, 1) && !Sent(w, 4) ==> w.payment.None?
    ensures !Sent(w, 2) && !Sent(w, 3) ==> w.shipment.None?
  {
  }

  /** An accepted rejection or compensation, as a change of state. */
  lemma FailureKeeps(x: Setup, w: World, e: Envelope, id: Uuid, now: int)
    requires Inv(x, w) && w.saga.Some? && Accepts(w.saga.value, e) && StillSays(x, w, e.reply)
    requires !e.reply.InventoryReserved? && !e.reply.PaymentAuthorized? && !e.reply.ShipmentCreated?
    requires !e.reply.OrderConfirmed? && !e.reply.OrderCanceled?
    ensures Inv(x, Applied(w, Replied(w.saga.value, e, id, now, x.settings)))
  {
    var s := w.saga.value;
    var t := Replied(s, e, id, now, x.settings);
    assert t.commands == [BuildCommand(t.saga)] && t.saga.order == x.order;
    hide StillSays, H.History, IsTrue, MayHaveSent, Known, Caused, Sent;
    FailureKnown(x, w, e, t);
    NoConfirmYet(x, w, t.saga.status);
    EnterKeeps(x, w, t);
  }

  lemma FailureKnown(x: Setup, w: World, e: Envelope, t: Transition)
    requires Inv(x, w) && w.saga.Some? && Accepts(w.saga.value, e) && StillSays(x, w, e.reply)
    requires !e.reply.InventoryReserved? && !e.reply.PaymentAuthorized? && !e.reply.ShipmentCreated?
    requires !e.reply.OrderConfirmed? && !e.reply.OrderCanceled?
    requires exists id, now :: t == Replied(w.saga.value, e, id, now, x.settings)
    ensures Known(x, w.(sent := w.sent + t.commands), t.saga)
  {
    hide StillSays, H.History, IsTrue, Known;
    NotThere(x, w);
    NotYetSent(w, w.saga.value);
    hide Inv, Caused, SagaOk, MayHaveSent;
    SentGrows(w, w.(sent := w.sent + t.commands), t.commands[0]);
    hide Sent;
    BackKnown(x, w, w.(sent := w.sent + t.commands), e.reply, t.saga);
  }

  /** Commands sent so far fit a later state on the way back. */
  lemma NoConfirmYet(x: Setup, w: World, next: Status)
    requires SagaOk(x, w) && w.saga.Some?
    requires !w.saga.value.status.CONFIRMING_ORDER? && !w.saga.value.status.CANCELING_ORDER?
    requires !KindOf(w.saga.value.status).TERMINAL?
    requires || next.CANCELING_ORDER? || next.RELEASING_INVENTORY?
             || (next.REFUNDING_PAYMENT? && !w.saga.value.status.RELEASING_INVENTORY?)
    ensures forall c <- w.sent :: MayHaveSent(next, c.body) && !c.body.Confirm?
  {
  }

  lemma BackKnown(x: Setup, w: World, after: World, reply: Reply, t: Instance)
    requires w.saga.Some? && Known(x, w, w.saga.value) && Expects(w.saga.value.status, reply) && StillSays(x, w, reply)
    requires after == w.(sent := after.sent)
    requires forall k :: Sent(after, k) <==> Sent(w, k) || k == StatusRank(t.status)
    requires w.saga.value.status.RESERVING_INVENTORY? ==> w.payment.None? && !Sent(w, 1)
    requires w.saga.value.status in {RESERVING_INVENTORY, AUTHORIZING_PAYMENT} ==> w.shipment.None? && !Sent(w, 2)
    requires t.status ==
             match reply
             case InventoryRejected(_) | InventoryReleased => CANCELING_ORDER
             case PaymentFailed(_) | PaymentRefunded => RELEASING_INVENTORY
             case ShipmentFailed(_) | ShipmentCanceled => REFUNDING_PAYMENT
             case _ => Status.COMPLETED
    requires !t.status.COMPLETED?
    ensures Known(x, after, t)
  {
  }

  lemma FinishKeeps(x: Setup, w: World, t: Transition)
    requires Inv(x, w) && w.saga.Some?
    requires var s := w.saga.value;
             || (s.status.CONFIRMING_ORDER? && w.order.CONFIRMED? && t == Finish(s, COMPLETED))
             || (s.status.CANCELING_ORDER? && w.order.CANCELED? && t == Finish(s, Status.CANCELED))
    ensures Inv(x, Applied(w, t))
  {
    hide H.History;
    var after := Applied(w, t);
    assert after.sent == w.sent;
    SameSent(w, after);
  }

  lemma TickKeeps(x: Setup, w: World, id: Uuid, now: int)
    requires Inv(x, w) && w.saga.Some?
    ensures Inv(x, Applied(w, OnTick(w.saga.value, id, now, x.settings)))
  {
    var s := w.saga.value;
    var t := OnTick(s, id, now, x.settings);
    assert w.payment.Some? ==> Sent(w, 1) || Sent(w, 4);
    assert w.shipment.Some? ==> Sent(w, 2) || Sent(w, 3);
    hide H.History, Caused, Backoff;
    NotYetSent(w, s);
    if t.saga.status == s.status {
      SameStateKeeps(x, w, t);
    } else {
      SentGrows(w, w.(sent := w.sent + t.commands), t.commands[0]);
      EnterKeeps(x, w, t);
    }
  }

  /** A retry, a deadline or a restart that leaves the state as it is. */
  lemma SameStateKeeps(x: Setup, w: World, t: Transition)
    requires Inv(x, w) && w.saga.Some?
    requires var s := w.saga.value;
             && t.saga == s.(attempt := t.saga.attempt, deadlineAt := t.saga.deadlineAt,
                             nextRetryAt := t.saga.nextRetryAt)
             && (t.commands == [] || (!KindOf(s.status).TERMINAL? && t.commands == [BuildCommand(s)]))
    ensures Inv(x, Applied(w, t))
  {
    hide H.History, IsTrue;
    var after := Applied(w, t);
    if t.commands == [] {
      assert after.sent == w.sent;
      SameSent(w, after);
      hide MayHaveSent;
    } else {
      ResendKeeps(x, w, t);
    }
    forall a <- w.answers ensures IsTrue(after, a.reply) {
      SameTruth(w, after, a.reply);
    }
  }

  lemma ResendKeeps(x: Setup, w: World, t: Transition)
    requires Caused(x, w) && SagaOk(x, w) && w.saga.Some?
    requires var s := w.saga.value;
             && t.saga == s.(attempt := t.saga.attempt, deadlineAt := t.saga.deadlineAt,
                             nextRetryAt := t.saga.nextRetryAt)
             && !KindOf(s.status).TERMINAL? && t.commands == [BuildCommand(s)]
    ensures Caused(x, Applied(w, t)) && SagaOk(x, Applied(w, t))
  {
    var after := Applied(w, t);
    SentGrows(w, after, t.commands[0]);
    assert Caused(x, after) by { hide Known, MayHaveSent; }
    assert Known(x, after, t.saga) by { hide Caused, MayHaveSent; }
    hide Caused, Known;
  }

  lemma HearKeeps(x: Setup, w: World, e: Envelope, id: Uuid, now: int)
    requires Inv(x, w) && w.saga.Some? && IsPublished(x, w, e.causationId, e.reply)
    ensures Inv(x, Applied(w, OnReply(w.saga.value, e, id, now, x.settings)))
  {
    var t := OnReply(w.saga.value, e, id, now, x.settings);
    if Accepts(w.saga.value, e) {
      RepliesStayTrue(x, w, e.causationId, e.reply);
      assert Applied(w, t) == Applied(w, Replied(w.saga.value, e, id, now, x.settings));
      hide Inv, StillSays, Replied;
      match e.reply
      case InventoryReserved | PaymentAuthorized(_) | ShipmentCreated(_, _) => SuccessKeeps(x, w, e, id, now);
      case OrderConfirmed | OrderCanceled => EndKeeps(x, w, e, id, now);
      case _ => FailureKeeps(x, w, e, id, now);
    } else {
      assert Applied(w, t) == w;
    }
  }

  lemma EndKeeps(x: Setup, w: World, e: Envelope, id: Uuid, now: int)
    requires Inv(x, w) && w.saga.Some? && Accepts(w.saga.value, e) && StillSays(x, w, e.reply)
    requires e.reply.OrderConfirmed? || e.reply.OrderCanceled?
    ensures Inv(x, Applied(w, Replied(w.saga.value, e, id, now, x.settings)))
  {
    FinishKeeps(x, w, Replied(w.saga.value, e, id, now, x.settings));
  }

  lemma BeginKeeps(x: Setup, w: World, messageId: Uuid, id: Uuid, now: int)
    requires Inv(x, w) && w.saga.None?
    ensures Inv(x, Applied(w, Start(x.order, messageId, id, now, x.settings)))
  {
    var t := Start(x.order, messageId, id, now, x.settings);
    SentGrows(w, Applied(w, t), t.commands[0]);
    hide H.History;
    assert forall a <- w.answers :: IsTrue(Applied(w, t), a.reply) == IsTrue(w, a.reply);
  }

  lemma DeliverKeeps(x: Setup, w: World, c: Command, id: Uuid, seen: map<I.Skus.Sku, int>, tracking: string)
    requires Inv(x, w) && c in w.sent
    ensures Inv(x, Delivered(x, w, c, id, seen, tracking))
  {
    hide Inv;
    match c.body
    case Reserve(_, _) => InventoryKeeps(x, w, I.Event(ForInventory(x, c), id, seen));
    case Release(_) => InventoryKeeps(x, w, I.Event(ForInventory(x, c), id, seen));
    case Authorize(_) | Refund(_) => PaymentKeeps(x, w, c, id);
    case Create(_, _) | CancelShipment(_) => ShipmentKeeps(x, w, c, id, tracking);
    case Confirm(_, _, _) | CancelOrder(_, _) => OrderKeeps(x, w, c);
  }

  /** Every step keeps what the saga relies on. */
  lemma NextKeepsInv(x: Setup, w: World, a: Action)
    requires Inv(x, w)
    ensures Inv(x, Next(x, w, a))
  {
    if Enabled(x, w, a) {
      hide Inv;
      match a
      case Begin(messageId, id, now) =>
        BeginKeeps(x, w, messageId, id, now);
        HandledIsNotRead(x, Applied(w, Start(x.order, messageId, id, now, x.settings)), Next(x, w, a));
      case Hear(e, id, now) =>
        HearKeeps(x, w, e, id, now);
        HandledIsNotRead(x, Applied(w, OnReply(w.saga.value, e, id, now, x.settings)), Next(x, w, a));
      case Tick(id, now) => TickKeeps(x, w, id, now);
      case Resume(now) => SameStateKeeps(x, w, Resumed(w.saga.value, now, x.settings));
      case Deliver(c, id, seen, tracking) => DeliverKeeps(x, w, c, id, seen, tracking);
      case Elsewhere(e) => InventoryKeeps(x, w, e);
    }
  }

  /** The marks of handled messages decide nothing but whether a message is read. */
  lemma HandledIsNotRead(x: Setup, w: World, after: World)
    requires Inv(x, w) && after == w.(handled := after.handled)
    ensures Inv(x, after)
  {
    hide H.History;
    SameSent(w, after);
    assert forall a <- w.answers :: IsTrue(after, a.reply) == IsTrue(w, a.reply);
  }

  lemma {:induction false} ExecKeepsInv(x: Setup, w: World, actions: seq<Action>)
    requires Initial(x, w)
    ensures Inv(x, Exec(x, w, actions))
    decreases |actions|
  {
    hide Inv, Next;
    if actions == [] {
      InitialInv(x, w);
    } else {
      ExecKeepsInv(x, w, actions[..|actions| - 1]);
      NextKeepsInv(x, Exec(x, w, actions[..|actions| - 1]), actions[|actions| - 1]);
    }
  }

  lemma InitialInv(x: Setup, w: World)
    requires Initial(x, w)
    ensures Inv(x, w)
  {
  }

  // ---------------------------------------------------------------- what a checkout guarantees

  /** Everything was done: stock held, payment taken, shipment made, and the order knows them. */
  predicate Fulfilled(x: Setup, w: World) {
    && Holds(x, w) && Charged(w) && (x.order.physical ==> Shipped(w))
    && w.order.CONFIRMED? && w.order.paymentId == w.payment.value.paymentId
    && (x.order.physical ==>
         w.order.shipmentId == w.shipment.value.shipmentId && w.order.tracking == w.shipment.value.tracking)
  }

  /** Everything was undone, or never done. */
  predicate Undone(x: Setup, w: World) {
    Free(x, w) && !Charged(w) && !Shipped(w) && w.order.CANCELED?
  }

  /**
   * All or nothing, in every run with duplicates, delays, reordering, lost replies, timeouts and restarts: a completed
   * saga has done everything and a canceled one has undone everything, and no later step changes that.
   */
  lemma AllOrNothing(x: Setup, w: World, actions: seq<Action>)
    requires Initial(x, w) && Exec(x, w, actions).saga.Some?
    ensures var after := Exec(x, w, actions);
            && (after.saga.value.status.COMPLETED? ==> Fulfilled(x, after))
            && (after.saga.value.status.CANCELED? ==> Undone(x, after))
  {
    hide Exec, Initial, H.History;
    ExecKeepsInv(x, w, actions);
  }

  /** A terminal saga stays as it is. */
  lemma {:induction false} TerminalStays(x: Setup, w: World, actions: seq<Action>)
    requires w.saga.Some? && KindOf(w.saga.value.status).TERMINAL?
    ensures Exec(x, w, actions).saga == w.saga && Exec(x, w, actions).sent == w.sent
    decreases |actions|
  {
    hide Delivered, Start;
    if actions != [] {
      TerminalStays(x, w, actions[..|actions| - 1]);
      var before, a := Exec(x, w, actions[..|actions| - 1]), actions[|actions| - 1];
      if a.Deliver? && a.command in before.sent {
        DeliveriesKeepSaga(x, before, a.command, a.id, a.seen, a.tracking);
      }
    }
  }

  lemma DeliveriesKeepSaga(x: Setup, w: World, c: Command, id: Uuid, seen: map<I.Skus.Sku, int>, tracking: string)
    ensures var after := Delivered(x, w, c, id, seen, tracking);
            after.saga == w.saga && after.sent == w.sent && after.handled == w.handled
  {
    hide I.Step;
  }
}
