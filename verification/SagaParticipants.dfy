/**
 * `PaymentCommandHandler`, `ShippingCommandHandler` and `OrderService` as functions of the one row that a command
 * reads and writes, and as methods on their tables.
 */
module SagaParticipants {
  import opened Prelude
  import opened SagaModel
  import A = StockAllocator
  import I = InventoryModel

  // ---------------------------------------------------------------- payment

  datatype PaymentStatus = AUTHORIZED | DECLINED | REFUNDED

  datatype Payment = Payment(paymentId: Option<Uuid>, status: PaymentStatus, noop: bool, attempts: nat)

  /** The row left and the reply published, if any. */
  datatype Effect<+R> = Effect(row: R, reply: Option<Reply>)

  function PaymentMode(mode: Option<string>): Option<string> {
    if mode in {Some("DECLINE"), Some("TIMEOUT"), Some("TIMEOUT_ONCE"), Some("SLOW")} then mode else None
  }

  /** `authorize`; `id` is the random payment id. */
  function Authorizing(existing: Option<Payment>, simulate: Option<string>, id: Uuid): Effect<Payment> {
    var mode := PaymentMode(simulate);
    if existing.Some? && existing.value.status == REFUNDED then
      Effect(existing.value, Some(PaymentFailed(ALREADY_COMPENSATED)))
    else
      var p := existing.GetOr(Payment(Some(id), if mode == Some("DECLINE") then DECLINED else AUTHORIZED, false, 0));
      var counted := p.(attempts := p.attempts + 1);
      Effect(counted,
             if !I.ShouldReply(mode, counted.attempts) then None
             else Some(if p.status == AUTHORIZED then PaymentAuthorized(p.paymentId) else PaymentFailed("DECLINED")))
  }

  /** `refund`. */
  function Refunding(existing: Option<Payment>): Effect<Payment> {
    var row :=
      match existing
      case None => Payment(None, REFUNDED, true, 0)
      case Some(p) => if p.status == AUTHORIZED then p.(status := REFUNDED, noop := false) else p;
    Effect(row, Some(PaymentRefunded))
  }

  // ---------------------------------------------------------------- shipping

  datatype ShipmentStatus = CREATED | FAILED | CALLED_OFF

  datatype Shipment = Shipment(
    shipmentId: Option<Uuid>, status: ShipmentStatus, tracking: Option<string>, noop: bool, reason: string,
    attempts: nat)

  function ShippingMode(mode: Option<string>): Option<string> {
    if mode in {Some("FAIL"), Some("TIMEOUT"), Some("TIMEOUT_ONCE")} then mode else None
  }

  /** `Carrier.create`. */
  function Carried(mode: Option<string>, addressValid: bool, id: Uuid, tracking: string): Shipment {
    if mode == Some("FAIL") then Shipment(None, FAILED, None, false, "CARRIER_REJECTED", 0)
    else if !addressValid then Shipment(None, FAILED, None, false, "INVALID_ADDRESS", 0)
    else Shipment(Some(id), CREATED, Some(tracking), false, "", 0)
  }

  /** `create`; `id` and `tracking` are the carrier's. */
  function Creating(existing: Option<Shipment>, addressValid: bool, simulate: Option<string>, id: Uuid,
                    tracking: string): Effect<Shipment>
  {
    var mode := ShippingMode(simulate);
    if existing.Some? && existing.value.status == CALLED_OFF then
      Effect(existing.value, Some(ShipmentFailed(ALREADY_COMPENSATED)))
    else
      var s := existing.GetOr(Carried(mode, addressValid, id, tracking));
      var counted := s.(attempts := s.attempts + 1);
      Effect(counted,
             if !I.ShouldReply(mode, counted.attempts) then None
             else if s.status == CREATED then Some(ShipmentCreated(s.shipmentId, s.tracking))
             else Some(ShipmentFailed(s.reason)))
  }

  /** `cancel`. */
  function CallingOff(existing: Option<Shipment>): Effect<Shipment> {
    var row :=
      match existing
      case None => Shipment(None, CALLED_OFF, None, true, "", 0)
      case Some(s) => if s.status == CREATED then s.(status := CALLED_OFF, noop := false) else s;
    Effect(row, Some(ShipmentCanceled))
  }

  // ---------------------------------------------------------------- order

  datatype OrderStatus =
    | PENDING
    | CONFIRMED(paymentId: Option<Uuid>, shipmentId: Option<Uuid>, tracking: Option<string>)
    | CANCELED(reason: Option<string>, failedStep: Option<Step>)

  /** `confirm` and `cancel`: only a pending order changes. */
  function Settled(order: OrderStatus, to: OrderStatus): OrderStatus {
    if order == PENDING then to else order
  }

  /** What an order that is not pending answers, whichever command asks. */
  function OrderReply(order: OrderStatus): Reply
    requires order != PENDING
  {
    if order.CONFIRMED? then OrderConfirmed else OrderCanceled
  }

  // ---------------------------------------------------------------- inventory

  function ReasonText(rejection: Option<A.Rejection>): string {
    if rejection.None? then "OUT_OF_STOCK"
    else
      match rejection.value.reason
      case OUT_OF_STOCK => "OUT_OF_STOCK"
      case UNKNOWN_SKU => "UNKNOWN_SKU"
      case ALREADY_COMPENSATED => ALREADY_COMPENSATED
  }

  /** A message of `inventory.events` as the saga reads it. */
  function FromInventory(reply: I.Reply): Reply {
    match reply
    case Reserved(_, _) => InventoryReserved
    case Rejected(rejection) => InventoryRejected(ReasonText(rejection))
    case Released(_, _) => InventoryReleased
  }

  // ---------------------------------------------------------------- the handlers as they run

  /** A command as a handler receives it, and a reply as it publishes it. */
  datatype Received = Received(messageId: Uuid, orderId: Uuid)

  datatype Published = Published(orderId: Uuid, causationId: Uuid, reply: Reply)

  /** `PaymentCommandHandler` with its table; `delayed` are the replies scheduled for later. */
  class PaymentCommandHandler {
    var payments: map<Uuid, Payment>
    var outbox: seq<Published>
    var delayed: seq<Published>

    method Publish(cmd: Received, reply: Reply)
      modifies this`outbox
      ensures outbox == old(outbox) + [Published(cmd.orderId, cmd.messageId, reply)]
    {
      outbox := outbox + [Published(cmd.orderId, cmd.messageId, reply)];
    }

    /** The counter in the row. */
    method IncrementAttempts(orderId: Uuid) returns (attempts: nat)
      requires orderId in payments
      modifies this`payments
      ensures attempts == old(payments[orderId].attempts) + 1
      ensures payments == old(payments)[orderId := old(payments[orderId]).(attempts := attempts)]
    {
      attempts := payments[orderId].attempts + 1;
      payments := payments[orderId := payments[orderId].(attempts := attempts)];
    }

    /** `authorize`. */
    method Authorize(cmd: Received, simulate: Option<string>, id: Uuid)
      modifies this
      ensures var e := Authorizing(I.Lookup(old(payments), cmd.orderId), simulate, id);
              && payments == old(payments)[cmd.orderId := e.row]
              && match e.reply
                 case None => outbox == old(outbox) && delayed == old(delayed)
                 case Some(r) =>
                   if simulate == Some("SLOW") && e.row.status != REFUNDED then
                     outbox == old(outbox) && delayed == old(delayed) + [Published(cmd.orderId, cmd.messageId, r)]
                   else
                     outbox == old(outbox) + [Published(cmd.orderId, cmd.messageId, r)] && delayed == old(delayed)
    {
      var mode := PaymentMode(simulate);
      if cmd.orderId in payments && payments[cmd.orderId].status == REFUNDED {
        Publish(cmd, PaymentFailed(ALREADY_COMPENSATED));
        return;
      }
      if cmd.orderId !in payments {
        var status := if mode == Some("DECLINE") then DECLINED else AUTHORIZED;
        payments := payments[cmd.orderId := Payment(Some(id), status, false, 0)];
      }
      var payment := payments[cmd.orderId];
      var attempts := IncrementAttempts(cmd.orderId);
      if !I.ShouldReply(mode, attempts) {
        return;
      }
      var reply :=
        if payment.status == AUTHORIZED then PaymentAuthorized(payment.paymentId) else PaymentFailed("DECLINED");
      if mode == Some("SLOW") {
        delayed := delayed + [Published(cmd.orderId, cmd.messageId, reply)];
      } else {
        Publish(cmd, reply);
      }
    }

    /** `refund`. */
    method Refund(cmd: Received)
      modifies this`payments, this`outbox
      ensures payments == old(payments)[cmd.orderId := Refunding(I.Lookup(old(payments), cmd.orderId)).row]
      ensures outbox == old(outbox) + [Published(cmd.orderId, cmd.messageId, PaymentRefunded)]
    {
      if cmd.orderId !in payments {
        payments := payments[cmd.orderId := Payment(None, REFUNDED, true, 0)];
      } else if payments[cmd.orderId].status == AUTHORIZED {
        payments := payments[cmd.orderId := payments[cmd.orderId].(status := REFUNDED, noop := false)];
      }
      Publish(cmd, PaymentRefunded);
    }
  }

  /** `ShippingCommandHandler` with its table. */
  class ShippingCommandHandler {
    var shipments: map<Uuid, Shipment>
    var outbox: seq<Published>

    method Publish(cmd: Received, reply: Reply)
      modifies this`outbox
      ensures outbox == old(outbox) + [Published(cmd.orderId, cmd.messageId, reply)]
    {
      outbox := outbox + [Published(cmd.orderId, cmd.messageId, reply)];
    }

    method IncrementAttempts(orderId: Uuid) returns (attempts: nat)
      requires orderId in shipments
      modifies this`shipments
      ensures attempts == old(shipments[orderId].attempts) + 1
      ensures shipments == old(shipments)[orderId := old(shipments[orderId]).(attempts := attempts)]
    {
      attempts := shipments[orderId].attempts + 1;
      shipments := shipments[orderId := shipments[orderId].(attempts := attempts)];
    }

    /** `create`. */
    method Create(cmd: Received, addressValid: bool, simulate: Option<string>, id: Uuid, tracking: string)
      modifies this
      ensures var e := Creating(I.Lookup(old(shipments), cmd.orderId), addressValid, simulate, id, tracking);
              && shipments == old(shipments)[cmd.orderId := e.row]
              && match e.reply
                 case None => outbox == old(outbox)
                 case Some(r) => outbox == old(outbox) + [Published(cmd.orderId, cmd.messageId, r)]
    {
      var mode := ShippingMode(simulate);
      if cmd.orderId in shipments && shipments[cmd.orderId].status == CALLED_OFF {
        Publish(cmd, ShipmentFailed(ALREADY_COMPENSATED));
        return;
      }
      if cmd.orderId !in shipments {
        shipments := shipments[cmd.orderId := Carried(mode, addressValid, id, tracking)];
      }
      var shipment := shipments[cmd.orderId];
      var attempts := IncrementAttempts(cmd.orderId);
      if !I.ShouldReply(mode, attempts) {
        return;
      }
      if shipment.status == CREATED {
        Publish(cmd, ShipmentCreated(shipment.shipmentId, shipment.tracking));
      } else {
        Publish(cmd, ShipmentFailed(shipment.reason));
      }
    }

    /** `cancel`. */
    method Cancel(cmd: Received)
      modifies this
      ensures shipments == old(shipments)[cmd.orderId := CallingOff(I.Lookup(old(shipments), cmd.orderId)).row]
      ensures outbox == old(outbox) + [Published(cmd.orderId, cmd.messageId, ShipmentCanceled)]
    {
      if cmd.orderId !in shipments {
        shipments := shipments[cmd.orderId := Shipment(None, CALLED_OFF, None, true, "", 0)];
      } else if shipments[cmd.orderId].status == CREATED {
        shipments := shipments[cmd.orderId := shipments[cmd.orderId].(status := CALLED_OFF, noop := false)];
      }
      Publish(cmd, ShipmentCanceled);
    }
  }

  /** `OrderService`, as far as commands go. */
  class OrderService {
    var orders: map<Uuid, OrderStatus>
    var outbox: seq<Published>

    /** `confirm`; a command for an unknown order is only logged. */
    method Confirm(cmd: Received, paymentId: Option<Uuid>, shipmentId: Option<Uuid>, tracking: Option<string>)
      modifies this
      ensures cmd.orderId !in old(orders) ==> orders == old(orders) && outbox == old(outbox)
      ensures cmd.orderId in old(orders) ==>
                var after := Settled(old(orders)[cmd.orderId], CONFIRMED(paymentId, shipmentId, tracking));
                && orders == old(orders)[cmd.orderId := after]
                && outbox == old(outbox) + [Published(cmd.orderId, cmd.messageId, OrderReply(after))]
    {
      Settle(cmd, CONFIRMED(paymentId, shipmentId, tracking));
    }

    /** `cancel`. */
    method Cancel(cmd: Received, reason: Option<string>, failedStep: Option<Step>)
      modifies this
      ensures cmd.orderId !in old(orders) ==> orders == old(orders) && outbox == old(outbox)
      ensures cmd.orderId in old(orders) ==>
                var after := Settled(old(orders)[cmd.orderId], OrderStatus.CANCELED(reason, failedStep));
                && orders == old(orders)[cmd.orderId := after]
                && outbox == old(outbox) + [Published(cmd.orderId, cmd.messageId, OrderReply(after))]
    {
      Settle(cmd, OrderStatus.CANCELED(reason, failedStep));
    }

    method Settle(cmd: Received, to: OrderStatus)
      requires to != PENDING
      modifies this
      ensures cmd.orderId !in old(orders) ==> orders == old(orders) && outbox == old(outbox)
      ensures cmd.orderId in old(orders) ==>
                var after := Settled(old(orders)[cmd.orderId], to);
                && orders == old(orders)[cmd.orderId := after]
                && outbox == old(outbox) + [Published(cmd.orderId, cmd.messageId, OrderReply(after))]
    {
      if cmd.orderId !in orders {
        return;
      }
      if orders[cmd.orderId] == PENDING {
        orders := orders[cmd.orderId := to];
      }
      outbox := outbox + [Published(cmd.orderId, cmd.messageId, OrderReply(orders[cmd.orderId]))];
    }
  }
}
