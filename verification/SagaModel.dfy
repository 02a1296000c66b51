/**
 * `SagaStateMachine.java`, `SagaStatus.java` and `SagaInstance.java`: the states of a checkout, and what each reply,
 * deadline and restart does to them.
 */
module SagaModel {
  import opened Prelude
  import A = StockAllocator

  type Uuid = nat

  datatype Step = INVENTORY | PAYMENT | SHIPPING | ORDER

  datatype Kind = ACTION | COMPENSATION | FINALIZATION | TERMINAL

  datatype Status =
    | RESERVING_INVENTORY | AUTHORIZING_PAYMENT | CREATING_SHIPMENT
    | CANCELING_SHIPMENT | REFUNDING_PAYMENT | RELEASING_INVENTORY
    | CONFIRMING_ORDER | CANCELING_ORDER
    | COMPLETED | CANCELED

  function StepOf(status: Status): Step {
    match status
    case RESERVING_INVENTORY | RELEASING_INVENTORY => INVENTORY
    case AUTHORIZING_PAYMENT | REFUNDING_PAYMENT => PAYMENT
    case CREATING_SHIPMENT | CANCELING_SHIPMENT => SHIPPING
    case CONFIRMING_ORDER | CANCELING_ORDER | COMPLETED | CANCELED => ORDER
  }

  function KindOf(status: Status): Kind {
    match status
    case RESERVING_INVENTORY | AUTHORIZING_PAYMENT | CREATING_SHIPMENT => ACTION
    case CANCELING_SHIPMENT | REFUNDING_PAYMENT | RELEASING_INVENTORY => COMPENSATION
    case CONFIRMING_ORDER | CANCELING_ORDER => FINALIZATION
    case COMPLETED | CANCELED => TERMINAL
  }

  /** `order_snapshot`, as far as a command depends on it. */
  datatype Snapshot = Snapshot(
    physical: bool, lines: Option<seq<A.Line>>, addressValid: bool,
    simulateInventory: Option<string>, simulatePayment: Option<string>, simulateShipping: Option<string>)

  /** Payloads of the commands. */
  datatype Body =
    | Reserve(lines: Option<seq<A.Line>>, simulate: Option<string>)
    | Authorize(simulate: Option<string>)
    | Create(addressValid: bool, simulate: Option<string>)
    | CancelShipment(reason: Option<string>)
    | Refund(reason: Option<string>)
    | Release(reason: Option<string>)
    | Confirm(paymentId: Option<Uuid>, shipmentId: Option<Uuid>, tracking: Option<string>)
    | CancelOrder(reason: Option<string>, failedStep: Option<Step>)

  datatype Command = Command(messageId: Uuid, causationId: Uuid, body: Body)

  /** Payloads of the replies. */
  datatype Reply =
    | InventoryReserved
    | InventoryRejected(reason: string)
    | InventoryReleased
    | PaymentAuthorized(paymentId: Option<Uuid>)
    | PaymentFailed(reason: string)
    | PaymentRefunded
    | ShipmentCreated(shipmentId: Option<Uuid>, tracking: Option<string>)
    | ShipmentFailed(reason: string)
    | ShipmentCanceled
    | OrderConfirmed
    | OrderCanceled

  datatype Envelope = Envelope(messageId: Uuid, causationId: Uuid, reply: Reply)

  /** `expects`. */
  predicate Expects(status: Status, reply: Reply) {
    match status
    case RESERVING_INVENTORY => reply.InventoryReserved? || reply.InventoryRejected?
    case AUTHORIZING_PAYMENT => reply.PaymentAuthorized? || reply.PaymentFailed?
    case CREATING_SHIPMENT => reply.ShipmentCreated? || reply.ShipmentFailed?
    case CANCELING_SHIPMENT => reply.ShipmentCanceled?
    case REFUNDING_PAYMENT => reply.PaymentRefunded?
    case RELEASING_INVENTORY => reply.InventoryReleased?
    case CONFIRMING_ORDER => reply.OrderConfirmed?
    case CANCELING_ORDER => reply.OrderCanceled?
    case COMPLETED | CANCELED => false
  }

  datatype Settings = Settings(
    stepTimeoutMs: int, stepMaxRetries: int, retryBackoffMs: int, compensationBackoffMaxMs: int)

  datatype Instance = Instance(
    order: Snapshot, status: Status, lastCommandId: Uuid, lastCausationId: Uuid, attempt: int,
    deadlineAt: Option<int>, nextRetryAt: Option<int>, paymentId: Option<Uuid>, shipmentId: Option<Uuid>,
    tracking: Option<string>, failureReason: Option<string>, failedStep: Option<Step>)

  /** The saga after a transition, the commands it sends, and what the service asks of it. */
  datatype Transition = Transition(saga: Instance, commands: seq<Command>, stateChanged: bool, accepted: bool)

  const LONG_MAX := 0x7fff_ffff_ffff_ffff
  const STEP_TIMEOUT := "STEP_TIMEOUT"
  const ALREADY_COMPENSATED := "ALREADY_COMPENSATED"

  function Doubled(value: int, times: nat): int {
    if times == 0 then value else 2 * Doubled(value, times - 1)
  }

  /** `backoff`. */
  function Backoff(settings: Settings, attempt: int, max: int): int {
    var exp := if attempt - 1 < 0 then 0 else if attempt - 1 > 20 then 20 else attempt - 1;
    var value := Doubled(settings.retryBackoffMs, exp);
    if value < max then value else max
  }

  /** `buildCommand`. */
  function BuildCommand(s: Instance): Command
    requires !KindOf(s.status).TERMINAL?
  {
    var body :=
      match s.status
      case RESERVING_INVENTORY => Reserve(s.order.lines, s.order.simulateInventory)
      case AUTHORIZING_PAYMENT => Authorize(s.order.simulatePayment)
      case CREATING_SHIPMENT => Create(s.order.addressValid, s.order.simulateShipping)
      case CANCELING_SHIPMENT => CancelShipment(s.failureReason)
      case REFUNDING_PAYMENT => Refund(s.failureReason)
      case RELEASING_INVENTORY => Release(s.failureReason)
      case CONFIRMING_ORDER => Confirm(s.paymentId, s.shipmentId, s.tracking)
      case CANCELING_ORDER => CancelOrder(s.failureReason, s.failedStep);
    Command(s.lastCommandId, s.lastCausationId, body)
  }

  /** `enter`: a new command with a new id, and its deadline. */
  function Enter(s: Instance, next: Status, cause: Uuid, id: Uuid, now: int, settings: Settings): Transition
    requires !KindOf(next).TERMINAL?
  {
    var after := s.(status := next, lastCommandId := id, lastCausationId := cause, attempt := 1,
                    deadlineAt := Some(now + settings.stepTimeoutMs), nextRetryAt := None);
    Transition(after, [BuildCommand(after)], true, false)
  }

  /** `finish`. */
  function Finish(s: Instance, terminal: Status): Transition {
    Transition(s.(status := terminal, deadlineAt := None, nextRetryAt := None), [], true, false)
  }

  function Failed(s: Instance, reason: string): Instance {
    s.(failureReason := Some(reason), failedStep := Some(StepOf(s.status)))
  }

  /** `start`. */
  function Start(order: Snapshot, created: Uuid, id: Uuid, now: int, settings: Settings): Transition {
    var begun := Instance(order, RESERVING_INVENTORY, id, created, 0, None, None, None, None, None, None, None);
    Enter(begun, RESERVING_INVENTORY, created, id, now, settings)
  }

  /** A reply to the command in flight, of a type its state expects. */
  predicate Accepts(s: Instance, e: Envelope) {
    !KindOf(s.status).TERMINAL? && e.causationId == s.lastCommandId && Expects(s.status, e.reply)
  }

  /** Where an accepted reply leads, with what it records. */
  function Replied(s: Instance, e: Envelope, id: Uuid, now: int, settings: Settings): Transition
    requires Accepts(s, e)
  {
    var cause := e.messageId;
    match e.reply
    case InventoryReserved => Enter(s, AUTHORIZING_PAYMENT, cause, id, now, settings)
    case InventoryRejected(reason) => Enter(Failed(s, reason), CANCELING_ORDER, cause, id, now, settings)
    case PaymentAuthorized(paymentId) =>
      Enter(s.(paymentId := paymentId), if s.order.physical then CREATING_SHIPMENT else CONFIRMING_ORDER,
            cause, id, now, settings)
    case PaymentFailed(reason) =>
      Enter(Failed(s, if reason == "DECLINED" then "PAYMENT_DECLINED" else reason), RELEASING_INVENTORY,
            cause, id, now, settings)
    case ShipmentCreated(shipmentId, tracking) =>
      Enter(s.(shipmentId := shipmentId, tracking := tracking), CONFIRMING_ORDER, cause, id, now, settings)
    case ShipmentFailed(reason) =>
      Enter(Failed(s, if reason == ALREADY_COMPENSATED then reason else "SHIPMENT_FAILED"), REFUNDING_PAYMENT,
            cause, id, now, settings)
    case ShipmentCanceled => Enter(s, REFUNDING_PAYMENT, cause, id, now, settings)
    case PaymentRefunded => Enter(s, RELEASING_INVENTORY, cause, id, now, settings)
    case InventoryReleased => Enter(s, CANCELING_ORDER, cause, id, now, settings)
    case OrderConfirmed => Finish(s, COMPLETED)
    case OrderCanceled => Finish(s, CANCELED)
  }

  /** `onReply`; a late reply changes nothing. */
  function OnReply(s: Instance, e: Envelope, id: Uuid, now: int, settings: Settings): Transition {
    if !Accepts(s, e) then Transition(s, [], false, false)
    else Replied(s, e, id, now, settings).(accepted := true)
  }

  /** `compensationOnTimeout`. */
  function CompensationOnTimeout(status: Status): Status
    requires KindOf(status).ACTION?
  {
    match status
    case RESERVING_INVENTORY => RELEASING_INVENTORY
    case AUTHORIZING_PAYMENT => REFUNDING_PAYMENT
    case CREATING_SHIPMENT => CANCELING_SHIPMENT
  }

  predicate Due(at: Option<int>, now: int) {
    at.Some? && at.value <= now
  }

  /** `onTick`. */
  function OnTick(s: Instance, id: Uuid, now: int, settings: Settings): Transition {
    if KindOf(s.status).TERMINAL? then Transition(s, [], false, false)
    else if Due(s.nextRetryAt, now) then
      var after := s.(attempt := s.attempt + 1, nextRetryAt := None, deadlineAt := Some(now + settings.stepTimeoutMs));
      Transition(after, [BuildCommand(after)], true, false)
    else if !Due(s.deadlineAt, now) then Transition(s, [], false, false)
    else if KindOf(s.status).ACTION? && s.attempt > settings.stepMaxRetries then
      Enter(s.(failureReason := Some(STEP_TIMEOUT), failedStep := Some(StepOf(s.status))),
            CompensationOnTimeout(s.status), s.lastCommandId, id, now, settings)
    else
      var limit := if KindOf(s.status).ACTION? then LONG_MAX else settings.compensationBackoffMaxMs;
      var retryAt := now + Backoff(settings, s.attempt, limit);
      Transition(s.(deadlineAt := None, nextRetryAt := Some(retryAt)), [], true, false)
  }

  /** `resumeAfterRestart`. */
  function Resumed(s: Instance, now: int, settings: Settings): Transition {
    var rearmed := now + settings.stepTimeoutMs;
    if KindOf(s.status).TERMINAL? || s.deadlineAt.None? || s.deadlineAt.value >= rearmed then
      Transition(s, [], false, false)
    else Transition(s.(deadlineAt := Some(rearmed)), [], true, false)
  }
}
