/** `SagaStateMachine.java` as it runs: transitions that change the instance in place and collect their commands. */
module SagaMachine {
  import opened Prelude
  import opened SagaModel

  /** `SagaInstance`. */
  class SagaInstance {
    var order: Snapshot
    var status: Status
    var lastCommandId: Uuid
    var lastCausationId: Uuid
    var attempt: int
    var deadlineAt: Option<int>
    var nextRetryAt: Option<int>
    var paymentId: Option<Uuid>
    var shipmentId: Option<Uuid>
    var tracking: Option<string>
    var failureReason: Option<string>
    var failedStep: Option<Step>

    constructor (order: Snapshot)
      ensures this.order == order && attempt == 0 && deadlineAt == None && nextRetryAt == None && paymentId == None
      ensures shipmentId == None && tracking == None && failureReason == None && failedStep == None
    {
      this.order := order;
      attempt, deadlineAt, nextRetryAt, paymentId := 0, None, None, None;
      shipmentId, tracking, failureReason, failedStep := None, None, None, None;
    }

    function Now(): Instance
      reads this
    {
      Instance(order, status, lastCommandId, lastCausationId, attempt, deadlineAt, nextRetryAt, paymentId, shipmentId,
               tracking, failureReason, failedStep)
    }
  }

  /** `Transition`: what the service applies in one transaction. */
  class Effects {
    var commands: seq<Command>
    var stateChanged: bool
    var accepted: bool

    constructor ()
      ensures commands == [] && !stateChanged && !accepted
    {
      commands, stateChanged, accepted := [], false, false;
    }
  }

  class SagaStateMachine {
    const settings: Settings

    constructor (settings: Settings)
      ensures this.settings == settings
    {
      this.settings := settings;
    }

    /** The instance and what is to be applied with it. */
    function Made(s: SagaInstance, t: Effects): Transition
      reads s, t
    {
      Transition(s.Now(), t.commands, t.stateChanged, t.accepted)
    }

    /** `enter`. */
    method Enter(t: Effects, s: SagaInstance, next: Status, cause: Uuid, id: Uuid, now: int)
      requires t.commands == [] && !KindOf(next).TERMINAL?
      modifies t, s
      ensures Made(s, t) ==
              SagaModel.Enter(old(s.Now()), next, cause, id, now, settings).(accepted := old(t.accepted))
    {
      s.status := next;
      s.lastCommandId := id;
      s.lastCausationId := cause;
      s.attempt := 1;
      s.deadlineAt := Some(now + settings.stepTimeoutMs);
      s.nextRetryAt := None;
      t.stateChanged := true;
      t.commands := t.commands + [BuildCommand(s.Now())];
    }

    /** `finish`. */
    method Finish(t: Effects, s: SagaInstance, terminal: Status)
      requires t.commands == []
      modifies t, s
      ensures Made(s, t) == SagaModel.Finish(old(s.Now()), terminal).(accepted := old(t.accepted))
    {
      s.status := terminal;
      s.deadlineAt := None;
      s.nextRetryAt := None;
      t.stateChanged := true;
    }

    /** `failed`. */
    method Failed(s: SagaInstance, reason: string)
      modifies s
      ensures s.Now() == SagaModel.Failed(old(s.Now()), reason)
    {
      s.failureReason := Some(reason);
      s.failedStep := Some(StepOf(s.status));
    }

    /** `start`, on a new instance. */
    method Start(order: Snapshot, created: Uuid, id: Uuid, now: int) returns (s: SagaInstance, t: Effects)
      ensures fresh(s) && fresh(t)
      ensures Made(s, t) == SagaModel.Start(order, created, id, now, settings)
    {
      s := new SagaInstance(order);
      t := new Effects();
      Enter(t, s, RESERVING_INVENTORY, created, id, now);
    }

    /** `onReply`. */
    method OnReply(s: SagaInstance, e: Envelope, id: Uuid, now: int) returns (t: Effects)
      modifies s
      ensures fresh(t)
      ensures Made(s, t) == SagaModel.OnReply(old(s.Now()), e, id, now, settings)
    {
      hide Replied;
      t := new Effects();
      if KindOf(s.status).TERMINAL? || e.causationId != s.lastCommandId || !Expects(s.status, e.reply) {
        return;
      }
      t.accepted := true;
      React(t, s, e, id, now);
    }

    /** The `switch` of `onReply`. */
    method React(t: Effects, s: SagaInstance, e: Envelope, id: Uuid, now: int)
      requires Accepts(s.Now(), e) && t.commands == [] && t.accepted
      modifies t, s
      ensures Made(s, t) == Replied(old(s.Now()), e, id, now, settings).(accepted := true)
    {
      hide BuildCommand, StepOf, Accepts, SagaModel.Enter, SagaModel.Failed, SagaModel.Finish;
      var cause := e.messageId;
      match e.reply {
        case InventoryReserved => Enter(t, s, AUTHORIZING_PAYMENT, cause, id, now);
        case InventoryRejected(reason) =>
          Failed(s, reason);
          Enter(t, s, CANCELING_ORDER, cause, id, now);
        case PaymentAuthorized(paymentId) =>
          s.paymentId := paymentId;
          Enter(t, s, if s.order.physical then CREATING_SHIPMENT else CONFIRMING_ORDER, cause, id, now);
        case PaymentFailed(reason) =>
          Failed(s, if reason == "DECLINED" then "PAYMENT_DECLINED" else reason);
          Enter(t, s, RELEASING_INVENTORY, cause, id, now);
        case ShipmentCreated(shipmentId, tracking) =>
          s.shipmentId := shipmentId;
          s.tracking := tracking;
          Enter(t, s, CONFIRMING_ORDER, cause, id, now);
        case ShipmentFailed(reason) =>
          Failed(s, if reason == ALREADY_COMPENSATED then reason else "SHIPMENT_FAILED");
          Enter(t, s, REFUNDING_PAYMENT, cause, id, now);
        case ShipmentCanceled => Enter(t, s, REFUNDING_PAYMENT, cause, id, now);
        case PaymentRefunded => Enter(t, s, RELEASING_INVENTORY, cause, id, now);
        case InventoryReleased => Enter(t, s, CANCELING_ORDER, cause, id, now);
        case OrderConfirmed => Finish(t, s, COMPLETED);
        case OrderCanceled => Finish(t, s, CANCELED);
      }
    }

    /** `onTick`: a retry that is due goes before a deadline. */
    method OnTick(s: SagaInstance, id: Uuid, now: int) returns (t: Effects)
      modifies s
      ensures fresh(t)
      ensures Made(s, t) == SagaModel.OnTick(old(s.Now()), id, now, settings)
    {
      t := new Effects();
      if KindOf(s.status).TERMINAL? {
        return;
      }
      if s.nextRetryAt.Some? && s.nextRetryAt.value <= now {
        s.attempt := s.attempt + 1;
        s.nextRetryAt := None;
        s.deadlineAt := Some(now + settings.stepTimeoutMs);
        t.stateChanged := true;
        t.commands := t.commands + [BuildCommand(s.Now())];
        return;
      }
      if s.deadlineAt.None? || s.deadlineAt.value > now {
        return;
      }
      t.stateChanged := true;
      s.deadlineAt := None;
      if KindOf(s.status).ACTION? {
        if s.attempt <= settings.stepMaxRetries {
          s.nextRetryAt := Some(now + Backoff(settings, s.attempt, LONG_MAX));
        } else {
          s.failureReason := Some(STEP_TIMEOUT);
          s.failedStep := Some(StepOf(s.status));
          Enter(t, s, CompensationOnTimeout(s.status), s.lastCommandId, id, now);
        }
      } else {
        s.nextRetryAt := Some(now + Backoff(settings, s.attempt, settings.compensationBackoffMaxMs));
      }
    }

    /** `resumeAfterRestart`: a new deadline at most, never a command. */
    method ResumeAfterRestart(s: SagaInstance, now: int) returns (t: Effects)
      modifies s
      ensures fresh(t)
      ensures Made(s, t) == Resumed(old(s.Now()), now, settings)
    {
      t := new Effects();
      if KindOf(s.status).TERMINAL? || s.deadlineAt.None? {
        return;
      }
      var rearmed := now + settings.stepTimeoutMs;
      if s.deadlineAt.value >= rearmed {
        return;
      }
      s.deadlineAt := Some(rearmed);
      t.stateChanged := true;
    }
  }
}
