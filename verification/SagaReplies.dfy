/** What payment and shipping store and answer, from the commands of one order alone. */
module SagaReplies {
  import opened Prelude
  import opened SagaModel
  import opened P = SagaParticipants

  // ---------------------------------------------------------------- payment

  /** `payment.authorize`, with the id the gateway would give it, and `payment.refund`. */
  datatype PaymentCommand = Pay(simulate: Option<string>, id: Uuid) | GiveBack

  function PaymentStep(row: Option<Payment>, c: PaymentCommand): P.Effect<Payment> {
    match c
    case Pay(simulate, id) => Authorizing(row, simulate, id)
    case GiveBack => Refunding(row)
  }

  /** The order's payment row after its commands. */
  function PaymentRow(commands: seq<PaymentCommand>): Option<Payment> {
    if commands == [] then None
    else Some(PaymentStep(PaymentRow(commands[..|commands| - 1]), commands[|commands| - 1]).row)
  }

  /** The answer to the last command. */
  function PaymentAnswer(commands: seq<PaymentCommand>): Option<Reply>
    requires commands != []
  {
    PaymentStep(PaymentRow(commands[..|commands| - 1]), commands[|commands| - 1]).reply
  }

  /** The refund came first, or came after a payment that the gateway took. */
  predicate IsGivenBack(commands: seq<PaymentCommand>) {
    commands != [] && (commands[0].GiveBack? || (commands[0].simulate != Some("DECLINE") && GiveBack in commands))
  }

  /** Commands answered or kept silent as attempts at the payment. */
  function Attempts(commands: seq<PaymentCommand>): nat {
    if commands == [] then 0
    else
      var front := commands[..|commands| - 1];
      Attempts(front) + (if commands[|commands| - 1].Pay? && !IsGivenBack(front) then 1 else 0)
  }

  /**
   * After any commands the row is the first one's: a tombstone, a refusal that stays one, or a payment with the id of
   * the first authorization, given back exactly if a refund came.
   */
  lemma {:induction false} PaymentHistory(commands: seq<PaymentCommand>)
    requires commands != []
    ensures var row, first := PaymentRow(commands).value, commands[0];
            && row.attempts == Attempts(commands)
            && if first.GiveBack? then row.paymentId == None && row.status == REFUNDED && row.noop
               else
                 && row.paymentId == Some(first.id) && !row.noop
                 && row.status == if first.simulate == Some("DECLINE") then DECLINED
                                  else if GiveBack in commands then REFUNDED else AUTHORIZED
  {
    var front, last := commands[..|commands| - 1], commands[|commands| - 1];
    if front == [] {
      assert commands == [last];
    } else {
      PaymentHistory(front);
      assert commands == front + [last];
    }
  }

  /**
   * What the last command is told: nothing for a simulated timeout, nor for the first attempt of one that happens once;
   * otherwise what the first command made of the payment. A payment given back is refused whatever is simulated.
   */
  lemma PaymentReplies(commands: seq<PaymentCommand>)
    requires commands != []
    ensures var answer, last, first := PaymentAnswer(commands), commands[|commands| - 1], commands[0];
            if last.GiveBack? then answer == Some(PaymentRefunded)
            else if IsGivenBack(commands[..|commands| - 1]) then answer == Some(PaymentFailed("ALREADY_COMPENSATED"))
            else if last.simulate == Some("TIMEOUT") then answer == None
            else if last.simulate == Some("TIMEOUT_ONCE") && |commands| == 1 then answer == None
            else if first.simulate == Some("DECLINE") then answer == Some(PaymentFailed("DECLINED"))
            else answer == Some(PaymentAuthorized(Some(first.id)))
  {
    var front := commands[..|commands| - 1];
    if front != [] {
      PaymentHistory(front);
      if front[0].Pay? {
        AttemptsStart(front);
      }
      assert commands[0] == front[0];
    }
    hide PaymentRow;
  }

  lemma {:induction false} AttemptsStart(commands: seq<PaymentCommand>)
    requires commands != [] && commands[0].Pay?
    ensures Attempts(commands) >= 1
  {
    var front := commands[..|commands| - 1];
    if front != [] {
      AttemptsStart(front);
    }
  }

  // ---------------------------------------------------------------- shipping

  /** `shipping.create`, with what the carrier would give it, and `shipping.cancel`. */
  datatype ShippingCommand = Ship(addressValid: bool, simulate: Option<string>, id: Uuid, tracking: string) | CallOff

  function ShippingStep(row: Option<Shipment>, c: ShippingCommand): P.Effect<Shipment> {
    match c
    case Ship(addressValid, simulate, id, tracking) => Creating(row, addressValid, simulate, id, tracking)
    case CallOff => CallingOff(row)
  }

  function ShipmentRow(commands: seq<ShippingCommand>): Option<Shipment> {
    if commands == [] then None
    else Some(ShippingStep(ShipmentRow(commands[..|commands| - 1]), commands[|commands| - 1]).row)
  }

  function ShippingAnswer(commands: seq<ShippingCommand>): Option<Reply>
    requires commands != []
  {
    ShippingStep(ShipmentRow(commands[..|commands| - 1]), commands[|commands| - 1]).reply
  }

  /** The carrier refuses: as a simulation, or for the address. */
  predicate IsRefused(c: ShippingCommand) {
    c.Ship? && (c.simulate == Some("FAIL") || !c.addressValid)
  }

  predicate IsCalledOff(commands: seq<ShippingCommand>) {
    commands != [] && (commands[0].CallOff? || (!IsRefused(commands[0]) && CallOff in commands))
  }

  function ShippingAttempts(commands: seq<ShippingCommand>): nat {
    if commands == [] then 0
    else
      var front := commands[..|commands| - 1];
      ShippingAttempts(front) + (if commands[|commands| - 1].Ship? && !IsCalledOff(front) then 1 else 0)
  }

  /** The same of a shipment. */
  lemma {:induction false} ShipmentHistory(commands: seq<ShippingCommand>)
    requires commands != []
    ensures var row, first := ShipmentRow(commands).value, commands[0];
            && row.attempts == ShippingAttempts(commands)
            && if first.CallOff? then row.shipmentId == None && row.status == CALLED_OFF && row.noop
               else if IsRefused(first) then
                 && row.shipmentId == None && row.tracking == None && row.status == FAILED && !row.noop
                 && row.reason == if first.simulate == Some("FAIL") then "CARRIER_REJECTED" else "INVALID_ADDRESS"
               else
                 && row.shipmentId == Some(first.id) && row.tracking == Some(first.tracking) && !row.noop
                 && row.status == if CallOff in commands then CALLED_OFF else CREATED
  {
    var front, last := commands[..|commands| - 1], commands[|commands| - 1];
    if front == [] {
      assert commands == [last];
    } else {
      ShipmentHistory(front);
      assert commands == front + [last];
    }
  }

  lemma ShippingReplies(commands: seq<ShippingCommand>)
    requires commands != []
    ensures var answer, last, first := ShippingAnswer(commands), commands[|commands| - 1], commands[0];
            if last.CallOff? then answer == Some(ShipmentCanceled)
            else if IsCalledOff(commands[..|commands| - 1]) then answer == Some(ShipmentFailed("ALREADY_COMPENSATED"))
            else if last.simulate == Some("TIMEOUT") then answer == None
            else if last.simulate == Some("TIMEOUT_ONCE") && |commands| == 1 then answer == None
            else if first.simulate == Some("FAIL") then answer == Some(ShipmentFailed("CARRIER_REJECTED"))
            else if !first.addressValid then answer == Some(ShipmentFailed("INVALID_ADDRESS"))
            else answer == Some(ShipmentCreated(Some(first.id), Some(first.tracking)))
  {
    var front := commands[..|commands| - 1];
    if front != [] {
      ShipmentHistory(front);
      if front[0].Ship? {
        ShippingStart(front);
      }
      assert commands[0] == front[0];
    }
    hide ShipmentRow;
  }

  lemma {:induction false} ShippingStart(commands: seq<ShippingCommand>)
    requires commands != [] && commands[0].Ship?
    ensures ShippingAttempts(commands) >= 1
  {
    var front := commands[..|commands| - 1];
    if front != [] {
      ShippingStart(front);
    }
  }

  // ---------------------------------------------------------------- the order

  /** `order.confirm` and `order.cancel`. */
  datatype OrderCommand =
    | Confirming(paymentId: Option<Uuid>, shipmentId: Option<Uuid>, tracking: Option<string>)
    | Canceling(reason: Option<string>, failedStep: Option<Step>)

  function Wanted(c: OrderCommand): OrderStatus {
    match c
    case Confirming(paymentId, shipmentId, tracking) => CONFIRMED(paymentId, shipmentId, tracking)
    case Canceling(reason, failedStep) => OrderStatus.CANCELED(reason, failedStep)
  }

  /** A pending order after its commands. */
  function OrderAfter(commands: seq<OrderCommand>): OrderStatus {
    if commands == [] then PENDING
    else Settled(OrderAfter(commands[..|commands| - 1]), Wanted(commands[|commands| - 1]))
  }

  /** The first command decides an order for good, and every later one is told what it has decided. */
  lemma {:induction false} FirstCommandDecides(commands: seq<OrderCommand>)
    requires commands != []
    ensures var first := commands[0];
            if first.Confirming? then
              && OrderAfter(commands) == CONFIRMED(first.paymentId, first.shipmentId, first.tracking)
              && OrderReply(OrderAfter(commands)) == OrderConfirmed
            else
              && OrderAfter(commands) == OrderStatus.CANCELED(first.reason, first.failedStep)
              && OrderReply(OrderAfter(commands)) == OrderCanceled
  {
    if |commands| > 1 {
      FirstCommandDecides(commands[..|commands| - 1]);
    } else {
      assert commands[..0] == [];
    }
  }
}
