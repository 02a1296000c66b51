/** Why a checkout fails, over every run: what a canceled order is told, and which routes an order can never take. */
module SagaReasons {
  import opened Prelude
  import opened SagaModel
  import opened P = SagaParticipants
  import opened SagaRuns
  import opened SagaSends
  import A = StockAllocator
  import I = InventoryModel
  import H = InventoryHistory
  import R = InventoryReplies

  // ---------------------------------------------------------------- digital orders

  /** No command to ship, nor to call a shipment off. */
  predicate NothingShipped(sent: seq<Command>) {
    forall c <- sent :: !c.body.Create? && !c.body.CancelShipment?
  }

  predicate IsDigital(w: World) {
    && NothingShipped(w.sent)
    && (w.saga.Some? ==> !w.saga.value.order.physical
                         && !w.saga.value.status.CREATING_SHIPMENT? && !w.saga.value.status.CANCELING_SHIPMENT?)
  }

  lemma NextKeepsDigital(x: Setup, w: World, a: Action)
    requires !x.order.physical && IsDigital(w)
    ensures IsDigital(Next(x, w, a))
  {
    hide Backoff, IsPublished;
    if a.Deliver? {
      DeliveriesKeepSaga(x, w, a.command, a.id, a.seen, a.tracking);
      hide Delivered;
    }
  }

  lemma {:induction false} ExecKeepsDigital(x: Setup, w: World, actions: seq<Action>)
    requires Initial(x, w) && !x.order.physical
    ensures IsDigital(Exec(x, w, actions))
    decreases |actions|
  {
    hide Next;
    if actions != [] {
      ExecKeepsDigital(x, w, actions[..|actions| - 1]);
      NextKeepsDigital(x, Exec(x, w, actions[..|actions| - 1]), actions[|actions| - 1]);
    }
  }

  /** In every run of a digital order, nothing is ever shipped, called off, or asked of the carrier. */
  lemma DigitalNeverShips(x: Setup, w: World, actions: seq<Action>)
    requires Initial(x, w) && !x.order.physical
    ensures var after := Exec(x, w, actions); NothingShipped(after.sent) && after.shipment.None?
  {
    hide Exec, Initial, H.History;
    ExecKeepsDigital(x, w, actions);
    ExecKeepsInv(x, w, actions);
  }

  // ---------------------------------------------------------------- the reason of a failure

  predicate IsForward(status: Status) {
    status in {RESERVING_INVENTORY, AUTHORIZING_PAYMENT, CREATING_SHIPMENT, CONFIRMING_ORDER, COMPLETED}
  }

  /** A command of some kind was sent as often as the settings allow. */
  ghost predicate IsExhausted(x: Setup, w: World, k: int) {
    exists c <- w.sent :: Rank(c.body) == k && multiset(w.sent)[c] == MostSends(x.settings)
  }

  /** The inventory rejected the order, and why. */
  predicate RejectedFor(x: Setup, w: World, reason: string) {
    && x.orderId in w.inventory.reservations
    && var r := w.inventory.reservations[x.orderId];
       && r.status == I.REJECTED && r.rejection.Some?
       && match r.rejection.value.reason
          case OUT_OF_STOCK => reason == "OUT_OF_STOCK"
          case UNKNOWN_SKU => reason == "UNKNOWN_SKU"
          case ALREADY_COMPENSATED => false
  }

  /** The step that failed is the last one that was tried, and the reason is what became of it. */
  ghost predicate Explains(x: Setup, w: World, step: Step, reason: string) {
    match step
    case INVENTORY =>
      && !Sent(w, 1) && !Sent(w, 2)
      && if reason == "STEP_TIMEOUT" then IsExhausted(x, w, 0) else RejectedFor(x, w, reason)
    case PAYMENT =>
      && Sent(w, 1) && !Sent(w, 2)
      && if reason == "STEP_TIMEOUT" then IsExhausted(x, w, 1)
         else reason == "PAYMENT_DECLINED" && w.payment.Some? && w.payment.value.status == DECLINED
    case SHIPPING =>
      && Sent(w, 2)
      && if reason == "STEP_TIMEOUT" then IsExhausted(x, w, 2)
         else reason == "SHIPMENT_FAILED" && w.shipment.Some? && w.shipment.value.status == FAILED
    case ORDER => false
  }

  ghost predicate ReasonOk(x: Setup, w: World, s: Instance) {
    if IsForward(s.status) then s.failureReason == None && s.failedStep == None
    else s.failureReason.Some? && s.failedStep.Some? && Explains(x, w, s.failedStep.value, s.failureReason.value)
  }

  /** Compensations and the cancelation carry the saga's reason. */
  predicate CarriesReason(s: Instance, body: Body) {
    match body
    case CancelShipment(reason) => reason == s.failureReason
    case Refund(reason) => reason == s.failureReason
    case Release(reason) => reason == s.failureReason
    case CancelOrder(reason, failedStep) => reason == s.failureReason && failedStep == s.failedStep
    case _ => true
  }

  /** A refusal is that of the row, or comes from a compensation. */
  predicate RefusalOk(w: World, reply: Reply) {
    match reply
    case PaymentFailed(reason) =>
      && w.payment.Some?
      && ((w.payment.value.status == DECLINED && reason == "DECLINED")
          || (w.payment.value.status == REFUNDED && reason == "ALREADY_COMPENSATED"))
    case ShipmentFailed(reason) =>
      && w.shipment.Some?
      && (w.shipment.value.status == FAILED || w.shipment.value.status == CALLED_OFF)
      && (reason == "ALREADY_COMPENSATED" ==> w.shipment.value.status == CALLED_OFF)
    case _ => true
  }

  /** A carrier's refusal has its own reason. */
  predicate CarrierOk(w: World) {
    w.shipment.Some? && w.shipment.value.status == FAILED ==> w.shipment.value.reason != "ALREADY_COMPENSATED"
  }

  /** The order's own rejection is that of the stock check or of a simulation. */
  predicate OwnRejection(x: Setup, w: World) {
    x.orderId in w.inventory.reservations && w.inventory.reservations[x.orderId].status == I.REJECTED ==>
      && w.inventory.reservations[x.orderId].rejection.Some?
      && w.inventory.reservations[x.orderId].rejection.value.reason != A.ALREADY_COMPENSATED
  }

  predicate RowsOk(x: Setup, w: World) {
    && OwnRejection(x, w) && CarrierOk(w) && (forall a <- w.answers :: RefusalOk(w, a.reply))
    && (w.order.CANCELED? ==> SentBody(w, CancelOrder(w.order.reason, w.order.failedStep)))
  }

  ghost predicate Reasoned(x: Setup, w: World) {
    && RowsOk(x, w)
    && (w.saga.Some? ==>
         ReasonOk(x, w, w.saga.value) && forall c <- w.sent :: CarriesReason(w.saga.value, c.body))
  }

  // ---------------------------------------------------------------- deliveries

  lemma OwnRow(x: Setup, db: I.Db, e: I.Event)
    requires H.History(db)
    ensures var after := I.Step(db, e).reservations;
            && (x.orderId in db.reservations && db.reservations[x.orderId].status == I.REJECTED ==>
                 && x.orderId in after && after[x.orderId].status == I.REJECTED
                 && after[x.orderId].rejection == db.reservations[x.orderId].rejection)
            && (x.orderId in after && after[x.orderId].status == I.REJECTED ==>
                 || (x.orderId in db.reservations && db.reservations[x.orderId].status == I.REJECTED)
                 || (after[x.orderId].rejection.Some?
                     && after[x.orderId].rejection.value.reason != A.ALREADY_COMPENSATED))
  {
    H.StepMovesForward(db, e);
    hide H.History, I.Executed, I.CreditAll;
    if e.command.Reserve? && x.orderId == e.command.orderId && x.orderId !in db.reservations && I.Commits(db, e) {
      FirstRejection(db, e.command, e.rid, e.seen);
    }
  }

  lemma FirstRejection(db: I.Db, c: I.Command, rid: Uuid, seen: map<I.Skus.Sku, int>)
    requires c.Reserve? && c.orderId !in db.reservations && I.Handle(db, c, rid, seen).Ok?
    ensures var after := I.Handle(db, c, rid, seen).value.reservations;
            && c.orderId in after
            && (after[c.orderId].status == I.REJECTED ==>
                 && after[c.orderId].rejection.Some?
                 && after[c.orderId].rejection.value.reason != A.ALREADY_COMPENSATED)
  {
    assert A.Normalized(c.lines).Some?;
    var items := A.Normalized(c.lines).value;
    R.FirstReserve(db, c, rid, seen, items);
    hide I.Handle, A.Normalized, R.Took, R.ListsShort, R.ListsUnknown, R.QuotesSeen, R.IsShort, R.Balances;
  }

  lemma PaymentReason(w: World, simulate: Option<string>, id: Uuid)
    ensures forall e <- [Authorizing(w.payment, simulate, id), Refunding(w.payment)] ::
              && (w.payment.Some? && w.payment.value.status == DECLINED ==> e.row.status == DECLINED)
              && (w.payment.Some? && w.payment.value.status == REFUNDED ==> e.row.status == REFUNDED)
              && (e.reply.Some? ==> RefusalOk(w.(payment := Some(e.row)), e.reply.value))
  {
  }

  lemma ShipmentReason(w: World, valid: bool, simulate: Option<string>, id: Uuid, tracking: string)
    requires CarrierOk(w)
    ensures forall e <- [Creating(w.shipment, valid, simulate, id, tracking), CallingOff(w.shipment)] ::
              && (w.shipment.Some? && w.shipment.value.status == FAILED ==> e.row.status == FAILED)
              && (w.shipment.Some? && w.shipment.value.status == CALLED_OFF ==> e.row.status == CALLED_OFF)
              && CarrierOk(w.(shipment := Some(e.row)))
              && (e.reply.Some? ==> RefusalOk(w.(shipment := Some(e.row)), e.reply.value))
  {
  }

  /** A refusal that a row records stays recorded. */
  ghost predicate Persist(x: Setup, w: World, after: World) {
    && (w.payment.Some? && w.payment.value.status == DECLINED ==>
         after.payment.Some? && after.payment.value.status == DECLINED)
    && (w.shipment.Some? && w.shipment.value.status == FAILED ==>
         after.shipment.Some? && after.shipment.value.status == FAILED)
    && forall reason :: RejectedFor(x, w, reason) ==> RejectedFor(x, after, reason)
  }

  lemma InventoryRows(x: Setup, w: World, e: I.Event)
    requires H.History(w.inventory) && RowsOk(x, w)
    ensures var after := w.(inventory := I.Step(w.inventory, e)); RowsOk(x, after) && Persist(x, w, after)
  {
    OwnRow(x, w.inventory, e);
    hide I.Step, H.History;
    var after := w.(inventory := I.Step(w.inventory, e));
    SameSent(w, after);
    assert forall a <- w.answers :: RefusalOk(after, a.reply) == RefusalOk(w, a.reply);
  }

  lemma PaymentRows(x: Setup, w: World, c: Command, e: P.Effect<Payment>)
    requires RowsOk(x, w)
    requires w.payment.Some? && w.payment.value.status == DECLINED ==> e.row.status == DECLINED
    requires w.payment.Some? && w.payment.value.status == REFUNDED ==> e.row.status == REFUNDED
    requires e.reply.Some? ==> RefusalOk(w.(payment := Some(e.row)), e.reply.value)
    ensures var after := w.(payment := Some(e.row), answers := Answered(w, c, e.reply));
            RowsOk(x, after) && Persist(x, w, after)
  {
    var after := w.(payment := Some(e.row), answers := Answered(w, c, e.reply));
    SameSent(w, after);
    hide Sent, SentBody;
    forall a <- after.answers ensures RefusalOk(after, a.reply) {
      assert a in w.answers ==> RefusalOk(w, a.reply);
    }
  }

  lemma ShipmentRows(x: Setup, w: World, c: Command, e: P.Effect<Shipment>)
    requires RowsOk(x, w) && CarrierOk(w.(shipment := Some(e.row)))
    requires w.shipment.Some? && w.shipment.value.status == FAILED ==> e.row.status == FAILED
    requires w.shipment.Some? && w.shipment.value.status == CALLED_OFF ==> e.row.status == CALLED_OFF
    requires e.reply.Some? ==> RefusalOk(w.(shipment := Some(e.row)), e.reply.value)
    ensures var after := w.(shipment := Some(e.row), answers := Answered(w, c, e.reply));
            RowsOk(x, after) && Persist(x, w, after)
  {
    var after := w.(shipment := Some(e.row), answers := Answered(w, c, e.reply));
    SameSent(w, after);
    hide Sent, SentBody;
    forall a <- after.answers ensures RefusalOk(after, a.reply) {
      assert a in w.answers ==> RefusalOk(w, a.reply);
    }
  }

  lemma OrderRows(x: Setup, w: World, c: Command, to: OrderStatus)
    requires RowsOk(x, w) && to != PENDING
    requires to.CANCELED? ==> SentBody(w, CancelOrder(to.reason, to.failedStep))
    ensures var order := Settled(w.order, to);
            var after := w.(order := order, answers := Answered(w, c, Some(OrderReply(order))));
            RowsOk(x, after) && Persist(x, w, after)
  {
    var order := Settled(w.order, to);
    var after := w.(order := order, answers := Answered(w, c, Some(OrderReply(order))));
    SameSent(w, after);
    hide SentBody;
    forall a <- after.answers ensures RefusalOk(after, a.reply) {
      assert a in w.answers ==> RefusalOk(w, a.reply);
    }
  }

  /** Commands to payment and shipping. */
  lemma PaidOrShippedRows(x: Setup, w: World, c: Command, id: Uuid, seen: map<I.Skus.Sku, int>, tracking: string)
    requires RowsOk(x, w) && CarrierOk(w)
    requires c.body.Authorize? || c.body.Refund? || c.body.Create? || c.body.CancelShipment?
    ensures var after := Delivered(x, w, c, id, seen, tracking); RowsOk(x, after) && Persist(x, w, after)
  {
    hide RowsOk, Persist, RefusalOk, CarrierOk, I.Step, Settled, OrderReply, Answered;
    hide Authorizing, Refunding, Creating, CallingOff;
    match c.body
    case Authorize(simulate) =>
      PaymentReason(w, simulate, id);
      PaymentRows(x, w, c, Authorizing(w.payment, simulate, id));
    case Refund(_) =>
      PaymentReason(w, None, id);
      PaymentRows(x, w, c, Refunding(w.payment));
    case Create(valid, simulate) =>
      ShipmentReason(w, valid, simulate, id, tracking);
      ShipmentRows(x, w, c, Creating(w.shipment, valid, simulate, id, tracking));
    case CancelShipment(_) =>
      ShipmentReason(w, false, None, id, tracking);
      ShipmentRows(x, w, c, CallingOff(w.shipment));
  }

  lemma DeliveredRows(x: Setup, w: World, c: Command, id: Uuid, seen: map<I.Skus.Sku, int>, tracking: string)
    requires H.History(w.inventory) && RowsOk(x, w) && c in w.sent
    ensures var after := Delivered(x, w, c, id, seen, tracking); RowsOk(x, after) && Persist(x, w, after)
  {
    assert CarrierOk(w) && SentBody(w, c.body);
    hide RowsOk, Persist, H.History, RefusalOk, CarrierOk, SentBody, I.Step, Settled, OrderReply, Answered;
    hide Authorizing, Refunding, Creating, CallingOff;
    match c.body
    case Reserve(_, _) => InventoryRows(x, w, I.Event(ForInventory(x, c), id, seen));
    case Release(_) => InventoryRows(x, w, I.Event(ForInventory(x, c), id, seen));
    case Confirm(paymentId, shipmentId, tracking') =>
      OrderRows(x, w, c, CONFIRMED(paymentId, shipmentId, tracking'));
    case CancelOrder(reason, failedStep) => OrderRows(x, w, c, OrderStatus.CANCELED(reason, failedStep));
    case _ => PaidOrShippedRows(x, w, c, id, seen, tracking);
  }

  /** A reason that explains goes on to. */
  lemma StillExplains(x: Setup, w: World, after: World)
    requires Persist(x, w, after) && after.sent == w.sent && after.saga == w.saga
    ensures forall step, reason :: Explains(x, w, step, reason) ==> Explains(x, after, step, reason)
  {
    SameSent(w, after);
    hide Sent, RejectedFor;
  }

  lemma DeliveryReasoned(x: Setup, w: World, c: Command, id: Uuid, seen: map<I.Skus.Sku, int>, tracking: string)
    requires H.History(w.inventory) && Reasoned(x, w) && c in w.sent
    ensures Reasoned(x, Delivered(x, w, c, id, seen, tracking))
  {
    hide RowsOk, Explains, H.History, Persist;
    var after := Delivered(x, w, c, id, seen, tracking);
    DeliveredRows(x, w, c, id, seen, tracking);
    DeliveriesKeepSaga(x, w, c, id, seen, tracking);
    hide Delivered;
    StillExplains(x, w, after);
  }

  lemma ElsewhereReasoned(x: Setup, w: World, e: I.Event)
    requires H.History(w.inventory) && Reasoned(x, w)
    ensures Reasoned(x, w.(inventory := I.Step(w.inventory, e)))
  {
    hide RowsOk, Explains, H.History, Persist, I.Step;
    InventoryRows(x, w, e);
    StillExplains(x, w, w.(inventory := I.Step(w.inventory, e)));
  }

  // ---------------------------------------------------------------- transitions

  /** One more command, of another kind than the actions: what explains a failure stays. */
  lemma MoreExplains(x: Setup, w: World, after: World, c: Command)
    requires after == w.(saga := after.saga, sent := w.sent + [c]) && Rank(c.body) >= 3
    ensures forall step, reason :: Explains(x, w, step, reason) ==> Explains(x, after, step, reason)
    ensures forall k :: k < 3 && IsExhausted(x, w, k) ==> IsExhausted(x, after, k)
  {
    SentGrows(w, after, c);
    OneMore(w.sent, c);
    hide Sent;
    forall k | k < 3 && IsExhausted(x, w, k) ensures IsExhausted(x, after, k) {
      var d :| d in w.sent && Rank(d.body) == k && multiset(w.sent)[d] == MostSends(x.settings);
      assert d in after.sent && multiset(after.sent)[d] == multiset(w.sent)[d];
    }
    hide IsExhausted, Rank;
  }

  /** The rows are read, not written, by a transition. */
  lemma AppliedRows(x: Setup, w: World, t: Transition)
    requires RowsOk(x, w)
    ensures RowsOk(x, Applied(w, t))
  {
    var after := Applied(w, t);
    assert forall a <- w.answers :: RefusalOk(after, a.reply) == RefusalOk(w, a.reply);
    assert forall c <- w.sent :: c in after.sent;
  }

  lemma SameMeaning(x: Setup, w: World, after: World)
    requires after == w.(saga := after.saga)
    ensures forall step, reason :: Explains(x, w, step, reason) ==> Explains(x, after, step, reason)
  {
    SameSent(w, after);
    hide Sent;
  }

  /** A transition that neither fails nor recovers. */
  lemma Continues(x: Setup, w: World, t: Transition)
    requires Reasoned(x, w) && w.saga.Some?
    requires var s := w.saga.value;
             && t.saga.failureReason == s.failureReason && t.saga.failedStep == s.failedStep
             && IsForward(t.saga.status) == IsForward(s.status)
    requires || t.commands == []
             || (!KindOf(t.saga.status).TERMINAL? && t.commands == [BuildCommand(t.saga)])
    ensures Reasoned(x, Applied(w, t))
  {
    hide RowsOk, Explains;
    AppliedRows(x, w, t);
    var after := Applied(w, t);
    if t.commands == [] {
      assert after.sent == w.sent;
      SameMeaning(x, w, after);
    } else {
      var c := t.commands[0];
      assert CarriesReason(t.saga, c.body);
      if !IsForward(t.saga.status) {
        MoreExplains(x, w, after, c);
      }
    }
  }

  /** Why the step in hand has failed. */
  ghost predicate HasFailed(x: Setup, w: World, reason: string)
    requires w.saga.Some?
  {
    match StepOf(w.saga.value.status)
    case INVENTORY => RejectedFor(x, w, reason)
    case PAYMENT => reason == "PAYMENT_DECLINED" && w.payment.Some? && w.payment.value.status == DECLINED
    case SHIPPING => reason == "SHIPMENT_FAILED" && w.shipment.Some? && w.shipment.value.status == FAILED
    case ORDER => false
  }

  /** The step in hand is the last one that has been tried, and its command may be exhausted. */
  lemma LastTried(x: Setup, w: World)
    requires Inv(x, w) && SendsOk(x, w) && w.saga.Some? && KindOf(w.saga.value.status).ACTION?
    ensures var s := w.saga.value;
            && (s.status.RESERVING_INVENTORY? ==> !Sent(w, 1) && !Sent(w, 2))
            && (s.status.AUTHORIZING_PAYMENT? ==> Sent(w, 1) && !Sent(w, 2))
            && (s.status.CREATING_SHIPMENT? ==> Sent(w, 2))
            && (s.attempt == MostSends(x.settings) ==> IsExhausted(x, w, StatusRank(s.status)))
            && forall c <- w.sent :: CarriesReason(s, c.body)
  {
    var s := w.saga.value;
    NotYetSent(w, s);
    var c := LastSent(x, w);
    hide SentOk, Known, Caused, IsTrue, MostSends;
  }

  lemma Fails(x: Setup, w: World, t: Transition, reason: string)
    requires Inv(x, w) && SendsOk(x, w) && Reasoned(x, w) && w.saga.Some? && KindOf(w.saga.value.status).ACTION?
    requires t.saga.failureReason == Some(reason) && t.saga.failedStep == Some(StepOf(w.saga.value.status))
    requires !IsForward(t.saga.status) && !KindOf(t.saga.status).TERMINAL? && t.commands == [BuildCommand(t.saga)]
    requires if reason == "STEP_TIMEOUT" then w.saga.value.attempt == MostSends(x.settings) else HasFailed(x, w, reason)
    ensures Reasoned(x, Applied(w, t))
  {
    FailureExplains(x, w, reason);
    NoReasonYet(x, w, t);
    hide Inv, SendsOk, RowsOk, Explains, MostSends, HasFailed, CarriesReason, Applied;
    FailureIsApplied(x, w, t, reason);
  }

  lemma FailureIsApplied(x: Setup, w: World, t: Transition, reason: string)
    requires RowsOk(x, w) && w.saga.Some? && Explains(x, w, StepOf(w.saga.value.status), reason)
    requires forall c <- w.sent :: CarriesReason(t.saga, c.body)
    requires t.saga.failureReason == Some(reason) && t.saga.failedStep == Some(StepOf(w.saga.value.status))
    requires !IsForward(t.saga.status) && !KindOf(t.saga.status).TERMINAL? && t.commands == [BuildCommand(t.saga)]
    ensures Reasoned(x, Applied(w, t))
  {
    hide RowsOk, Explains;
    AppliedRows(x, w, t);
    var after, c := Applied(w, t), t.commands[0];
    assert CarriesReason(t.saga, c.body);
    MoreExplains(x, w, after, c);
  }

  lemma FailureExplains(x: Setup, w: World, reason: string)
    requires Inv(x, w) && SendsOk(x, w) && w.saga.Some? && KindOf(w.saga.value.status).ACTION?
    requires if reason == "STEP_TIMEOUT" then w.saga.value.attempt == MostSends(x.settings) else HasFailed(x, w, reason)
    ensures Explains(x, w, StepOf(w.saga.value.status), reason)
  {
    LastTried(x, w);
    hide Inv, SendsOk, RejectedFor, MostSends, IsExhausted, Sent;
  }

  /** What has been sent so far carries no reason. */
  lemma NoReasonYet(x: Setup, w: World, t: Transition)
    requires Inv(x, w) && w.saga.Some? && KindOf(w.saga.value.status).ACTION?
    ensures forall c <- w.sent :: CarriesReason(t.saga, c.body)
  {
    hide Known, Caused, IsTrue;
  }

  /** An accepted rejection, with the row that it comes from. */
  lemma RejectionIsReal(x: Setup, w: World, e: Envelope)
    requires Inv(x, w) && Reasoned(x, w) && w.saga.Some? && Accepts(w.saga.value, e)
    requires IsPublished(x, w, e.causationId, e.reply)
    ensures e.reply.InventoryRejected? ==> RejectedFor(x, w, e.reply.reason)
    ensures e.reply.PaymentFailed? ==>
              e.reply.reason == "DECLINED" && w.payment.Some? && w.payment.value.status == DECLINED
    ensures e.reply.ShipmentFailed? ==>
              e.reply.reason != "ALREADY_COMPENSATED" && w.shipment.Some? && w.shipment.value.status == FAILED
  {
    NotYetSent(w, w.saga.value);
    StillDone(x, w);
    hide Known, IsTrue, MayHaveSent, ReasonOk, CarriesReason, Sent;
    if Answer(e.causationId, e.reply) in w.answers {
      assert RefusalOk(w, Answer(e.causationId, e.reply).reply);
    } else {
      var i :| 0 <= i < |w.inventory.outbox| && IsAnswer(x, w.inventory.outbox[i], e.causationId, e.reply);
      assert H.ReplyHolds(w.inventory.outbox[i], w.inventory.reservations);
    }
  }

  predicate IsRejection(reply: Reply) {
    reply.InventoryRejected? || reply.PaymentFailed? || reply.ShipmentFailed?
  }

  /** An accepted reply that rejects fails the step in hand; any other one goes on. */
  lemma ReplyShape(s: Instance, e: Envelope, id: Uuid, now: int, settings: Settings)
    requires Accepts(s, e)
    requires e.reply.PaymentFailed? ==> e.reply.reason == "DECLINED"
    requires e.reply.ShipmentFailed? ==> e.reply.reason != "ALREADY_COMPENSATED"
    ensures var t := Replied(s, e, id, now, settings);
            && (t.commands == [] || (!KindOf(t.saga.status).TERMINAL? && t.commands == [BuildCommand(t.saga)]))
            && if IsRejection(e.reply) then
                 && KindOf(s.status).ACTION? && !IsForward(t.saga.status) && t.commands != []
                 && t.saga.failedStep == Some(StepOf(s.status)) && StepOf(s.status) != ORDER
                 && t.saga.failureReason == Some(if e.reply.InventoryRejected? then e.reply.reason
                                                 else if e.reply.PaymentFailed? then "PAYMENT_DECLINED"
                                                 else "SHIPMENT_FAILED")
                 && (e.reply.InventoryRejected? <==> StepOf(s.status) == INVENTORY)
                 && (e.reply.PaymentFailed? <==> StepOf(s.status) == PAYMENT)
               else
                 && t.saga.failureReason == s.failureReason && t.saga.failedStep == s.failedStep
                 && IsForward(t.saga.status) == IsForward(s.status)
  {
    hide BuildCommand;
  }

  lemma HearReasoned(x: Setup, w: World, e: Envelope, id: Uuid, now: int)
    requires Inv(x, w) && SendsOk(x, w) && Reasoned(x, w) && w.saga.Some?
    requires IsPublished(x, w, e.causationId, e.reply)
    ensures Reasoned(x, Applied(w, OnReply(w.saga.value, e, id, now, x.settings)))
  {
    hide Inv, SendsOk, Reasoned, IsPublished, RejectedFor, Replied, BuildCommand;
    var s := w.saga.value;
    var t := OnReply(s, e, id, now, x.settings);
    if Accepts(s, e) {
      RejectionIsReal(x, w, e);
      ReplyShape(s, e, id, now, x.settings);
      hide Accepts, IsForward;
      if IsRejection(e.reply) {
        if e.reply.InventoryRejected? {
          KnownReasons(x, w, e.reply.reason);
        }
        Fails(x, w, t, t.saga.failureReason.value);
      } else {
        Continues(x, w, t);
      }
    } else {
      Continues(x, w, t);
    }
  }

  lemma KnownReasons(x: Setup, w: World, reason: string)
    requires RejectedFor(x, w, reason)
    ensures reason == "OUT_OF_STOCK" || reason == "UNKNOWN_SKU"
  {
  }

  lemma TickReasoned(x: Setup, w: World, id: Uuid, now: int)
    requires Inv(x, w) && SendsOk(x, w) && Reasoned(x, w) && w.saga.Some?
    ensures Reasoned(x, Applied(w, OnTick(w.saga.value, id, now, x.settings)))
  {
    var s := w.saga.value;
    var t := OnTick(s, id, now, x.settings);
    assert RetriesOk(x, s);
    hide Inv, SendsOk, Reasoned, Backoff;
    if t.saga.status == s.status {
      Continues(x, w, t);
    } else {
      Fails(x, w, t, "STEP_TIMEOUT");
    }
  }

  lemma BeginReasoned(x: Setup, w: World, messageId: Uuid, id: Uuid, now: int)
    requires Reasoned(x, w) && w.saga.None? && w.sent == []
    ensures Reasoned(x, Applied(w, Start(x.order, messageId, id, now, x.settings)))
  {
    var t := Start(x.order, messageId, id, now, x.settings);
    AppliedRows(x, w, t);
    assert w.sent + t.commands == t.commands;
    hide RowsOk, Explains;
  }

  lemma HandledReasoned(x: Setup, w: World, after: World)
    requires Reasoned(x, w) && after == w.(handled := after.handled)
    ensures Reasoned(x, after)
  {
    SameSent(w, after);
    assert forall a <- w.answers :: RefusalOk(after, a.reply) == RefusalOk(w, a.reply);
    hide Sent;
  }

  lemma NextReasoned(x: Setup, w: World, a: Action)
    requires Inv(x, w) && SendsOk(x, w) && Reasoned(x, w)
    ensures Reasoned(x, Next(x, w, a))
  {
    if Enabled(x, w, a) {
      hide SendsOk, Reasoned, H.History, Caused, IsTrue;
      match a
      case Begin(messageId, id, now) =>
        BeginReasoned(x, w, messageId, id, now);
        HandledReasoned(x, Applied(w, Start(x.order, messageId, id, now, x.settings)), Next(x, w, a));
      case Hear(e, id, now) =>
        HearReasoned(x, w, e, id, now);
        HandledReasoned(x, Applied(w, OnReply(w.saga.value, e, id, now, x.settings)), Next(x, w, a));
      case Tick(id, now) => TickReasoned(x, w, id, now);
      case Resume(now) => ResumeReasoned(x, w, now);
      case Deliver(c, id, seen, tracking) => DeliveryReasoned(x, w, c, id, seen, tracking);
      case Elsewhere(e) => ElsewhereReasoned(x, w, e);
    }
  }

  lemma ResumeReasoned(x: Setup, w: World, now: int)
    requires Reasoned(x, w) && w.saga.Some?
    ensures Reasoned(x, Applied(w, Resumed(w.saga.value, now, x.settings)))
  {
    hide Reasoned;
    Continues(x, w, Resumed(w.saga.value, now, x.settings));
  }

  lemma InitialReasoned(x: Setup, w: World)
    requires Initial(x, w)
    ensures Reasoned(x, w)
  {
  }

  lemma {:induction false} ExecReasoned(x: Setup, w: World, actions: seq<Action>)
    requires Initial(x, w)
    ensures Reasoned(x, Exec(x, w, actions))
    decreases |actions|
  {
    hide Next, Initial, Reasoned, Inv, SendsOk;
    if actions == [] {
      InitialReasoned(x, w);
    } else {
      var front := actions[..|actions| - 1];
      ExecReasoned(x, w, front);
      ExecKeepsInv(x, w, front);
      ExecKeepsSends(x, w, front);
      NextReasoned(x, Exec(x, w, front), actions[|actions| - 1]);
    }
  }

  /**
   * In every run: a saga that goes forward has no reason to fail; one that goes back, and the order it cancels, has
   * the step that failed, which is the last one tried, and what became of it: the inventory's rejection as its row
   * has it, a payment declined, a shipment refused, or a timeout, which comes only once the command has been sent as
   * often as the settings allow. No checkout fails because it has been compensated.
   */
  lemma FailuresAreExplained(x: Setup, w: World, actions: seq<Action>)
    requires Initial(x, w)
    ensures var after := Exec(x, w, actions);
            && (after.saga.Some? ==>
                 var s := after.saga.value;
                 if IsForward(s.status) then s.failureReason == None && s.failedStep == None
                 else s.failureReason.Some? && s.failedStep.Some?
                      && Explains(x, after, s.failedStep.value, s.failureReason.value))
            && (after.order.CANCELED? ==>
                 && after.saga.Some? && after.order.reason == after.saga.value.failureReason
                 && after.order.failedStep == after.saga.value.failedStep)
  {
    hide Exec, Initial, Explains, MayHaveSent, Known, IsTrue, H.History;
    ExecReasoned(x, w, actions);
    ExecKeepsInv(x, w, actions);
  }

  /** The wording of a failure: the step that was tried, and the reason as given or the one for all carriers. */
  lemma RejectionRecords(s: Instance, e: Envelope, id: Uuid, now: int, settings: Settings)
    requires Accepts(s, e) && IsRejection(e.reply)
    ensures var after := Replied(s, e, id, now, settings).saga;
            && (e.reply.InventoryRejected? ==>
                 after.failedStep == Some(INVENTORY) && after.failureReason == Some(e.reply.reason))
            && (e.reply.PaymentFailed? ==>
                 && after.failedStep == Some(PAYMENT)
                 && (e.reply.reason == "DECLINED" ==> after.failureReason == Some("PAYMENT_DECLINED"))
                 && (e.reply.reason != "DECLINED" ==> after.failureReason == Some(e.reply.reason)))
            && (e.reply.ShipmentFailed? ==>
                 && after.failedStep == Some(SHIPPING)
                 && (e.reply.reason == "ALREADY_COMPENSATED" <==> after.failureReason == Some("ALREADY_COMPENSATED"))
                 && (e.reply.reason != "ALREADY_COMPENSATED" ==> after.failureReason == Some("SHIPMENT_FAILED")))
  {
    hide BuildCommand;
  }
}
