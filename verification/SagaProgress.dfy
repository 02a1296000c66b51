/** No checkout is stuck: from every state a run can reach, some further steps end it. */
module SagaProgress {
  import opened Prelude
  import opened SagaModel
  import opened SagaParticipants
  import opened SagaRuns
  import opened SagaSends
  import A = StockAllocator
  import I = InventoryModel
  import C = InventoryConservation
  import H = InventoryHistory

  /** Inventory commands of the order and of others, which keep the books. */
  predicate OrderConserves(x: Setup) {
    I.Conserves(I.Reserve(0, x.orderId, x.order.lines, x.order.simulateInventory))
  }

  /** No help from other orders. */
  predicate Alone(actions: seq<Action>) {
    forall a <- actions :: !a.Elsewhere?
  }

  predicate OthersConserve(actions: seq<Action>) {
    forall a <- actions :: a.Elsewhere? ==> I.Conserves(a.event.command)
  }

  predicate Ended(w: World) {
    w.saga.Some? && KindOf(w.saga.value.status).TERMINAL?
  }

  lemma BalancedStep(x: Setup, w: World, seed: I.Stock, a: Action)
    requires C.Balanced(w.inventory, seed) && SendsOk(x, w) && OrderConserves(x)
    requires a.Elsewhere? ==> I.Conserves(a.event.command)
    ensures C.Balanced(Next(x, w, a).inventory, seed)
  {
    hide C.Balanced, SentOk, TimersOk, RetriesOk, InFlight, I.Step, OnReply, OnTick, Start, Resumed;
    if Enabled(x, w, a) {
      if a.Elsewhere? {
        C.StepKeepsBalance(w.inventory, seed, a.event);
      } else if a.Deliver? && (a.command.body.Reserve? || a.command.body.Release?) {
        OwnConserves(x, w, a.command);
        C.StepKeepsBalance(w.inventory, seed, I.Event(ForInventory(x, a.command), a.id, a.seen));
      }
    }
  }

  lemma OwnConserves(x: Setup, w: World, c: Command)
    requires SendsOk(x, w) && OrderConserves(x) && c in w.sent && (c.body.Reserve? || c.body.Release?)
    ensures I.Conserves(ForInventory(x, c))
  {
    hide A.Normalized, I.NonNegative, I.Overflows;
  }

  /** What runs keep, as far as ending needs it. */
  ghost predicate Reached(x: Setup, w: World, seed: I.Stock) {
    Inv(x, w) && SendsOk(x, w) && C.Balanced(w.inventory, seed)
  }

  lemma {:induction false} ExecReaches(x: Setup, w: World, seed: I.Stock, actions: seq<Action>)
    requires Initial(x, w) && C.Balanced(w.inventory, seed) && OrderConserves(x) && OthersConserve(actions)
    ensures Reached(x, Exec(x, w, actions), seed)
    decreases |actions|
  {
    hide Initial, C.Balanced, Inv, SendsOk, OrderConserves, Next;
    if actions == [] {
      ExecKeepsInv(x, w, []);
      ExecKeepsSends(x, w, []);
      assert Exec(x, w, []) == w;
    } else {
      var front := actions[..|actions| - 1];
      ExecReaches(x, w, seed, front);
      NextReaches(x, Exec(x, w, front), seed, actions[|actions| - 1]);
    }
  }

  lemma NextReaches(x: Setup, w: World, seed: I.Stock, a: Action)
    requires Reached(x, w, seed) && OrderConserves(x) && (a.Elsewhere? ==> I.Conserves(a.event.command))
    ensures Reached(x, Next(x, w, a), seed)
  {
    hide C.Balanced, Inv, SendsOk, OrderConserves, Next;
    NextKeepsInv(x, w, a);
    NextKeepsSends(x, w, a);
    BalancedStep(x, w, seed, a);
  }

  // ---------------------------------------------------------------- new ids

  function Above(sent: seq<Command>): (id: Uuid)
    ensures forall c <- sent :: c.messageId < id
  {
    if sent == [] then 0
    else
      var front, last := Above(sent[..|sent| - 1]), sent[|sent| - 1].messageId;
      if last < front then front else last + 1
  }

  lemma {:induction false} Unused(ids: set<Uuid>) returns (id: Uuid)
    ensures forall n <- ids :: n < id
    decreases |ids|
  {
    if ids == {} {
      id := 0;
    } else {
      var n :| n in ids;
      var rest := Unused(ids - {n});
      id := if rest <= n then n + 1 else rest;
      forall m | m in ids ensures m < id {
        assert m != n ==> m in ids - {n};
      }
    }
  }

  // ---------------------------------------------------------------- compensations always answer

  /** A compensation or an end that is delivered is answered. */
  lemma IsAnswered(x: Setup, w: World, seed: I.Stock, c: Command) returns (r: Reply)
    requires Reached(x, w, seed) && w.saga.Some?
    requires KindOf(w.saga.value.status).COMPENSATION? || KindOf(w.saga.value.status).FINALIZATION?
    requires c == BuildCommand(w.saga.value)
    ensures IsPublished(x, Delivered(x, w, c, 0, map[], ""), c.messageId, r) && Expects(w.saga.value.status, r)
  {
    var s := w.saga.value;
    NotYetSent(w, s);
    match s.status
    case CANCELING_SHIPMENT => r := ShipmentCanceled;
    case REFUNDING_PAYMENT => r := PaymentRefunded;
    case CONFIRMING_ORDER => r := OrderConfirmed;
    case CANCELING_ORDER => r := OrderCanceled;
    case RELEASING_INVENTORY =>
      r := InventoryReleased;
      ReleaseAnswers(x, w.inventory, seed, c);
  }

  lemma ReleaseAnswers(x: Setup, db: I.Db, seed: I.Stock, c: Command)
    requires C.Balanced(db, seed) && c.body.Release?
    ensures var after := I.Step(db, I.Event(ForInventory(x, c), 0, map[]));
            exists i :: 0 <= i < |after.outbox| && IsAnswer(x, after.outbox[i], c.messageId, InventoryReleased)
  {
    var e := I.Event(ForInventory(x, c), 0, map[]);
    if x.orderId in db.reservations && db.reservations[x.orderId].status == I.RESERVED {
      C.ReleaseCredits(db, seed, x.orderId);
    }
    hide C.Balanced, I.CreditAll, C.Moved;
    assert I.Commits(db, e);
    var after := I.Step(db, e);
    assert IsAnswer(x, after.outbox[|after.outbox| - 1], c.messageId, InventoryReleased);
  }

  /** Delivering the command and hearing its answer moves a saga on. */
  lemma MovesOn(x: Setup, w: World, seed: I.Stock) returns (actions: seq<Action>)
    requires Reached(x, w, seed) && OrderConserves(x) && w.saga.Some?
    requires KindOf(w.saga.value.status).COMPENSATION? || KindOf(w.saga.value.status).FINALIZATION?
    ensures var after := Exec(x, w, actions);
            && Reached(x, after, seed) && after.saga.Some? && TimeLeft(x, after.saga.value) == 0
            && StepsLeft(after.saga.value.status) < StepsLeft(w.saga.value.status)
    ensures Alone(actions)
  {
    hide Inv, C.Balanced, SentOk, TimersOk, RetriesOk;
    var c := LastSent(x, w);
    assert c in w.sent;
    var r := IsAnswered(x, w, seed, c);
    hide Reached, SendsOk;
    var deliver := Deliver(c, 0, map[], "");
    var w1 := Next(x, w, deliver);
    DeliveriesKeepSaga(x, w, c, 0, map[], "");
    NextReaches(x, w, seed, deliver);
    var n := Unused(w1.handled);
    var e := Envelope(n, c.messageId, r);
    var hear := Hear(e, Above(w1.sent), 0);
    NextReaches(x, w1, seed, hear);
    actions := [deliver, hear];
    TwoActions(x, w, deliver, hear);
    hide Delivered, IsPublished;
    Heard(x, w1, e, Above(w1.sent));
  }

  lemma TwoActions(x: Setup, w: World, a: Action, b: Action)
    ensures Exec(x, w, [a, b]) == Next(x, Next(x, w, a), b) && Exec(x, w, [a]) == Next(x, w, a)
  {
    hide Next;
    assert [a][..0] == [] && [a, b][..1] == [a];
    assert Exec(x, w, []) == w && Exec(x, w, [a]) == Next(x, Exec(x, w, []), a);
  }

  /** States still ahead. */
  function StepsLeft(status: Status): nat {
    if KindOf(status).TERMINAL? then 0 else 8 - StatusRank(status)
  }

  /** Deadlines and retries still ahead in an action. */
  function TimeLeft(x: Setup, s: Instance): int {
    if !KindOf(s.status).ACTION? then 0
    else 2 * (MostSends(x.settings) - s.attempt) + if s.deadlineAt.Some? then 1 else 0
  }

  lemma Heard(x: Setup, w: World, e: Envelope, id: Uuid)
    requires w.saga.Some? && Enabled(x, w, Hear(e, id, 0)) && Accepts(w.saga.value, e)
    requires KindOf(w.saga.value.status).COMPENSATION? || KindOf(w.saga.value.status).FINALIZATION?
    ensures var after := Next(x, w, Hear(e, id, 0)).saga;
            && after.Some? && TimeLeft(x, after.value) == 0
            && StepsLeft(after.value.status) < StepsLeft(w.saga.value.status)
  {
    hide IsPublished, IsNew;
  }

  /** A deadline or a retry that comes due brings an action nearer to its compensation. */
  lemma TimePasses(x: Setup, w: World, seed: I.Stock) returns (tick: Action)
    requires Reached(x, w, seed) && OrderConserves(x) && w.saga.Some? && KindOf(w.saga.value.status).ACTION?
    ensures tick.Tick?
    ensures var after := Exec(x, w, [tick]);
            && Reached(x, after, seed) && after.saga.Some? && TimeLeft(x, after.saga.value) >= 0
            && (StepsLeft(after.saga.value.status) < StepsLeft(w.saga.value.status)
                || (after.saga.value.status == w.saga.value.status
                    && TimeLeft(x, after.saga.value) < TimeLeft(x, w.saga.value)))
  {
    var s := w.saga.value;
    var due := if s.deadlineAt.Some? then s.deadlineAt.value else s.nextRetryAt.value;
    tick := Tick(Above(w.sent), due);
    TwoActions(x, w, tick, tick);
    NextReaches(x, w, seed, tick);
    hide Exec, OnTick, TimeLeft, Inv, C.Balanced, SentOk, InFlight;
    TickHelps(x, s, Above(w.sent), due);
  }

  lemma TickHelps(x: Setup, s: Instance, id: Uuid, due: int)
    requires TimersOk(s) && RetriesOk(x, s) && KindOf(s.status).ACTION?
    requires due == if s.deadlineAt.Some? then s.deadlineAt.value else s.nextRetryAt.value
    ensures var after := OnTick(s, id, due, x.settings).saga;
            && TimeLeft(x, after) >= 0
            && (StepsLeft(after.status) < StepsLeft(s.status)
                || (after.status == s.status && TimeLeft(x, after) < TimeLeft(x, s)))
  {
    hide Backoff, BuildCommand;
  }

  lemma {:induction false} CanEnd(x: Setup, w: World, seed: I.Stock) returns (more: seq<Action>)
    requires Reached(x, w, seed) && OrderConserves(x) && w.saga.Some?
    ensures Alone(more) && Ended(Exec(x, w, more))
    decreases StepsLeft(w.saga.value.status), TimeLeft(x, w.saga.value)
  {
    hide Exec, Reached, OrderConserves, TimeLeft;
    var s := w.saga.value;
    if KindOf(s.status).TERMINAL? {
      more := [];
      NoActions(x, w);
    } else {
      var first: seq<Action>;
      if KindOf(s.status).ACTION? {
        var tick := TimePasses(x, w, seed);
        first := [tick];
      } else {
        first := MovesOn(x, w, seed);
      }
      var rest := CanEnd(x, Exec(x, w, first), seed);
      more := first + rest;
      ExecSplits(x, w, first, rest);
    }
  }

  lemma NoActions(x: Setup, w: World)
    ensures Exec(x, w, []) == w
  {
  }

  /**
   * Nothing gets stuck: whatever has happened to a checkout of conserving commands, some further deadlines,
   * deliveries and replies end its saga, without the help of other orders.
   */
  lemma NeverStuck(x: Setup, w: World, seed: I.Stock, actions: seq<Action>) returns (more: seq<Action>)
    requires Initial(x, w) && C.Balanced(w.inventory, seed) && OrderConserves(x) && OthersConserve(actions)
    ensures Alone(more) && Ended(Exec(x, w, actions + more))
  {
    ExecReaches(x, w, seed, actions);
    var now := Exec(x, w, actions);
    hide Initial, C.Balanced, OrderConserves, Inv;
    if now.saga.Some? {
      more := CanEnd(x, now, seed);
    } else {
      var begin := Begin(0, Above(now.sent), 0);
      TwoActions(x, now, begin, begin);
      NextReaches(x, now, seed, begin);
      var rest := CanEnd(x, Next(x, now, begin), seed);
      more := [begin] + rest;
      ExecSplits(x, now, [begin], rest);
    }
    ExecSplits(x, w, actions, more);
  }
}
