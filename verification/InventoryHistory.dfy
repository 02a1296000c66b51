/** What the replies of an order say over a whole run: tombstones, repeated answers, and duplicate deliveries. */
module InventoryHistory {
  import opened Prelude
  import opened Skus
  import opened StockAllocator
  import opened InventoryModel

  predicate HoldsStock(db: Db, o: Uuid) {
    o in db.reservations && db.reservations[o].status == RESERVED
  }

  /** Some prefix of the run left the order holding stock. */
  ghost predicate EverHeld(db: Db, events: seq<Event>, o: Uuid) {
    exists k :: 0 <= k <= |events| && HoldsStock(Run(db, events[..k]), o)
  }

  predicate SaysReserved(m: Message, o: Uuid) {
    m.orderId == o && m.reply.Reserved?
  }

  predicate SaysReleased(m: Message, o: Uuid) {
    m.orderId == o && m.reply.Released?
  }

  // ---------------------------------------------------------------- the status automaton

  /** Shape of a stored row: only held orders have an id, and a tombstone is a no-op with no items. */
  predicate RowShape(r: Reservation) {
    match r.status
    case RESERVED => r.reservationId.Some? && !r.noop && r.rejection.None?
    case RELEASED => r.rejection.None? && r.noop == r.reservationId.None? && (r.noop ==> r.items == [])
    case REJECTED => r.reservationId.None? && r.rejection.Some? && !r.noop
  }

  predicate RowLater(before: Reservation, after: Reservation) {
    && after.reservationId == before.reservationId && after.items == before.items
    && after.rejection == before.rejection && after.attempts >= before.attempts
    && (after.status == before.status || (before.status == RESERVED && after.status == RELEASED))
  }

  /** What every written reply says about the order's row from then on. */
  predicate ReplyHolds(m: Message, rs: Reservations) {
    && m.orderId in rs
    && var r := rs[m.orderId];
       match m.reply
       case Reserved(id, items) =>
         r.status != REJECTED && r.reservationId == id && id.Some? && r.items == items
       case Released(id, noop) =>
         r.status != RESERVED && id == r.reservationId && noop == r.reservationId.None?
       case Rejected(rejection) =>
         (r.status == REJECTED && rejection == r.rejection)
         || (r.status == RELEASED && rejection == Some(Rejection(ALREADY_COMPENSATED, [])))
  }

  ghost predicate History(db: Db) {
    && (forall o :: o in db.reservations ==> RowShape(db.reservations[o]))
    && (forall i :: 0 <= i < |db.outbox| ==> ReplyHolds(db.outbox[i], db.reservations))
    && forall i, j, o :: 0 <= i < j < |db.outbox| && SaysReleased(db.outbox[i], o) ==> !SaysReserved(db.outbox[j], o)
  }

  predicate ReplyMatches(reply: Reply, r: Reservation) {
    match reply
    case Reserved(id, items) => r.status == RESERVED && r.reservationId == id && id.Some? && r.items == items
    case Released(id, noop) => r.status != RESERVED && id == r.reservationId && noop == r.reservationId.None?
    case Rejected(rejection) =>
      (r.status == REJECTED && rejection == r.rejection)
      || (r.status == RELEASED && rejection == Some(Rejection(ALREADY_COMPENSATED, [])))
  }

  /** The row an effect leaves, whether it writes one or not. */
  function RowAfter(existing: Option<Reservation>, w: Writes): Option<Reservation> {
    if w.row.Some? then w.row else existing
  }

  /** One transaction moves its row forward along RESERVED, RELEASED and answers from the row it leaves. */
  lemma EffectMovesForward(stock: Stock, existing: Option<Reservation>, c: Command, rid: Uuid, seen: map<Sku, int>)
    requires existing.Some? ==> RowShape(existing.value)
    requires Effect(stock, existing, c, rid, seen).Ok?
    ensures var w := Effect(stock, existing, c, rid, seen).value;
            var after := RowAfter(existing, w);
            && (after.Some? ==> RowShape(after.value))
            && (existing.Some? ==> after.Some? && RowLater(existing.value, after.value))
            && (existing.None? && after.Some? ==>
                 (after.value.reservationId.Some? <==> after.value.status == RESERVED))
            && (w.reply.Some? ==> after.Some? && ReplyMatches(w.reply.value, after.value))
  {
    match c
    case Reserve(_, _, lines, simulate) =>
      if existing.None? {
        assert Executed(stock, lines, SimulateMode(simulate), rid, seen).Ok?;
      }
    case Release(_, _) =>
    case Unrecognised(_, _) =>
  }

  /** Rows only move forward and the outbox only grows. */
  lemma StepMovesForward(db: Db, e: Event)
    requires History(db)
    ensures History(Step(db, e))
    ensures db.outbox <= Step(db, e).outbox
    ensures forall o :: o in db.reservations ==>
              o in Step(db, e).reservations && RowLater(db.reservations[o], Step(db, e).reservations[o])
    ensures forall o :: o in Step(db, e).reservations && o !in db.reservations ==>
              (Step(db, e).reservations[o].reservationId.Some? <==> HoldsStock(Step(db, e), o))
  {
    if Commits(db, e) {
      var existing := Lookup(db.reservations, e.command.orderId);
      EffectMovesForward(db.stock, existing, e.command, e.rid, e.seen);
      AppliedKeepsHistory(db, e.command, Effect(db.stock, existing, e.command, e.rid, e.seen).value);
    }
  }

  lemma AppliedKeepsHistory(db: Db, c: Command, w: Writes)
    requires History(db)
    requires var existing := Lookup(db.reservations, c.orderId);
             var after := RowAfter(existing, w);
             && (after.Some? ==> RowShape(after.value))
             && (existing.Some? ==> after.Some? && RowLater(existing.value, after.value))
             && (w.reply.Some? ==> after.Some? && ReplyMatches(w.reply.value, after.value))
    ensures History(Applied(db, c, w))
    ensures forall o :: o in db.reservations ==>
              o in Applied(db, c, w).reservations && RowLater(db.reservations[o], Applied(db, c, w).reservations[o])
  {
    var after := Applied(db, c, w);
    forall i | 0 <= i < |db.outbox| ensures ReplyHolds(db.outbox[i], after.reservations) {
      assert ReplyHolds(db.outbox[i], db.reservations);
    }
    forall i, o | 0 <= i < |db.outbox| && SaysReleased(db.outbox[i], o) && w.reply.Some? && c.orderId == o
      ensures !w.reply.value.Reserved?
    {
      assert ReplyHolds(db.outbox[i], db.reservations);
    }
  }

  lemma {:induction false} RunHistory(db: Db, events: seq<Event>)
    requires Initial(db)
    ensures History(Run(db, events))
    decreases |events|
  {
    if events != [] {
      RunHistory(db, events[..|events| - 1]);
      StepMovesForward(Run(db, events[..|events| - 1]), events[|events| - 1]);
    }
  }

  lemma {:induction false} OutboxGrows(db: Db, events: seq<Event>, k: nat)
    requires Initial(db) && k <= |events|
    ensures Run(db, events[..k]).outbox <= Run(db, events).outbox
    decreases |events|
  {
    if k == |events| {
      assert events[..k] == events;
    } else {
      var front := events[..|events| - 1];
      assert front[..k] == events[..k];
      OutboxGrows(db, front, k);
      RunHistory(db, front);
      StepMovesForward(Run(db, front), events[|events| - 1]);
    }
  }

  /** A stored reservation id is the memory of having held stock. */
  lemma {:induction false} IdRemembersHolding(db: Db, events: seq<Event>, o: Uuid)
    requires Initial(db)
    ensures EverHeld(db, events, o)
       <==> o in Run(db, events).reservations && Run(db, events).reservations[o].reservationId.Some?
    decreases |events|
  {
    if events == [] {
      assert events[..0] == [];
    } else {
      var front := events[..|events| - 1];
      assert events[..|events|] == events;
      forall k | 0 <= k <= |front| ensures front[..k] == events[..k] {
      }
      IdRemembersHolding(db, front, o);
      RunHistory(db, front);
      RunHistory(db, events);
      StepMovesForward(Run(db, front), events[|events| - 1]);
      if EverHeld(db, events, o) {
        var k :| 0 <= k <= |events| && HoldsStock(Run(db, events[..k]), o);
        if k < |events| {
          assert HoldsStock(Run(db, front[..k]), o);
        }
      } else {
        forall k | 0 <= k <= |front| ensures !HoldsStock(Run(db, front[..k]), o) {
          assert !HoldsStock(Run(db, events[..k]), o);
        }
        assert !HoldsStock(Run(db, events[..|events|]), o);
      }
    }
  }

  // ---------------------------------------------------------------- tombstone safety

  /**
   * Once a RELEASED reply is written for an order, the order holds no stock in any later state, and no RESERVED
   * reply follows it.
   */
  lemma ReleasedIsFinal(db: Db, events: seq<Event>, o: Uuid, k: nat, i: nat)
    requires Initial(db) && k <= |events|
    requires i < |Run(db, events[..k]).outbox| && SaysReleased(Run(db, events[..k]).outbox[i], o)
    ensures !HoldsStock(Run(db, events), o)
    ensures forall j :: i < j < |Run(db, events).outbox| ==> !SaysReserved(Run(db, events).outbox[j], o)
  {
    OutboxGrows(db, events, k);
    RunHistory(db, events);
    assert ReplyHolds(Run(db, events).outbox[i], Run(db, events).reservations);
  }

  /** All RESERVED replies of an order carry the same payload, and so do all RELEASED replies. */
  lemma RepliesRepeat(db: Db, events: seq<Event>, o: Uuid, i: nat, j: nat)
    requires Initial(db) && i < |Run(db, events).outbox| && j < |Run(db, events).outbox|
    requires var a, b := Run(db, events).outbox[i], Run(db, events).outbox[j];
             (SaysReserved(a, o) && SaysReserved(b, o)) || (SaysReleased(a, o) && SaysReleased(b, o))
    ensures Run(db, events).outbox[i].reply == Run(db, events).outbox[j].reply
  {
    RunHistory(db, events);
    assert ReplyHolds(Run(db, events).outbox[i], Run(db, events).reservations);
    assert ReplyHolds(Run(db, events).outbox[j], Run(db, events).reservations);
  }

  /** `noop` in a RELEASED reply says exactly that the order never held stock. */
  lemma NoopMeansNeverHeld(db: Db, events: seq<Event>, o: Uuid, i: nat)
    requires Initial(db) && i < |Run(db, events).outbox| && SaysReleased(Run(db, events).outbox[i], o)
    ensures Run(db, events).outbox[i].reply.noop <==> !EverHeld(db, events, o)
  {
    RunHistory(db, events);
    IdRemembersHolding(db, events, o);
    assert ReplyHolds(Run(db, events).outbox[i], Run(db, events).reservations);
  }

  // ---------------------------------------------------------------- duplicate deliveries

  /** A row up to the attempt counter and the balances quoted in a rejection. */
  predicate SameRow(a: Reservation, b: Reservation) {
    && a.reservationId == b.reservationId && a.status == b.status && a.items == b.items && a.noop == b.noop
    && (a.rejection.Some? <==> b.rejection.Some?)
    && (a.rejection.Some? ==> a.rejection.value.reason == b.rejection.value.reason)
  }

  /** Same stock, and the same reservations up to attempts and quoted balances. */
  predicate SameCore(a: Db, b: Db) {
    && a.stock == b.stock && a.reservations.Keys == b.reservations.Keys
    && forall o :: o in a.reservations ==> SameRow(a.reservations[o], b.reservations[o])
  }

  predicate SameOptionalRow(a: Option<Reservation>, b: Option<Reservation>) {
    (a.Some? <==> b.Some?) && (a.Some? ==> SameRow(a.value, b.value))
  }

  lemma ExecutedKeepsSameRow(stock: Stock, lines: Option<seq<Line>>, mode: Option<string>, rid: Uuid,
                             seenA: map<Sku, int>, seenB: map<Sku, int>)
    ensures var ea, eb := Executed(stock, lines, mode, rid, seenA), Executed(stock, lines, mode, rid, seenB);
            && (ea.Ok? <==> eb.Ok?)
            && (ea.Ok? ==> ea.value.rows == eb.value.rows && SameRow(ea.value.row, eb.value.row))
  {
  }

  lemma EffectKeepsSameRow(stock: Stock, a: Option<Reservation>, b: Option<Reservation>, c: Command, rid: Uuid,
                           seenA: map<Sku, int>, seenB: map<Sku, int>)
    requires SameOptionalRow(a, b)
    ensures var wa, wb := Effect(stock, a, c, rid, seenA), Effect(stock, b, c, rid, seenB);
            && (wa.Ok? <==> wb.Ok?)
            && (wa.Ok? ==> wa.value.rows == wb.value.rows && SameOptionalRow(wa.value.row, wb.value.row))
  {
    hide Executed, SimulateMode, CreditAll, ReplyOf, ShouldReply;
    if c.Reserve? && a.None? {
      ExecutedKeepsSameRow(stock, c.lines, SimulateMode(c.simulate), rid, seenA, seenB);
    }
  }

  /** Attempts, quoted balances and earlier messages never steer what a command does to stock and reservations. */
  lemma StepKeepsSameCore(a: Db, b: Db, e: Event, seen: map<Sku, int>)
    requires SameCore(a, b)
    ensures SameCore(Step(a, e), Step(b, e.(seen := seen)))
    ensures Commits(a, e) <==> Commits(b, e.(seen := seen))
  {
    var o := e.command.orderId;
    EffectKeepsSameRow(a.stock, Lookup(a.reservations, o), Lookup(b.reservations, o), e.command, e.rid, e.seen, seen);
  }

  /** An earlier command of the run, of the same kind and order, that was committed. */
  predicate CommittedBefore(db: Db, events: seq<Event>, i: nat, j: nat)
    requires j < i < |events|
  {
    && events[j].command.orderId == events[i].command.orderId
    && (events[j].command.Reserve? <==> events[i].command.Reserve?)
    && (events[j].command.Release? <==> events[i].command.Release?)
    && Commits(Run(db, events[..j]), events[j])
  }

  /** A redelivery: a reserve after a committed reserve of its order, or a release after a committed release. */
  ghost predicate Duplicate(db: Db, events: seq<Event>, i: nat)
    requires i < |events|
  {
    && !events[i].command.Unrecognised?
    && exists j :: 0 <= j < i && CommittedBefore(db, events, i, j)
  }

  /** How far a committed command of the given kind brings its order. */
  predicate Settled(db: Db, c: Command) {
    && c.orderId in db.reservations
    && (c.Release? ==> db.reservations[c.orderId].status != RESERVED)
  }

  lemma CommitSettles(db: Db, e: Event)
    requires History(db) && Commits(db, e) && !e.command.Unrecognised?
    ensures Settled(Step(db, e), e.command)
  {
  }

  lemma {:induction false} StaysSettled(db: Db, events: seq<Event>, c: Command)
    requires History(db) && Settled(db, c)
    ensures History(Run(db, events)) && Settled(Run(db, events), c)
    decreases |events|
  {
    if events != [] {
      StaysSettled(db, events[..|events| - 1], c);
      StepMovesForward(Run(db, events[..|events| - 1]), events[|events| - 1]);
    }
  }

  /** A command whose order is already settled changes neither stock nor any reservation's status, items or id. */
  lemma SettledChangesNothing(db: Db, e: Event)
    requires History(db) && Settled(db, e.command) && !e.command.Unrecognised?
    ensures SameCore(Step(db, e), db)
  {
  }

  lemma CommittedSettles(db: Db, events: seq<Event>, i: nat, j: nat)
    requires Initial(db) && j < i < |events| && CommittedBefore(db, events, i, j)
    requires !events[i].command.Unrecognised?
    ensures History(Run(db, events[..j + 1])) && Settled(Run(db, events[..j + 1]), events[i].command)
  {
    RunHistory(db, events[..j]);
    CommitSettles(Run(db, events[..j]), events[j]);
    RunHistory(db, events[..j + 1]);
    RunPrefix(db, events, j);
  }

  lemma SettledOverRun(db: Db, before: seq<Event>, after: seq<Event>, c: Command)
    requires History(Run(db, before)) && Settled(Run(db, before), c)
    ensures History(Run(db, before + after)) && Settled(Run(db, before + after), c)
  {
    StaysSettled(Run(db, before), after, c);
    RunSplits(db, before, after);
  }

  lemma DuplicateIsSettled(db: Db, events: seq<Event>, i: nat, j: nat)
    requires Initial(db) && j < i < |events| && CommittedBefore(db, events, i, j)
    requires !events[i].command.Unrecognised?
    ensures History(Run(db, events[..i])) && Settled(Run(db, events[..i]), events[i].command)
  {
    hide *;
    CommittedSettles(db, events, i, j);
    SettledOverRun(db, events[..j + 1], events[j + 1..i], events[i].command);
    assert events[..i] == events[..j + 1] + events[j + 1..i];
  }

  lemma RunPrefix(db: Db, events: seq<Event>, i: nat)
    requires i < |events|
    ensures Run(db, events[..i + 1]) == Step(Run(db, events[..i]), events[i])
  {
    assert events[..i + 1][..i] == events[..i];
  }

  lemma DuplicateChangesNothing(db: Db, events: seq<Event>, i: nat)
    requires Initial(db) && i < |events| && Duplicate(db, events, i)
    ensures SameCore(Run(db, events[..i + 1]), Run(db, events[..i]))
  {
    var j :| 0 <= j < i && CommittedBefore(db, events, i, j);
    DuplicateIsSettled(db, events, i, j);
    SettledChangesNothing(Run(db, events[..i]), events[i]);
    RunPrefix(db, events, i);
  }

  /** The events of the run that are kept. */
  function Kept(events: seq<Event>, keep: seq<bool>): seq<Event>
    requires |keep| == |events|
  {
    if events == [] then []
    else
      var n := |events| - 1;
      Kept(events[..n], keep[..n]) + (if keep[n] then [events[n]] else [])
  }

  /**
   * At-least-once delivery is harmless: dropping any set of redeliveries from any schedule over any number of
   * orders leaves the same stock and the same reservations (up to attempts and quoted balances).
   */
  lemma DroppingDuplicates(db: Db, events: seq<Event>, keep: seq<bool>)
    requires Initial(db) && |keep| == |events|
    requires forall i :: 0 <= i < |events| && !keep[i] ==> Duplicate(db, events, i)
    ensures SameCore(Run(db, events), Run(db, Kept(events, keep)))
  {
    DroppingUpTo(db, events, keep, |events|);
    assert events[..|events|] == events && keep[..|keep|] == keep;
  }

  lemma {:induction false} DroppingUpTo(db: Db, events: seq<Event>, keep: seq<bool>, k: nat)
    requires Initial(db) && |keep| == |events| && k <= |events|
    requires forall i :: 0 <= i < |events| && !keep[i] ==> Duplicate(db, events, i)
    ensures SameCore(Run(db, events[..k]), Run(db, Kept(events[..k], keep[..k])))
  {
    hide *;
    if k == 0 {
      DroppingNothing(db, events[..k]);
      DroppingNothingKept(events[..k], keep[..k]);
    } else {
      DroppingUpTo(db, events, keep, k - 1);
      KeptSnoc(events, keep, k - 1);
      if keep[k - 1] {
        KeepingOne(db, events[..k - 1], Kept(events[..k - 1], keep[..k - 1]), events[k - 1]);
        assert events[..k] == events[..k - 1] + [events[k - 1]];
      } else {
        DroppingOne(db, events, k - 1, Kept(events[..k - 1], keep[..k - 1]));
        assert Kept(events[..k], keep[..k]) == Kept(events[..k - 1], keep[..k - 1]);
      }
    }
  }

  lemma KeptSnoc(events: seq<Event>, keep: seq<bool>, k: nat)
    requires |keep| == |events| && k < |events|
    ensures Kept(events[..k + 1], keep[..k + 1])
         == Kept(events[..k], keep[..k]) + (if keep[k] then [events[k]] else [])
  {
    assert events[..k + 1][..k] == events[..k] && keep[..k + 1][..k] == keep[..k];
  }

  lemma KeepingOne(db: Db, all: seq<Event>, kept: seq<Event>, e: Event)
    requires SameCore(Run(db, all), Run(db, kept))
    ensures SameCore(Run(db, all + [e]), Run(db, kept + [e]))
  {
    StepKeepsSameCore(Run(db, all), Run(db, kept), e, e.seen);
    assert (all + [e])[..|all|] == all && (kept + [e])[..|kept|] == kept;
  }

  lemma DroppingOne(db: Db, events: seq<Event>, k: nat, kept: seq<Event>)
    requires Initial(db) && k < |events| && Duplicate(db, events, k)
    requires SameCore(Run(db, events[..k]), Run(db, kept))
    ensures SameCore(Run(db, events[..k + 1]), Run(db, kept))
  {
    DuplicateChangesNothing(db, events, k);
  }

  lemma DroppingNothing(db: Db, events: seq<Event>)
    ensures SameCore(Run(db, events), Run(db, events))
  {
  }

  lemma DroppingNothingKept(events: seq<Event>, keep: seq<bool>)
    requires |keep| == |events| == 0
    ensures Kept(events, keep) == events
  {
  }
}
