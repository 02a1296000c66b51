/** Two runs of the relay in which a message is published twice: after a crash, and after a failure that was none. */
module RelayRuns {
  import opened Prelude
  import opened OutboxRelay

  /** One row selected, and then sent, from a state without a transaction. */
  lemma OneRowSent(topic: seq<Entry>, late: set<Entry>, row: Row, limit: nat, outcome: Outcome)
    requires limit > 0 && !row.published
    ensures var s := State([row], topic, late, None);
            var sent := Next(Next(s, Select(limit)), SendNext(outcome));
            && sent.outbox == [row]
            && sent.batch == Some(Batch([], if outcome == DELIVERED then {row.entry} else {},
                                        if outcome == DELIVERED then None else Some(row.entry)))
            && sent.topic == (if outcome == DELIVERED || outcome == LANDED_ANYWAY then topic + [row.entry] else topic)
            && sent.late == (if outcome == LANDS_LATER then late + {row.entry} else late)
  {
    assert [row][..0] == [] && Pending([row]) == [row.entry];
    assert Take([row.entry], limit) == [row.entry] && [row.entry][1..] == [];
    var s := State([row], topic, late, None);
    assert Next(s, Select(limit)) == s.(batch := Some(Batch([row.entry], {}, None)));
    assert {} + {row.entry} == {row.entry};
  }

  lemma Inserted(e: Entry)
    ensures Exec(EMPTY, [Insert(e)]) == State([Row(e, false, 0)], [], {}, None)
  {
    assert [Insert(e)][..0] == [];
    assert EMPTY.outbox[..0] + [Row(e, false, 0)] + EMPTY.outbox[0..] == [Row(e, false, 0)];
  }

  /** At least once is not once: a crash between send and commit takes the mark back, and the row is sent again. */
  lemma CrashSendsTwice(e: Entry, limit: nat)
    requires limit > 0
    ensures Exec(EMPTY, [Insert(e)] + [Select(limit)] + [SendNext(DELIVERED)] + [Crash] + [Select(limit)]
                        + [SendNext(DELIVERED)] + [Commit])
         == State([Row(e, true, 1)], [e, e], {}, None)
  {
    hide Exec, Pending, Take;
    var begun := [Insert(e)];
    Inserted(e);
    OneRowSent([], {}, Row(e, false, 0), limit, DELIVERED);
    OneRowSent([e], {}, Row(e, false, 0), limit, DELIVERED);
    ExecSnoc(EMPTY, begun, Select(limit));
    ExecSnoc(EMPTY, begun + [Select(limit)], SendNext(DELIVERED));
    var once := begun + [Select(limit)] + [SendNext(DELIVERED)];
    ExecSnoc(EMPTY, once, Crash);
    assert Exec(EMPTY, once + [Crash]) == State([Row(e, false, 0)], [e], {}, None);
    ExecSnoc(EMPTY, once + [Crash], Select(limit));
    ExecSnoc(EMPTY, once + [Crash] + [Select(limit)], SendNext(DELIVERED));
    ExecSnoc(EMPTY, once + [Crash] + [Select(limit)] + [SendNext(DELIVERED)], Commit);
  }

  /** A send reported as failed that lands later: the row stays pending, is sent again, and lands once more, once. */
  lemma LateSendLandsOnce(e: Entry, limit: nat)
    requires limit > 0
    ensures Exec(EMPTY, [Insert(e)] + [Select(limit)] + [SendNext(LANDS_LATER)] + [Commit] + [Select(limit)]
                        + [SendNext(DELIVERED)] + [Commit] + [Land(e)] + [Land(e)])
         == State([Row(e, true, 2)], [e, e], {}, None)
  {
    hide Exec, Pending, Take;
    var begun := [Insert(e)];
    Inserted(e);
    OneRowSent([], {}, Row(e, false, 0), limit, LANDS_LATER);
    OneRowSent([], {e}, Row(e, false, 1), limit, DELIVERED);
    ExecSnoc(EMPTY, begun, Select(limit));
    ExecSnoc(EMPTY, begun + [Select(limit)], SendNext(LANDS_LATER));
    var failed := begun + [Select(limit)] + [SendNext(LANDS_LATER)] + [Commit];
    ExecSnoc(EMPTY, begun + [Select(limit)] + [SendNext(LANDS_LATER)], Commit);
    assert Exec(EMPTY, failed) == State([Row(e, false, 1)], [], {e}, None);
    ExecSnoc(EMPTY, failed, Select(limit));
    ExecSnoc(EMPTY, failed + [Select(limit)], SendNext(DELIVERED));
    var sent := failed + [Select(limit)] + [SendNext(DELIVERED)] + [Commit];
    ExecSnoc(EMPTY, failed + [Select(limit)] + [SendNext(DELIVERED)], Commit);
    assert Exec(EMPTY, sent) == State([Row(e, true, 2)], [e], {e}, None);
    ExecSnoc(EMPTY, sent, Land(e));
    ExecSnoc(EMPTY, sent + [Land(e)], Land(e));
    assert {e} - {e} == {};
  }
}
