/**
 * `OutboxRelay.java`: polling publication of committed outbox rows, in id order, at least once. One relay runs;
 * writers insert concurrently; a send reported as failed may still land later; a crash rolls back the marks of the
 * batch but not its sends.
 */
module OutboxRelay {
  import opened Prelude

  /** A message: the id of its outbox row, and the partition key (the order id). */
  datatype Entry = Entry(id: nat, key: nat)

  datatype Row = Row(entry: Entry, published: bool, attempts: nat)

  /** What a send turns out to be; the last three are reported to the relay as a failure. */
  datatype Outcome = DELIVERED | LOST | LANDED_ANYWAY | LANDS_LATER

  /** The open transaction: messages still to send, marks not yet committed, and the send that failed, if any. */
  datatype Batch = Batch(todo: seq<Entry>, marked: set<Entry>, failed: Option<Entry>)

  datatype State = State(outbox: seq<Row>, topic: seq<Entry>, late: set<Entry>, batch: Option<Batch>)

  datatype Action =
    | Insert(entry: Entry)
    | Select(limit: nat)
    | SendNext(outcome: Outcome)
    | Commit
    | Crash
    | Land(entry: Entry)

  // ---------------------------------------------------------------- steps

  /** Unpublished rows in id order. */
  function Pending(outbox: seq<Row>): seq<Entry> {
    if outbox == [] then []
    else Pending(outbox[..|outbox| - 1])
         + (if outbox[|outbox| - 1].published then [] else [outbox[|outbox| - 1].entry])
  }

  /** The outbox with the marks of a transaction applied. */
  function Marked(outbox: seq<Row>, b: Batch): seq<Row> {
    seq(|outbox|, i requires 0 <= i < |outbox| =>
      if outbox[i].entry in b.marked then Row(outbox[i].entry, true, outbox[i].attempts + 1)
      else if Some(outbox[i].entry) == b.failed then outbox[i].(attempts := outbox[i].attempts + 1)
      else outbox[i])
  }

  /** Position of a new id in the id-ordered outbox. */
  function Place(outbox: seq<Row>, id: nat): (n: nat)
    ensures n <= |outbox|
  {
    if outbox == [] || outbox[|outbox| - 1].entry.id < id then |outbox|
    else Place(outbox[..|outbox| - 1], id)
  }

  /** The outbox with a new row at position `n`. */
  function Placed(outbox: seq<Row>, n: nat, e: Entry): seq<Row>
    requires n <= |outbox|
  {
    outbox[..n] + [Row(e, false, 0)] + outbox[n..]
  }

  predicate Enabled(s: State, a: Action) {
    match a
    case Insert(e) =>
      // ids are unique, and writers of one key commit in id order
      forall i :: 0 <= i < |s.outbox| ==>
        s.outbox[i].entry.id != e.id && (s.outbox[i].entry.key == e.key ==> s.outbox[i].entry.id < e.id)
    case Select(_) => s.batch.None?
    case SendNext(_) => s.batch.Some? && s.batch.value.todo != []
    case Commit => s.batch.Some? && s.batch.value.todo == []
    case Crash => s.batch.Some?
    case Land(e) => e in s.late
  }

  /** One step; an action that is not enabled does nothing. */
  function Next(s: State, a: Action): State {
    if !Enabled(s, a) then s
    else
      match a
      case Insert(e) =>
        s.(outbox := Placed(s.outbox, Place(s.outbox, e.id), e))
      case Select(limit) => s.(batch := Some(Batch(Take(Pending(s.outbox), limit), {}, None)))
      case SendNext(outcome) =>
        var b := s.batch.value;
        var e := b.todo[0];
        if outcome == DELIVERED then
          s.(topic := s.topic + [e], batch := Some(b.(todo := b.todo[1..], marked := b.marked + {e})))
        else
          s.(topic := if outcome == LANDED_ANYWAY then s.topic + [e] else s.topic,
             late := if outcome == LANDS_LATER then s.late + {e} else s.late,
             batch := Some(Batch([], b.marked, Some(e))))
      case Commit => s.(outbox := Marked(s.outbox, s.batch.value), batch := None)
      case Crash => s.(batch := None)
      case Land(e) => s.(topic := s.topic + [e], late := s.late - {e})
  }

  const EMPTY: State := State([], [], {}, None)

  function Exec(s: State, actions: seq<Action>): State {
    if actions == [] then s else Next(Exec(s, actions[..|actions| - 1]), actions[|actions| - 1])
  }

  // ---------------------------------------------------------------- invariant

  predicate IsRow(outbox: seq<Row>, e: Entry) {
    exists i :: 0 <= i < |outbox| && outbox[i].entry == e
  }

  predicate Earlier(y: Entry, x: Entry) {
    y.key == x.key && y.id < x.id
  }

  /** Every earlier message of the same key is already in `sent`. */
  ghost predicate Preceded(outbox: seq<Row>, sent: seq<Entry>, x: Entry) {
    forall i :: 0 <= i < |outbox| && Earlier(outbox[i].entry, x) ==> outbox[i].entry in sent
  }

  predicate ById(outbox: seq<Row>) {
    forall i, j :: 0 <= i < j < |outbox| ==> outbox[i].entry.id < outbox[j].entry.id
  }

  ghost predicate TopicOk(s: State) {
    forall j :: 0 <= j < |s.topic| ==> IsRow(s.outbox, s.topic[j]) && Preceded(s.outbox, s.topic[..j], s.topic[j])
  }

  ghost predicate BatchOk(s: State) {
    s.batch.Some? ==>
      var b := s.batch.value;
      && (forall e :: e in b.marked ==> e in s.topic)
      && (forall k :: 0 <= k < |b.todo| ==>
           IsRow(s.outbox, b.todo[k]) && Preceded(s.outbox, s.topic + b.todo[..k], b.todo[k]))
  }

  ghost predicate Inv(s: State) {
    && ById(s.outbox) && TopicOk(s) && BatchOk(s)
    && (forall i :: 0 <= i < |s.outbox| && s.outbox[i].published ==> s.outbox[i].entry in s.topic)
    && (forall e :: e in s.late ==> IsRow(s.outbox, e) && Preceded(s.outbox, s.topic, e))
  }

  // ---------------------------------------------------------------- pending rows

  lemma {:induction false} PendingMembers(outbox: seq<Row>, e: Entry)
    ensures e in Pending(outbox) <==> exists i :: 0 <= i < |outbox| && outbox[i].entry == e && !outbox[i].published
  {
    if outbox != [] {
      var n := |outbox| - 1;
      var front := outbox[..n];
      PendingMembers(front, e);
      assert forall i :: 0 <= i < n ==> front[i] == outbox[i];
      assert Pending(outbox) == Pending(front) + (if outbox[n].published then [] else [outbox[n].entry]);
      if e in Pending(front) {
        var i :| 0 <= i < n && front[i].entry == e && !front[i].published;
        assert outbox[i].entry == e;
      }
      if exists i :: 0 <= i < |outbox| && outbox[i].entry == e && !outbox[i].published {
        var i :| 0 <= i < |outbox| && outbox[i].entry == e && !outbox[i].published;
        if i < n {
          assert front[i].entry == e;
        }
      }
    }
  }

  /** Pending entries are in id order, all below any row that follows the outbox. */
  lemma {:induction false} PendingSorted(outbox: seq<Row>)
    requires ById(outbox)
    ensures forall a, b :: 0 <= a < b < |Pending(outbox)| ==> Pending(outbox)[a].id < Pending(outbox)[b].id
  {
    if outbox != [] {
      var n := |outbox| - 1;
      PendingSorted(outbox[..n]);
      forall a | 0 <= a < |Pending(outbox[..n])| ensures Pending(outbox[..n])[a].id < outbox[n].entry.id {
        PendingMembers(outbox[..n], Pending(outbox[..n])[a]);
      }
    }
  }

  /** A selected row has all its unpublished predecessors selected before it. */
  lemma SelectionIsOrdered(s: State, limit: nat, k: nat)
    requires Inv(s) && k < |Take(Pending(s.outbox), limit)|
    ensures var todo := Take(Pending(s.outbox), limit);
            IsRow(s.outbox, todo[k]) && Preceded(s.outbox, s.topic + todo[..k], todo[k])
  {
    hide Pending, TopicOk, BatchOk;
    var todo := Take(Pending(s.outbox), limit);
    PendingSorted(s.outbox);
    PendingMembers(s.outbox, todo[k]);
    forall i | 0 <= i < |s.outbox| && Earlier(s.outbox[i].entry, todo[k])
      ensures s.outbox[i].entry in s.topic + todo[..k]
    {
      if !s.outbox[i].published {
        EarlierIsSelected(s.outbox, limit, k, s.outbox[i].entry);
      }
    }
  }

  lemma EarlierIsSelected(outbox: seq<Row>, limit: nat, k: nat, e: Entry)
    requires ById(outbox) && k < |Take(Pending(outbox), limit)| && Earlier(e, Take(Pending(outbox), limit)[k])
    requires exists i :: 0 <= i < |outbox| && outbox[i].entry == e && !outbox[i].published
    ensures e in Take(Pending(outbox), limit)[..k]
  {
    hide Pending;
    var pending := Pending(outbox);
    PendingSorted(outbox);
    PendingMembers(outbox, e);
    var p :| 0 <= p < |pending| && pending[p] == e;
    assert p < k;
    assert Take(pending, limit)[..k][p] == e;
  }

  // ---------------------------------------------------------------- steps keep the invariant

  lemma PlaceMeaning(outbox: seq<Row>, id: nat)
    requires ById(outbox) && forall i :: 0 <= i < |outbox| ==> outbox[i].entry.id != id
    ensures forall i :: 0 <= i < Place(outbox, id) ==> outbox[i].entry.id < id
    ensures forall i :: Place(outbox, id) <= i < |outbox| ==> id < outbox[i].entry.id
    decreases |outbox|
  {
    if outbox != [] && id <= outbox[|outbox| - 1].entry.id {
      var front := outbox[..|outbox| - 1];
      PlaceMeaning(front, id);
      assert forall i :: 0 <= i < |front| ==> front[i] == outbox[i];
    }
  }

  /** An inserted row has no later message of its key, so nothing already ordered depends on it. */
  lemma InsertKeepsOrder(s: State, e: Entry, sent: seq<Entry>, x: Entry)
    requires ById(s.outbox) && Enabled(s, Insert(e)) && IsRow(s.outbox, x) && Preceded(s.outbox, sent, x)
    ensures IsRow(Next(s, Insert(e)).outbox, x) && Preceded(Next(s, Insert(e)).outbox, sent, x)
  {
    hide ById, Place;
    var n := Place(s.outbox, e.id);
    assert Next(s, Insert(e)).outbox == Placed(s.outbox, n, e);
    var i :| 0 <= i < |s.outbox| && s.outbox[i].entry == x;
    assert !Earlier(e, x);
    PlacedRow(s.outbox, n, e, x);
    PlacedPreceded(s.outbox, n, e, sent, x);
  }

  lemma PlacedRow(outbox: seq<Row>, n: nat, e: Entry, x: Entry)
    requires n <= |outbox| && IsRow(outbox, x)
    ensures IsRow(Placed(outbox, n, e), x)
  {
    var i :| 0 <= i < |outbox| && outbox[i].entry == x;
    assert Placed(outbox, n, e)[if i < n then i else i + 1].entry == x;
  }

  lemma PlacedPreceded(outbox: seq<Row>, n: nat, e: Entry, sent: seq<Entry>, x: Entry)
    requires n <= |outbox| && Preceded(outbox, sent, x) && !Earlier(e, x)
    ensures Preceded(Placed(outbox, n, e), sent, x)
  {
    hide Earlier;
    var after := Placed(outbox, n, e);
    forall k | 0 <= k < |after| && Earlier(after[k].entry, x) ensures after[k].entry in sent {
      assert k != n;
      assert after[k] == outbox[if k < n then k else k - 1];
    }
  }

  lemma InsertKeepsById(s: State, e: Entry)
    requires ById(s.outbox) && Enabled(s, Insert(e))
    ensures ById(Next(s, Insert(e)).outbox)
    ensures forall k :: 0 <= k < |Next(s, Insert(e)).outbox| && Next(s, Insert(e)).outbox[k].published ==>
              Next(s, Insert(e)).outbox[k] in s.outbox
  {
    var n, after := Place(s.outbox, e.id), Next(s, Insert(e)).outbox;
    PlaceMeaning(s.outbox, e.id);
    assert after == s.outbox[..n] + [Row(e, false, 0)] + s.outbox[n..];
    assert forall k :: 0 <= k < |after| && k != n ==> after[k] == s.outbox[if k < n then k else k - 1];
  }

  lemma InsertKeepsInv(s: State, e: Entry)
    requires Inv(s) && Enabled(s, Insert(e))
    ensures Inv(Next(s, Insert(e)))
  {
    hide ById, Preceded, IsRow, Enabled;
    var after := Next(s, Insert(e));
    InsertKeepsById(s, e);
    forall j | 0 <= j < |s.topic|
      ensures IsRow(after.outbox, s.topic[j]) && Preceded(after.outbox, s.topic[..j], s.topic[j])
    {
      InsertKeepsOrder(s, e, s.topic[..j], s.topic[j]);
    }
    if s.batch.Some? {
      var todo := s.batch.value.todo;
      forall k | 0 <= k < |todo|
        ensures IsRow(after.outbox, todo[k]) && Preceded(after.outbox, s.topic + todo[..k], todo[k])
      {
        InsertKeepsOrder(s, e, s.topic + todo[..k], todo[k]);
      }
    }
    forall x | x in s.late ensures IsRow(after.outbox, x) && Preceded(after.outbox, s.topic, x) {
      InsertKeepsOrder(s, e, s.topic, x);
    }
  }

  /** Preceded asks for less when more has been sent. */
  lemma PrecededByMore(outbox: seq<Row>, sent: seq<Entry>, more: seq<Entry>, x: Entry)
    requires Preceded(outbox, sent, x) && forall e :: e in sent ==> e in more
    ensures Preceded(outbox, more, x)
  {
  }

  /** A message whose predecessors are in the topic may be appended. */
  lemma AppendKeepsTopic(s: State, e: Entry, after: State)
    requires Inv(s) && IsRow(s.outbox, e) && Preceded(s.outbox, s.topic, e)
    requires after.outbox == s.outbox && after.topic == s.topic + [e]
    ensures TopicOk(after)
    ensures forall x :: x in s.late ==> Preceded(after.outbox, after.topic, x)
  {
    hide ById, IsRow, Preceded, BatchOk;
    forall j | 0 <= j < |after.topic|
      ensures IsRow(after.outbox, after.topic[j]) && Preceded(after.outbox, after.topic[..j], after.topic[j])
    {
      if j < |s.topic| {
        assert after.topic[..j] == s.topic[..j];
      } else {
        assert after.topic[..j] == s.topic;
      }
    }
    forall x | x in s.late ensures Preceded(after.outbox, after.topic, x) {
      PrecededByMore(s.outbox, s.topic, after.topic, x);
    }
  }

  lemma HeadIsReady(s: State)
    requires Inv(s) && s.batch.Some? && s.batch.value.todo != []
    ensures IsRow(s.outbox, s.batch.value.todo[0]) && Preceded(s.outbox, s.topic, s.batch.value.todo[0])
  {
    var todo := s.batch.value.todo;
    assert s.topic + todo[..0] == s.topic;
    assert IsRow(s.outbox, todo[0]) && Preceded(s.outbox, s.topic + todo[..0], todo[0]);
  }

  lemma TailIsReady(s: State, k: nat)
    requires Inv(s) && s.batch.Some? && k + 1 < |s.batch.value.todo|
    ensures var e, rest := s.batch.value.todo[0], s.batch.value.todo[1..];
            IsRow(s.outbox, rest[k]) && Preceded(s.outbox, (s.topic + [e]) + rest[..k], rest[k])
  {
    hide ById, IsRow, Preceded, TopicOk;
    var todo := s.batch.value.todo;
    assert (s.topic + [todo[0]]) + todo[1..][..k] == s.topic + todo[..k + 1];
    assert IsRow(s.outbox, todo[k + 1]) && Preceded(s.outbox, s.topic + todo[..k + 1], todo[k + 1]);
  }

  lemma DeliveredKeepsInv(s: State)
    requires Inv(s) && Enabled(s, SendNext(DELIVERED))
    ensures Inv(Next(s, SendNext(DELIVERED)))
  {
    hide ById, IsRow, Preceded, TopicOk;
    HeadIsReady(s);
    AppendKeepsTopic(s, s.batch.value.todo[0], Next(s, SendNext(DELIVERED)));
    forall k | 0 <= k < |s.batch.value.todo| - 1
      ensures var e, rest := s.batch.value.todo[0], s.batch.value.todo[1..];
              IsRow(s.outbox, rest[k]) && Preceded(s.outbox, (s.topic + [e]) + rest[..k], rest[k])
    {
      TailIsReady(s, k);
    }
  }

  lemma FailureKeepsInv(s: State, outcome: Outcome)
    requires Inv(s) && Enabled(s, SendNext(outcome)) && outcome != DELIVERED
    ensures Inv(Next(s, SendNext(outcome)))
  {
    hide ById, IsRow, Preceded, TopicOk;
    HeadIsReady(s);
    if outcome == LANDED_ANYWAY {
      AppendKeepsTopic(s, s.batch.value.todo[0], Next(s, SendNext(outcome)));
    } else {
      TopicUnchanged(s, Next(s, SendNext(outcome)));
    }
  }

  lemma TopicUnchanged(s: State, after: State)
    requires TopicOk(s) && after.outbox == s.outbox && after.topic == s.topic
    ensures TopicOk(after)
  {
  }

  lemma LandKeepsInv(s: State, e: Entry)
    requires Inv(s) && e in s.late
    ensures Inv(Next(s, Land(e)))
  {
    hide ById, IsRow, Preceded, TopicOk;
    var after := Next(s, Land(e));
    AppendKeepsTopic(s, e, after);
    if s.batch.Some? {
      var todo := s.batch.value.todo;
      forall k | 0 <= k < |todo| ensures Preceded(s.outbox, after.topic + todo[..k], todo[k]) {
        PrecededByMore(s.outbox, s.topic + todo[..k], after.topic + todo[..k], todo[k]);
      }
    }
  }

  lemma CommitKeepsInv(s: State)
    requires Inv(s) && Enabled(s, Commit)
    ensures Inv(Next(s, Commit))
  {
    var after := Next(s, Commit);
    assert forall i :: 0 <= i < |s.outbox| ==> after.outbox[i].entry == s.outbox[i].entry;
    forall x | IsRow(s.outbox, x) ensures IsRow(after.outbox, x) {
      var i :| 0 <= i < |s.outbox| && s.outbox[i].entry == x;
      assert after.outbox[i].entry == x;
    }
  }

  lemma SelectKeepsInv(s: State, limit: nat)
    requires Inv(s) && Enabled(s, Select(limit))
    ensures Inv(Next(s, Select(limit)))
  {
    forall k | 0 <= k < |Take(Pending(s.outbox), limit)|
      ensures var todo := Take(Pending(s.outbox), limit);
              IsRow(s.outbox, todo[k]) && Preceded(s.outbox, s.topic + todo[..k], todo[k])
    {
      SelectionIsOrdered(s, limit, k);
    }
  }

  lemma NextKeepsInv(s: State, a: Action)
    requires Inv(s)
    ensures Inv(Next(s, a))
  {
    hide Inv;
    if Enabled(s, a) {
      match a
      case Insert(e) => InsertKeepsInv(s, e);
      case Select(limit) => SelectKeepsInv(s, limit);
      case SendNext(outcome) =>
        if outcome == DELIVERED {
          DeliveredKeepsInv(s);
        } else {
          FailureKeepsInv(s, outcome);
        }
      case Commit => CommitKeepsInv(s);
      case Crash => CrashKeepsInv(s);
      case Land(e) => LandKeepsInv(s, e);
    }
  }

  lemma CrashKeepsInv(s: State)
    requires Inv(s)
    ensures Inv(s.(batch := None))
  {
  }

  lemma {:induction false} ExecKeepsInv(s: State, actions: seq<Action>)
    requires Inv(s)
    ensures Inv(Exec(s, actions))
    decreases |actions|
  {
    if actions != [] {
      ExecKeepsInv(s, actions[..|actions| - 1]);
      NextKeepsInv(Exec(s, actions[..|actions| - 1]), actions[|actions| - 1]);
    }
  }

  // ---------------------------------------------------------------- what consumers see

  /** Ids of a key in the order in which they first appear in the topic. */
  function Firsts(topic: seq<Entry>, key: nat): seq<nat> {
    if topic == [] then []
    else
      var front, last := Firsts(topic[..|topic| - 1], key), topic[|topic| - 1];
      if last.key == key && last.id !in front then front + [last.id] else front
  }

  /** Ids of a key's outbox rows, in id order. */
  function KeyIds(outbox: seq<Row>, key: nat): seq<nat> {
    if outbox == [] then []
    else KeyIds(outbox[..|outbox| - 1], key)
         + (if outbox[|outbox| - 1].entry.key == key then [outbox[|outbox| - 1].entry.id] else [])
  }

  lemma {:induction false} KeyIdsMembers(outbox: seq<Row>, key: nat, id: nat)
    ensures id in KeyIds(outbox, key) <==> IsRow(outbox, Entry(id, key))
  {
    if outbox != [] {
      var n := |outbox| - 1;
      KeyIdsMembers(outbox[..n], key, id);
      IsRowSnoc(outbox[..n], outbox[n], Entry(id, key));
      assert outbox == outbox[..n] + [outbox[n]];
    }
  }

  lemma IsRowSnoc(front: seq<Row>, last: Row, e: Entry)
    ensures IsRow(front + [last], e) <==> IsRow(front, e) || last.entry == e
  {
    var whole := front + [last];
    if IsRow(front, e) {
      var i :| 0 <= i < |front| && front[i].entry == e;
      assert whole[i].entry == e;
    }
    if last.entry == e {
      assert whole[|front|].entry == e;
    }
  }

  lemma {:induction false} KeyIdsSorted(outbox: seq<Row>, key: nat)
    requires ById(outbox)
    ensures forall a, b :: 0 <= a < b < |KeyIds(outbox, key)| ==> KeyIds(outbox, key)[a] < KeyIds(outbox, key)[b]
  {
    if outbox != [] {
      var n := |outbox| - 1;
      KeyIdsSorted(outbox[..n], key);
      forall a | 0 <= a < |KeyIds(outbox[..n], key)| ensures KeyIds(outbox[..n], key)[a] < outbox[n].entry.id {
        KeyIdsMembers(outbox[..n], key, KeyIds(outbox[..n], key)[a]);
      }
    }
  }

  lemma {:induction false} FirstsMembers(topic: seq<Entry>, key: nat, id: nat)
    ensures id in Firsts(topic, key) <==> Entry(id, key) in topic
  {
    if topic != [] {
      FirstsMembers(topic[..|topic| - 1], key, id);
      assert topic == topic[..|topic| - 1] + [topic[|topic| - 1]];
    }
  }

  lemma {:induction false} FirstsArePrefix(s: State, key: nat, j: nat)
    requires Inv(s) && j <= |s.topic|
    ensures Firsts(s.topic[..j], key) <= KeyIds(s.outbox, key)
  {
    hide ById, IsRow, Preceded, BatchOk, KeyIds;
    if j > 0 {
      FirstsArePrefix(s, key, j - 1);
      var sent, last := s.topic[..j - 1], s.topic[j - 1];
      assert s.topic[..j][..j - 1] == sent;
      assert IsRow(s.outbox, last) && Preceded(s.outbox, sent, last);
      if last.key == key && last.id !in Firsts(sent, key) {
        NextFirst(s, sent, last, key);
      }
    }
  }

  /** A new first occurrence is the next id of its key. */
  lemma NextFirst(s: State, sent: seq<Entry>, last: Entry, key: nat)
    requires ById(s.outbox) && IsRow(s.outbox, last) && Preceded(s.outbox, sent, last)
    requires last.key == key && last.id !in Firsts(sent, key) && Firsts(sent, key) <= KeyIds(s.outbox, key)
    ensures |Firsts(sent, key)| < |KeyIds(s.outbox, key)|
    ensures KeyIds(s.outbox, key)[|Firsts(sent, key)|] == last.id
  {
    var front, ids := Firsts(sent, key), KeyIds(s.outbox, key);
    KeyIdsSorted(s.outbox, key);
    KeyIdsMembers(s.outbox, key, last.id);
    assert last == Entry(last.id, key);
    var p :| 0 <= p < |ids| && ids[p] == last.id;
    assert forall q :: 0 <= q < |front| ==> front[q] == ids[q] && front[q] != last.id;
    if |front| < p {
      assert forall q :: 0 <= q < |front| ==> front[q] < ids[|front|] < last.id;
      EarlierIsFirst(s, sent, last, key, ids[|front|]);
    }
  }

  lemma EarlierIsFirst(s: State, sent: seq<Entry>, last: Entry, key: nat, id: nat)
    requires Preceded(s.outbox, sent, last) && last.key == key && id < last.id && id in KeyIds(s.outbox, key)
    ensures id in Firsts(sent, key)
  {
    KeyIdsMembers(s.outbox, key, id);
    var i :| 0 <= i < |s.outbox| && s.outbox[i].entry == Entry(id, key);
    assert Earlier(s.outbox[i].entry, last);
    FirstsMembers(sent, key, id);
  }

  /**
   * At-least-once, in order, over every run: a row marked published is in the topic, and the first occurrences of a
   * key's messages are a prefix of its rows in id order.
   */
  lemma PublishedInOrder(actions: seq<Action>, key: nat)
    ensures var s := Exec(EMPTY, actions);
            && (forall i :: 0 <= i < |s.outbox| && s.outbox[i].published ==> s.outbox[i].entry in s.topic)
            && Firsts(s.topic, key) <= KeyIds(s.outbox, key)
  {
    var s := Exec(EMPTY, actions);
    ExecKeepsInv(EMPTY, actions);
    FirstsArePrefix(s, key, |s.topic|);
    assert s.topic[..|s.topic|] == s.topic;
  }

  // ---------------------------------------------------------------- the relay

  lemma ExecSnoc(s: State, actions: seq<Action>, a: Action)
    ensures Exec(s, actions + [a]) == Next(Exec(s, actions), a)
  {
    assert (actions + [a])[..|actions|] == actions;
  }

  lemma {:induction false} ExecAppend(s: State, before: seq<Action>, after: seq<Action>)
    ensures Exec(s, before + after) == Exec(Exec(s, before), after)
    decreases |after|
  {
    if after == [] {
      assert before + after == before;
    } else {
      var n := |after| - 1;
      assert (before + after)[..|before + after| - 1] == before + after[..n];
      ExecAppend(s, before, after[..n]);
    }
  }

  /** A run of the relay alone: no insert, no crash, no late landing. */
  predicate RelayOnly(actions: seq<Action>) {
    forall i :: 0 <= i < |actions| ==> actions[i].Select? || actions[i].SendNext? || actions[i].Commit?
  }

  /** `UPDATE outbox SET ... WHERE id = :id`. */
  function Updated(outbox: seq<Row>, e: Entry, published: bool): seq<Row> {
    seq(|outbox|, i requires 0 <= i < |outbox| =>
      if outbox[i].entry == e then Row(e, published || outbox[i].published, outbox[i].attempts + 1) else outbox[i])
  }

  /** Updating one row is adding one mark to those of the batch. */
  lemma UpdateOne(outbox: seq<Row>, b: Batch, e: Entry)
    requires e !in b.marked && b.failed.None?
    ensures forall todo :: Updated(Marked(outbox, b), e, true) == Marked(outbox, Batch(todo, b.marked + {e}, None))
    ensures Updated(Marked(outbox, b), e, false) == Marked(outbox, Batch([], b.marked, Some(e)))
  {
  }

  function EntriesOf(entries: seq<Entry>): set<Entry> {
    set e | e in entries
  }

  lemma EntriesSnoc(rows: seq<Entry>, i: nat)
    requires i < |rows|
    ensures EntriesOf(rows[..i + 1]) == EntriesOf(rows[..i]) + {rows[i]}
  {
    assert rows[..i + 1] == rows[..i] + [rows[i]];
  }

  /** The abstract state after the batch that started in `s0` has delivered its first `i` rows. */
  ghost predicate Delivered(s0: State, s: State, rows: seq<Entry>, i: nat)
    requires i <= |rows|
  {
    Inv(s) && s.outbox == s0.outbox && s.batch == Some(Batch(rows[i..], EntriesOf(rows[..i]), None))
  }

  lemma StartsBatch(s: State, limit: nat)
    requires Inv(s) && s.batch.None?
    ensures var rows := Take(Pending(s.outbox), limit);
            && Exec(s, [Select(limit)]) == Next(s, Select(limit))
            && Delivered(s, Next(s, Select(limit)), rows, 0)
            && Marked(s.outbox, Batch(rows, {}, None)) == s.outbox
            && rows[0..] == rows && EntriesOf(rows[..0]) == {}
  {
    hide Inv, Pending, Take;
    assert [Select(limit)][..0] == [];
    NextKeepsInv(s, Select(limit));
    var rows := Take(Pending(s.outbox), limit);
    assert rows[0..] == rows && EntriesOf(rows[..0]) == {};
  }

  /** A selected row has not been marked before. */
  lemma NotYetMarked(s: State, limit: nat, i: nat)
    requires ById(s.outbox) && i < |Take(Pending(s.outbox), limit)|
    ensures Take(Pending(s.outbox), limit)[i] !in EntriesOf(Take(Pending(s.outbox), limit)[..i])
  {
    hide Pending;
    PendingSorted(s.outbox);
  }

  /** One send: either the batch goes on with one more mark, or it ends with its failed row counted. */
  lemma OneSend(s0: State, s: State, limit: nat, i: nat, outcome: Outcome)
    requires ById(s0.outbox) && i < |Take(Pending(s0.outbox), limit)|
    requires Delivered(s0, s, Take(Pending(s0.outbox), limit), i)
    ensures var rows, after := Take(Pending(s0.outbox), limit), Next(s, SendNext(outcome));
            && Inv(after) && Enabled(s, SendNext(outcome))
            && (if outcome == DELIVERED then
                  && Delivered(s0, after, rows, i + 1)
                  && Updated(Marked(s0.outbox, s.batch.value), rows[i], true) == Marked(s0.outbox, after.batch.value)
                else
                  && after.batch == Some(Batch([], s.batch.value.marked, Some(rows[i]))) && after.outbox == s0.outbox
                  && Updated(Marked(s0.outbox, s.batch.value), rows[i], false) == Marked(s0.outbox, after.batch.value))
  {
    hide Inv, Pending, Take, ById, Marked, Updated, EntriesOf;
    var rows := Take(Pending(s0.outbox), limit);
    NextKeepsInv(s, SendNext(outcome));
    NotYetMarked(s0, limit, i);
    UpdateOne(s0.outbox, s.batch.value, rows[i]);
    EntriesSnoc(rows, i);
    assert rows[i..][0] == rows[i] && rows[i..][1..] == rows[i + 1..];
  }

  /** Committing leaves the marks in the outbox and no transaction open. */
  lemma CommitStep(s: State, b: Batch)
    requires Inv(s) && s.batch == Some(b) && b.todo == []
    ensures Inv(Next(s, Commit)) && Next(s, Commit) == s.(outbox := Marked(s.outbox, b), batch := None)
  {
    hide Inv, Marked;
    NextKeepsInv(s, Commit);
  }

  /** Marking the first `n` pending rows leaves exactly the others pending. */
  lemma {:induction false} MarkedArePending(outbox: seq<Row>, n: nat, b: Batch)
    requires ById(outbox) && n <= |Pending(outbox)| && b.marked == EntriesOf(Pending(outbox)[..n])
    ensures Pending(Marked(outbox, b)) == Pending(outbox)[n..]
    decreases |outbox|
  {
    hide ById, Marked, EntriesOf;
    if outbox == [] {
      assert Marked(outbox, b) == [] by { MarkedSize(outbox, b); }
    } else {
      var front := outbox[..|outbox| - 1];
      var k := if n <= |Pending(front)| then n else |Pending(front)|;
      FrontById(outbox);
      MarkedArePending(front, k, b.(marked := EntriesOf(Pending(front)[..k])));
      MarkedLast(outbox, n, k, b);
    }
  }

  lemma MarkedSize(outbox: seq<Row>, b: Batch)
    ensures |Marked(outbox, b)| == |outbox|
  {
  }

  lemma MarkedLast(outbox: seq<Row>, n: nat, k: nat, b: Batch)
    requires outbox != [] && ById(outbox) && n <= |Pending(outbox)| && b.marked == EntriesOf(Pending(outbox)[..n])
    requires var before := Pending(outbox[..|outbox| - 1]);
             && k == (if n <= |before| then n else |before|)
             && Pending(Marked(outbox[..|outbox| - 1], b.(marked := EntriesOf(before[..k])))) == before[k..]
    ensures Pending(Marked(outbox, b)) == Pending(outbox)[n..]
  {
    hide ById, Marked, EntriesOf;
    var m := |outbox| - 1;
    var last, before := outbox[m], Pending(outbox[..m]);
    var fewer := b.(marked := EntriesOf(before[..k]));
    LastIsNotBefore(outbox);
    TakenLast(before, last, n, k);
    assert b.marked == fewer.marked + (if n <= |before| then {} else {last.entry});
    assert last.entry !in fewer.marked by { NotInPrefix(before, k, last.entry); }
    MarkedSnoc(outbox, b, fewer);
    var after := Marked(outbox, b);
    assert Pending(after) == before[k..] + (if after[m].published then [] else [after[m].entry]);
    assert Pending(outbox) == before + (if last.published then [] else [last.entry]);
  }

  lemma TakenLast(before: seq<Entry>, last: Row, n: nat, k: nat)
    requires var all := before + (if last.published then [] else [last.entry]);
             n <= |all| && k == (if n <= |before| then n else |before|)
    ensures var all := before + (if last.published then [] else [last.entry]);
            EntriesOf(all[..n]) == EntriesOf(before[..k]) + (if n <= |before| then {} else {last.entry})
  {
    var all := before + (if last.published then [] else [last.entry]);
    assert all[..n] == before[..k] + (if n <= |before| then [] else [last.entry]);
  }

  lemma NotInPrefix(s: seq<Entry>, k: nat, e: Entry)
    requires k <= |s| && e !in s
    ensures e !in EntriesOf(s[..k])
  {
  }

  lemma FrontById(outbox: seq<Row>)
    requires ById(outbox) && outbox != []
    ensures ById(outbox[..|outbox| - 1])
  {
  }

  lemma LastIsNotBefore(outbox: seq<Row>)
    requires ById(outbox) && outbox != []
    ensures outbox[|outbox| - 1].entry !in Pending(outbox[..|outbox| - 1])
    ensures forall i :: 0 <= i < |outbox| - 1 ==> outbox[i].entry != outbox[|outbox| - 1].entry
  {
    hide Pending;
    PendingMembers(outbox[..|outbox| - 1], outbox[|outbox| - 1].entry);
  }

  lemma MarkedSnoc(outbox: seq<Row>, b: Batch, fewer: Batch)
    requires outbox != [] && fewer.failed == b.failed
    requires forall i :: 0 <= i < |outbox| - 1 ==> (outbox[i].entry in fewer.marked <==> outbox[i].entry in b.marked)
    ensures |Marked(outbox, b)| == |outbox|
    ensures Marked(outbox, b)[..|outbox| - 1] == Marked(outbox[..|outbox| - 1], fewer)
    ensures var last, after := outbox[|outbox| - 1], Marked(outbox, b)[|outbox| - 1];
            after.entry == last.entry && after.published == (last.published || last.entry in b.marked)
  {
  }

  lemma WholeBatch(outbox: seq<Row>, limit: nat, b: Batch)
    requires ById(outbox) && b.marked == EntriesOf(Take(Pending(outbox), limit))
    ensures |Pending(Marked(outbox, b))| == |Pending(outbox)| - |Take(Pending(outbox), limit)|
  {
    hide ById, Marked, Pending;
    var rows := Take(Pending(outbox), limit);
    assert rows == Pending(outbox)[..|rows|];
    MarkedArePending(outbox, |rows|, b);
  }

  predicate Failed(broker: nat -> Outcome, from: nat, to: nat) {
    exists n :: from <= n < to && broker(n) != DELIVERED
  }

  /** Rows that were delivered are published; these and the one that failed have one more attempt; the rest is kept. */
  predicate Updates(before: seq<Row>, after: seq<Row>, delivered: seq<Entry>, failed: Option<Entry>) {
    && |after| == |before|
    && forall i :: 0 <= i < |before| ==>
         var e := before[i].entry;
         && after[i].entry == e && after[i].published == (before[i].published || e in delivered)
         && after[i].attempts == before[i].attempts + (if e in delivered || Some(e) == failed then 1 else 0)
  }

  lemma MarkedUpdates(outbox: seq<Row>, b: Batch, delivered: seq<Entry>)
    requires b.marked == EntriesOf(delivered)
    ensures Updates(outbox, Marked(outbox, b), delivered, b.failed)
  {
  }

  /**
   * What a batch does from `before` and the broker's answer `from` on: it sends `rows` in order, all of them or up to
   * the first that fails, which may have landed or land later.
   */
  predicate Sends(broker: nat -> Outcome, rows: seq<Entry>, before: State, from: nat, after: State, to: nat,
                  published: int)
  {
    if published >= 0 then
      && to == from + |rows| && after.topic == before.topic + rows && after.late == before.late
      && Updates(before.outbox, after.outbox, rows, None)
    else
      var k := to - from - 1;
      && 0 <= k < |rows| && (forall n :: from <= n < to - 1 ==> broker(n) == DELIVERED)
      && broker(to - 1) != DELIVERED
      && after.topic == before.topic + rows[..k] + (if broker(to - 1) == LANDED_ANYWAY then [rows[k]] else [])
      && after.late == before.late + (if broker(to - 1) == LANDS_LATER then {rows[k]} else {})
      && Updates(before.outbox, after.outbox, rows[..k], Some(rows[k]))
  }

  /** The batch so far: the first `i` rows delivered. */
  predicate SoFar(broker: nat -> Outcome, rows: seq<Entry>, before: State, from: nat, now: State, i: nat)
    requires i <= |rows|
  {
    && now.topic == before.topic + rows[..i] && now.late == before.late
    && forall n :: from <= n < from + i ==> broker(n) == DELIVERED
  }

  lemma NothingYet(broker: nat -> Outcome, rows: seq<Entry>, before: State, from: nat)
    ensures SoFar(broker, rows, before, from, before, 0)
  {
  }

  lemma OneMore(broker: nat -> Outcome, rows: seq<Entry>, before: State, from: nat, now: State, i: nat, after: State)
    requires i < |rows| && SoFar(broker, rows, before, from, now, i) && broker(from + i) == DELIVERED
    requires after.topic == now.topic + [rows[i]] && after.late == now.late
    ensures SoFar(broker, rows, before, from, after, i + 1)
  {
    assert rows[..i + 1] == rows[..i] + [rows[i]];
  }

  lemma AllSent(broker: nat -> Outcome, rows: seq<Entry>, before: State, from: nat, now: State, b: Batch, after: State)
    requires SoFar(broker, rows, before, from, now, |rows|) && b.marked == EntriesOf(rows) && b.failed.None?
    requires after == State(Marked(before.outbox, b), now.topic, now.late, None)
    ensures Sends(broker, rows, before, from, after, from + |rows|, |rows|)
  {
    hide Marked, EntriesOf, Updates;
    MarkedUpdates(before.outbox, b, rows);
    assert rows[..|rows|] == rows;
  }

  lemma OneFailed(broker: nat -> Outcome, rows: seq<Entry>, before: State, from: nat, now: State, i: nat, b: Batch,
                  after: State)
    requires i < |rows| && SoFar(broker, rows, before, from, now, i) && broker(from + i) != DELIVERED
    requires b.marked == EntriesOf(rows[..i]) && b.failed == Some(rows[i])
    requires after.outbox == Marked(before.outbox, b)
    requires after.topic == if broker(from + i) == LANDED_ANYWAY then now.topic + [rows[i]] else now.topic
    requires after.late == if broker(from + i) == LANDS_LATER then now.late + {rows[i]} else now.late
    ensures Sends(broker, rows, before, from, after, from + i + 1, -1)
  {
    hide Marked, EntriesOf, Updates;
    MarkedUpdates(before.outbox, b, rows[..i]);
  }

  /** `OutboxRelay`: the relay's tables and topic, updated in place. */
  class Relay {
    var outbox: seq<Row>
    var topic: seq<Entry>
    var late: set<Entry>
    /** Sends made so far; the broker answers the n-th one with `broker(n)`. */
    var sends: nat
    const broker: nat -> Outcome
    const batchSize: nat

    constructor (outbox: seq<Row>, batchSize: nat, broker: nat -> Outcome)
      requires batchSize > 0 && Inv(State(outbox, [], {}, None))
      ensures Valid() && Now() == State(outbox, [], {}, None) && sends == 0
      ensures this.batchSize == batchSize && this.broker == broker
    {
      this.outbox, topic, late, sends := outbox, [], {}, 0;
      this.batchSize, this.broker := batchSize, broker;
    }

    function Now(): State
      reads this
    {
      State(outbox, topic, late, None)
    }

    ghost predicate Valid()
      reads this
    {
      Inv(Now()) && batchSize > 0
    }

    /** `send`: the record may reach the topic even when the broker's answer is a failure. */
    method Send(row: Entry) returns (ok: bool, ghost outcome: Outcome)
      modifies this
      ensures outcome == broker(old(sends)) && ok == (outcome == DELIVERED) && sends == old(sends) + 1
      ensures outbox == old(outbox)
      ensures topic == if outcome == DELIVERED || outcome == LANDED_ANYWAY then old(topic) + [row] else old(topic)
      ensures late == if outcome == LANDS_LATER then old(late) + {row} else old(late)
    {
      var answer := broker(sends);
      sends := sends + 1;
      if answer == DELIVERED || answer == LANDED_ANYWAY {
        topic := topic + [row];
      } else if answer == LANDS_LATER {
        late := late + {row};
      }
      return answer == DELIVERED, answer;
    }

    /**
     * `publishBatch`: one transaction. It is a run of the abstract relay. The first pending rows are sent in id order
     * until a send fails; its result is the number of rows it published, or -1. Each delivered row is published, and
     * these and the failed one have one more attempt.
     */
    method PublishBatch() returns (published: int, ghost actions: seq<Action>)
      requires Valid()
      modifies this
      ensures Valid() && RelayOnly(actions) && Now() == Exec(old(Now()), actions) && sends >= old(sends)
      ensures published == -1 || published == |Take(Pending(old(outbox)), batchSize)|
      ensures published >= 0 ==> |Pending(outbox)| == |Pending(old(outbox))| - published
      ensures published == -1 ==> Failed(broker, old(sends), sends)
      ensures Sends(broker, Take(Pending(old(outbox)), batchSize), old(Now()), old(sends), Now(), sends, published)
    {
      hide Inv, ById, Pending, Take, Marked, Updated, Next, Exec, EntriesOf, Updates, Sends, SoFar;
      var rows := Take(Pending(outbox), batchSize);
      ghost var s0 := Now();
      assert ById(s0.outbox) by { InvById(s0); }
      StartsBatch(s0, batchSize);
      actions := [Select(batchSize)];
      ghost var s := Next(s0, Select(batchSize));
      assert s.topic == topic && s.late == late by { SelectOnlySelects(s0, batchSize); }
      NothingYet(broker, rows, s0, sends);
      var ok := 0;
      for i := 0 to |rows|
        invariant Delivered(s0, s, rows, i) && s == Exec(s0, actions) && RelayOnly(actions)
        invariant s.topic == topic && s.late == late
        invariant outbox == Marked(s0.outbox, s.batch.value) && ok == i && sends == old(sends) + i
        invariant SoFar(broker, rows, s0, old(sends), Now(), i)
      {
        ghost var before := Now();
        var sent, outcome := Send(rows[i]);
        OneSend(s0, s, batchSize, i, outcome);
        SendMoves(s, outcome, rows[i]);
        ExecSnoc(s0, actions, SendNext(outcome));
        actions, s := actions + [SendNext(outcome)], Next(s, SendNext(outcome));
        outbox := Updated(outbox, rows[i], sent);
        if !sent {
          ExecSnoc(s0, actions, Commit);
          CommitStep(s, s.batch.value);
          OneFailed(broker, rows, s0, old(sends), before, i, s.batch.value, Now());
          return -1, actions + [Commit];
        }
        OneMore(broker, rows, s0, old(sends), before, i, Now());
        ok := ok + 1;
      }
      assert rows[..|rows|] == rows && rows[|rows|..] == [];
      ExecSnoc(s0, actions, Commit);
      CommitStep(s, s.batch.value);
      WholeBatch(s0.outbox, batchSize, s.batch.value);
      AllSent(broker, rows, s0, old(sends), Now(), s.batch.value, Now());
      return ok, actions + [Commit];
    }

    /** `relay`: batches until one is not full or fails; on a finite outbox it ends. */
    method Run() returns (published: int, ghost actions: seq<Action>)
      requires Valid()
      modifies this
      ensures Valid() && RelayOnly(actions) && Now() == Exec(old(Now()), actions)
      ensures published == -1 || Pending(outbox) == []
      ensures published == -1 ==> Failed(broker, old(sends), sends)
    {
      hide Inv, ById, Pending, Exec;
      ghost var s0 := Now();
      published, actions := PublishBatch();
      while published == batchSize
        invariant Valid() && RelayOnly(actions) && Now() == Exec(s0, actions) && old(sends) <= sends
        invariant published == -1 || |Pending(outbox)| == 0 || published == batchSize
        invariant published == -1 ==> Failed(broker, old(sends), sends)
        decreases if published == batchSize then |Pending(outbox)| + 1 else 0
      {
        ghost var before, more := actions, [];
        published, more := PublishBatch();
        ExecAppend(s0, before, more);
        actions := before + more;
      }
    }
  }

  lemma InvById(s: State)
    requires Inv(s)
    ensures ById(s.outbox)
  {
  }

  lemma SelectOnlySelects(s: State, limit: nat)
    ensures Next(s, Select(limit)).topic == s.topic && Next(s, Select(limit)).late == s.late
  {
  }

  lemma SendMoves(s: State, outcome: Outcome, e: Entry)
    requires s.batch.Some? && s.batch.value.todo != [] && s.batch.value.todo[0] == e
    ensures var after := Next(s, SendNext(outcome));
            && after.topic == (if outcome == DELIVERED || outcome == LANDED_ANYWAY then s.topic + [e] else s.topic)
            && after.late == (if outcome == LANDS_LATER then s.late + {e} else s.late)
  {
  }
}
