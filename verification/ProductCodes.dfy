/**
 * `product.py`: codes of the human's tasks by three competing rules, frozen over recorded over positional, and the
 * single writer that records a new one.
 */
module ProductCodes {
  import opened Prelude

  /** A `task` row of the human, with the code recorded in it, if any. */
  datatype Task = Task(id: string, code: Option<string>)

  datatype Row = HumanTask(task: Task) | OtherRow

  // ---------------------------------------------------------------- decimal numbers

  function Digit(d: nat): char
    requires d < 10
  {
    '0' + d as char
  }

  predicate IsDigit(c: char) {
    '0' <= c <= '9'
  }

  predicate AllDigits(s: string) {
    forall i :: 0 <= i < |s| ==> IsDigit(s[i])
  }

  function Dec(n: nat): (s: string)
    ensures s != ""
  {
    if n < 10 then [Digit(n)] else Dec(n / 10) + [Digit(n % 10)]
  }

  function Value(s: string): nat
    requires AllDigits(s)
  {
    if s == "" then 0 else 10 * Value(s[..|s| - 1]) + (s[|s| - 1] - '0') as nat
  }

  /** Printing a positive number gives digits without a leading zero that read back as the number. */
  lemma {:induction false} DecReadsBack(n: nat)
    ensures AllDigits(Dec(n)) && Value(Dec(n)) == n
    ensures n > 0 ==> Dec(n)[0] != '0'
  {
    if n < 10 {
      assert [Digit(n)][..0] == "";
    } else {
      DecReadsBack(n / 10);
      var front, last := Dec(n / 10), Digit(n % 10);
      assert (front + [last])[..|front|] == front;
    }
  }

  // ---------------------------------------------------------------- codes

  /** Python's `$` also matches before a final newline. */
  function Core(c: string): string {
    if c != "" && c[|c| - 1] == '\n' then c[..|c| - 1] else c
  }

  /** `^([A-Z])([1-9][0-9]*)$`. */
  predicate IsCode(c: string) {
    var core := Core(c);
    |core| >= 2 && 'A' <= core[0] <= 'Z' && core[1] != '0' && AllDigits(core[1..])
  }

  /** `_num`. */
  function Num(c: string): nat {
    if IsCode(c) then Value(Core(c)[1..]) else 0
  }

  /** `_valid`. */
  predicate Valid(c: string, prefix: char) {
    IsCode(c) && Core(c)[0] == prefix
  }

  function Code(prefix: char, n: nat): string {
    [prefix] + Dec(n)
  }

  lemma CodeReadsBack(prefix: char, n: nat)
    requires 'A' <= prefix <= 'Z' && n > 0
    ensures Valid(Code(prefix, n), prefix) && Num(Code(prefix, n)) == n
  {
    DecReadsBack(n);
    var c := Code(prefix, n);
    assert c[1..] == Dec(n) && IsDigit(c[|c| - 1]);
  }

  // ---------------------------------------------------------------- the three rules

  function HumanTasks(rows: seq<Row>): seq<Task> {
    if rows == [] then []
    else HumanTasks(rows[..|rows| - 1]) + (if rows[|rows| - 1].HumanTask? then [rows[|rows| - 1].task] else [])
  }

  function SetDefault(m: map<string, string>, k: string, v: string): map<string, string> {
    if k in m then m else m[k := v]
  }

  /** Codes held by frozen tasks. */
  function FrozenOwners(tasks: seq<Task>, frozen: map<string, string>): map<string, string> {
    if tasks == [] then map[]
    else
      var owner, t := FrozenOwners(tasks[..|tasks| - 1], frozen), tasks[|tasks| - 1];
      if t.id in frozen then SetDefault(owner, frozen[t.id], t.id) else owner
  }

  /** Code to task, and task to the recorded code it keeps. */
  datatype Claims = Claims(owner: map<string, string>, accepted: map<string, string>)

  /** A recorded code counts when it is valid and nobody else holds it. */
  function Claim(claims: Claims, t: Task, frozen: map<string, string>, prefix: char): Claims {
    if t.id in frozen || t.code.None? || !Valid(t.code.value, prefix) then claims
    else
      var c := t.code.value;
      if c in claims.owner && claims.owner[c] != t.id then claims
      else Claims(SetDefault(claims.owner, c, t.id), claims.accepted[t.id := c])
  }

  function Recorded(tasks: seq<Task>, from: map<string, string>, frozen: map<string, string>, prefix: char): Claims {
    if tasks == [] then Claims(from, map[])
    else Claim(Recorded(tasks[..|tasks| - 1], from, frozen, prefix), tasks[|tasks| - 1], frozen, prefix)
  }

  function Above(taken: set<string>, n: nat): set<string> {
    set c | c in taken && Num(c) >= n
  }

  lemma AboveShrinks(taken: set<string>, prefix: char, n: nat)
    requires 'A' <= prefix <= 'Z' && n > 0 && Code(prefix, n) in taken
    ensures |Above(taken, n + 1)| < |Above(taken, n)|
  {
    hide Num, Code;
    CodeReadsBack(prefix, n);
    var less, more := Above(taken, n + 1), Above(taken, n);
    assert Code(prefix, n) in more && Code(prefix, n) !in less;
    assert less <= more;
    if |less| >= |more| {
      SmallerSet(less, more);
    }
  }

  lemma SmallerSet(less: set<string>, more: set<string>)
    requires less <= more && |less| >= |more|
    ensures less == more
  {
    assert |more - less| == 0;
  }

  /** The first number from `n` on whose code is free. */
  function Gap(taken: set<string>, prefix: char, n: nat): (m: nat)
    requires 'A' <= prefix <= 'Z' && n > 0
    ensures m >= n && Code(prefix, m) !in taken
    ensures forall k :: n <= k < m ==> Code(prefix, k) in taken
    decreases |Above(taken, n)|
  {
    if Code(prefix, n) in taken then
      AboveShrinks(taken, prefix, n);
      Gap(taken, prefix, n + 1)
    else n
  }

  datatype Assigned = Assigned(codes: map<string, string>, last: nat, taken: set<string>)

  /** A task keeps its fixed code; without one it gets the first free number above all earlier ones. */
  function Assign(a: Assigned, t: Task, fixed: map<string, string>, prefix: char): Assigned
    requires 'A' <= prefix <= 'Z'
  {
    if t.id in a.codes then a
    else if t.id in fixed then a.(codes := a.codes[t.id := fixed[t.id]], last := Max(a.last, Num(fixed[t.id])))
    else
      var c := Code(prefix, Gap(a.taken, prefix, a.last + 1));
      Assigned(a.codes[t.id := c], Max(a.last, Num(c)), a.taken + {c})
  }

  function AssignAll(tasks: seq<Task>, fixed: map<string, string>, taken: set<string>, prefix: char): Assigned
    requires 'A' <= prefix <= 'Z'
  {
    if tasks == [] then Assigned(map[], 0, taken)
    else Assign(AssignAll(tasks[..|tasks| - 1], fixed, taken, prefix), tasks[|tasks| - 1], fixed, prefix)
  }

  function Claimed(tasks: seq<Task>, frozen: map<string, string>, prefix: char): Claims {
    Recorded(tasks, FrozenOwners(tasks, frozen), frozen, prefix)
  }

  /** Frozen codes and accepted recorded ones. */
  function Fixed(tasks: seq<Task>, frozen: map<string, string>, prefix: char): map<string, string> {
    Claimed(tasks, frozen, prefix).accepted + frozen
  }

  /** `_compute`. */
  function Compute(tasks: seq<Task>, frozen: map<string, string>, prefix: char): map<string, string>
    requires 'A' <= prefix <= 'Z'
  {
    AssignAll(tasks, Fixed(tasks, frozen, prefix), Claimed(tasks, frozen, prefix).owner.Keys, prefix).codes
  }

  // ---------------------------------------------------------------- hypotheses

  predicate DistinctIds(tasks: seq<Task>) {
    forall i, j :: 0 <= i < j < |tasks| ==> tasks[i].id != tasks[j].id
  }

  predicate Injective(frozen: map<string, string>) {
    forall a, b :: a in frozen && b in frozen && frozen[a] == frozen[b] ==> a == b
  }

  predicate Has(tasks: seq<Task>, id: string) {
    exists t <- tasks :: t.id == id
  }

  // ---------------------------------------------------------------- who holds a code

  lemma HasSnoc(front: seq<Task>, last: Task, id: string)
    ensures Has(front + [last], id) <==> Has(front, id) || last.id == id
  {
    assert forall t :: t in front + [last] <==> t in front || t == last;
  }

  /** The holders of codes are the frozen tasks of the log, each of its own code. */
  predicate OwnersOk(owner: map<string, string>, tasks: seq<Task>, frozen: map<string, string>) {
    && (forall id <- frozen :: Has(tasks, id) ==> frozen[id] in owner && owner[frozen[id]] == id)
    && (forall c <- owner :: Has(tasks, owner[c]) && owner[c] in frozen && frozen[owner[c]] == c)
  }

  lemma OneMoreOwner(owner: map<string, string>, front: seq<Task>, last: Task, frozen: map<string, string>)
    requires Injective(frozen) && OwnersOk(owner, front, frozen)
    ensures OwnersOk(if last.id in frozen then SetDefault(owner, frozen[last.id], last.id) else owner,
             front + [last], frozen)
  {
    hide Has;
    forall id ensures Has(front + [last], id) <==> Has(front, id) || last.id == id {
      HasSnoc(front, last, id);
    }
  }

  lemma {:induction false} FrozenOwn(tasks: seq<Task>, frozen: map<string, string>)
    requires Injective(frozen)
    ensures OwnersOk(FrozenOwners(tasks, frozen), tasks, frozen)
  {
    hide Has, Injective, OwnersOk, SetDefault;
    if tasks == [] {
      assert OwnersOk(map[], [], frozen) by { NobodyHas(frozen); }
    } else {
      var front, last := tasks[..|tasks| - 1], tasks[|tasks| - 1];
      FrozenOwn(front, frozen);
      assert tasks == front + [last];
      OneMoreOwner(FrozenOwners(front, frozen), front, last, frozen);
    }
  }

  lemma NobodyHas(frozen: map<string, string>)
    ensures OwnersOk(map[], [], frozen)
  {
  }

  /**
   * The claims after some tasks: codes already held stay held; each accepted code is held by its task; every other
   * held code is the accepted code of its holder.
   */
  predicate ClaimsOk(claims: Claims, from: map<string, string>, frozen: map<string, string>) {
    && (forall c <- from :: c in claims.owner && claims.owner[c] == from[c])
    && (forall id <- claims.accepted ::
          id !in frozen && claims.accepted[id] in claims.owner && claims.owner[claims.accepted[id]] == id)
    && (forall c <- claims.owner ::
         c in from || (claims.owner[c] in claims.accepted && claims.accepted[claims.owner[c]] == c))
  }

  lemma ClaimKeepsOk(claims: Claims, t: Task, from: map<string, string>, frozen: map<string, string>, prefix: char)
    requires ClaimsOk(claims, from, frozen) && t.id !in claims.accepted
    ensures ClaimsOk(Claim(claims, t, frozen, prefix), from, frozen)
  {
    hide Valid;
  }

  lemma {:induction false} RecordedOk(tasks: seq<Task>, from: map<string, string>, frozen: map<string, string>,
                                     prefix: char)
    requires DistinctIds(tasks)
    ensures ClaimsOk(Recorded(tasks, from, frozen, prefix), from, frozen)
    ensures forall id <- Recorded(tasks, from, frozen, prefix).accepted :: Has(tasks, id)
  {
    hide Valid, Has, ClaimsOk;
    if tasks == [] {
      assert ClaimsOk(Claims(from, map[]), from, frozen) by { NoClaims(from, frozen); }
    } else {
      var front, last := tasks[..|tasks| - 1], tasks[|tasks| - 1];
      RecordedOk(front, from, frozen, prefix);
      assert tasks == front + [last];
      assert !Has(front, last.id) by { LastIsNew(tasks); }
      forall id ensures Has(tasks, id) <==> Has(front, id) || last.id == id {
        HasSnoc(front, last, id);
      }
      ClaimKeepsOk(Recorded(front, from, frozen, prefix), last, from, frozen, prefix);
    }
  }

  lemma NoClaims(from: map<string, string>, frozen: map<string, string>)
    ensures ClaimsOk(Claims(from, map[]), from, frozen)
  {
  }

  lemma LastIsNew(tasks: seq<Task>)
    requires DistinctIds(tasks) && tasks != []
    ensures !Has(tasks[..|tasks| - 1], tasks[|tasks| - 1].id) && DistinctIds(tasks[..|tasks| - 1])
  {
  }

  /** Fixed codes differ, and are exactly the held ones. */
  lemma FixedOk(tasks: seq<Task>, frozen: map<string, string>, prefix: char)
    requires DistinctIds(tasks) && Injective(frozen)
    ensures var fixed, held := Fixed(tasks, frozen, prefix), Claimed(tasks, frozen, prefix).owner.Keys;
            && (forall a, b ::
                 a in fixed && b in fixed && Has(tasks, a) && Has(tasks, b) && fixed[a] == fixed[b] ==> a == b)
            && (forall id <- fixed :: Has(tasks, id) ==> fixed[id] in held)
            && (forall c <- held :: exists id :: Has(tasks, id) && id in fixed && fixed[id] == c)
  {
    hide Has, Recorded, FrozenOwners;
    FrozenOwn(tasks, frozen);
    RecordedOk(tasks, FrozenOwners(tasks, frozen), frozen, prefix);
    var owner := Claimed(tasks, frozen, prefix).owner;
    var fixed := Fixed(tasks, frozen, prefix);
    assert forall id <- fixed :: Has(tasks, id) ==> fixed[id] in owner && owner[fixed[id]] == id;
    forall c | c in owner ensures Has(tasks, owner[c]) && owner[c] in fixed && fixed[owner[c]] == c {
    }
  }

  // ---------------------------------------------------------------- assigned codes

  /** What has been assigned to the first tasks. */
  ghost predicate AssignedOk(a: Assigned, tasks: seq<Task>, fixed: map<string, string>, held: set<string>,
                               prefix: char) {
    && (forall id :: id in a.codes <==> Has(tasks, id))
    && (forall id <- a.codes :: Num(a.codes[id]) <= a.last)
    && (forall id <- a.codes :: id in fixed ==> a.codes[id] == fixed[id])
    && (forall id <- a.codes :: id !in fixed ==>
          a.codes[id] !in held && a.codes[id] in a.taken && Valid(a.codes[id], prefix))
    && (forall x, y ::
         x in a.codes && y in a.codes && x !in fixed && y !in fixed && a.codes[x] == a.codes[y] ==> x == y)
    && held <= a.taken
  }

  /** A task's code, fixed or new, joins the assigned ones. */
  lemma CodeJoins(
    a: Assigned, tasks: seq<Task>, t: Task, fixed: map<string, string>, held: set<string>, prefix: char, c: string)
    requires AssignedOk(a, tasks, fixed, held, prefix) && !Has(tasks, t.id)
    requires if t.id in fixed then c == fixed[t.id] else c !in a.taken && Valid(c, prefix)
    ensures var taken := if t.id in fixed then a.taken else a.taken + {c};
            AssignedOk(Assigned(a.codes[t.id := c], Max(a.last, Num(c)), taken), tasks + [t], fixed, held, prefix)
  {
    hide Has, Num, Valid;
    forall id ensures Has(tasks + [t], id) <==> Has(tasks, id) || t.id == id {
      HasSnoc(tasks, t, id);
    }
  }

  lemma AssignKeepsOk(
    a: Assigned, tasks: seq<Task>, t: Task, fixed: map<string, string>, held: set<string>, prefix: char)
    requires 'A' <= prefix <= 'Z' && AssignedOk(a, tasks, fixed, held, prefix) && !Has(tasks, t.id)
    ensures AssignedOk(Assign(a, t, fixed, prefix), tasks + [t], fixed, held, prefix)
  {
    hide Has, Num, Valid, Code, Gap;
    assert t.id !in a.codes;
    if t.id in fixed {
      CodeJoins(a, tasks, t, fixed, held, prefix, fixed[t.id]);
    } else {
      var n := Gap(a.taken, prefix, a.last + 1);
      CodeReadsBack(prefix, n);
      CodeJoins(a, tasks, t, fixed, held, prefix, Code(prefix, n));
    }
  }

  lemma {:induction false} AssignAllOk(tasks: seq<Task>, fixed: map<string, string>, held: set<string>, prefix: char)
    requires 'A' <= prefix <= 'Z' && DistinctIds(tasks)
    ensures AssignedOk(AssignAll(tasks, fixed, held, prefix), tasks, fixed, held, prefix)
  {
    hide Assign, Has, AssignedOk;
    if tasks == [] {
      assert AssignedOk(Assigned(map[], 0, held), [], fixed, held, prefix) by { NothingAssigned(fixed, held, prefix); }
    } else {
      var front, last := tasks[..|tasks| - 1], tasks[|tasks| - 1];
      LastIsNew(tasks);
      AssignAllOk(front, fixed, held, prefix);
      AssignKeepsOk(AssignAll(front, fixed, held, prefix), front, last, fixed, held, prefix);
      assert tasks == front + [last];
    }
  }

  lemma NothingAssigned(fixed: map<string, string>, held: set<string>, prefix: char)
    ensures AssignedOk(Assigned(map[], 0, held), [], fixed, held, prefix)
  {
  }

  /** Exactly the tasks of the log have a code, also when an id is repeated. */
  lemma {:induction false} EveryTaskHasCode(tasks: seq<Task>, fixed: map<string, string>, held: set<string>,
                                           prefix: char, id: string)
    requires 'A' <= prefix <= 'Z'
    ensures id in AssignAll(tasks, fixed, held, prefix).codes <==> Has(tasks, id)
  {
    hide Gap, Num, Code, Has;
    if tasks == [] {
      assert !Has([], id) by { NoTask(id); }
    } else {
      EveryTaskHasCode(tasks[..|tasks| - 1], fixed, held, prefix, id);
      HasSnoc(tasks[..|tasks| - 1], tasks[|tasks| - 1], id);
      assert tasks == tasks[..|tasks| - 1] + [tasks[|tasks| - 1]];
    }
  }

  lemma NoTask(id: string)
    ensures !Has([], id)
  {
  }

  /** With distinct ids and an injective frozen table, every task has a code and no two tasks the same. */
  lemma CodesAreDistinct(tasks: seq<Task>, frozen: map<string, string>, prefix: char)
    requires 'A' <= prefix <= 'Z' && DistinctIds(tasks) && Injective(frozen)
    ensures var codes := Compute(tasks, frozen, prefix);
            && (forall id :: id in codes <==> Has(tasks, id))
            && (forall x, y :: x in codes && y in codes && codes[x] == codes[y] ==> x == y)
  {
    hide Has, Num, Valid, AssignAll, Fixed, Claimed;
    AssignAllOk(tasks, Fixed(tasks, frozen, prefix), Claimed(tasks, frozen, prefix).owner.Keys, prefix);
    FixedOk(tasks, frozen, prefix);
  }

  predicate Freezes(t: Task, frozen: map<string, string>, c: string) {
    t.id in frozen && frozen[t.id] == c
  }

  predicate Records(t: Task, frozen: map<string, string>, prefix: char, c: string) {
    t.id !in frozen && t.code == Some(c) && Valid(c, prefix)
  }

  /** Held codes are those taken over and those some task records. */
  lemma {:induction false} HeldIff(
    tasks: seq<Task>, from: map<string, string>, frozen: map<string, string>, prefix: char, c: string)
    ensures c in Recorded(tasks, from, frozen, prefix).owner
       <==> c in from || exists t <- tasks :: Records(t, frozen, prefix, c)
  {
    hide Valid;
    if tasks != [] {
      var front, last := tasks[..|tasks| - 1], tasks[|tasks| - 1];
      HeldIff(front, from, frozen, prefix, c);
      assert tasks == front + [last];
      var before, after := Recorded(front, from, frozen, prefix).owner, Recorded(tasks, from, frozen, prefix).owner;
      assert c in after <==> c in before || Records(last, frozen, prefix, c);
      if t :| t in tasks && Records(t, frozen, prefix, c) {
        assert t in front || t == last;
      }
      if Records(last, frozen, prefix, c) {
        assert last in tasks;
      }
      if t :| t in front && Records(t, frozen, prefix, c) {
        assert t in tasks;
      }
    }
  }

  /** Whether a task's recorded code is accepted is decided when the task is met. */
  lemma {:induction false} AcceptedThen(
    tasks: seq<Task>, from: map<string, string>, frozen: map<string, string>, prefix: char, i: nat)
    requires DistinctIds(tasks) && i < |tasks|
    ensures var now := Recorded(tasks, from, frozen, prefix).accepted;
            var met := Recorded(tasks[..i + 1], from, frozen, prefix).accepted;
            && (tasks[i].id in now <==> tasks[i].id in met)
            && (tasks[i].id in now ==> now[tasks[i].id] == met[tasks[i].id])
    decreases |tasks|
  {
    hide Valid;
    if i + 1 == |tasks| {
      assert tasks[..i + 1] == tasks;
    } else {
      var front := tasks[..|tasks| - 1];
      assert front[..i + 1] == tasks[..i + 1];
      AcceptedThen(front, from, frozen, prefix, i);
    }
  }

  /** A recorded code is accepted exactly when nobody held it before. */
  lemma AcceptedIff(tasks: seq<Task>, frozen: map<string, string>, prefix: char, i: nat, c: string)
    requires DistinctIds(tasks) && Injective(frozen) && i < |tasks| && Records(tasks[i], frozen, prefix, c)
    ensures var from, accepted := FrozenOwners(tasks, frozen), Claimed(tasks, frozen, prefix).accepted;
            && (tasks[i].id in accepted ==> accepted[tasks[i].id] == c)
            && (tasks[i].id in accepted <==> c !in Recorded(tasks[..i], from, frozen, prefix).owner)
  {
    hide Valid, FrozenOwners, Has;
    var t, front, from := tasks[i], tasks[..i], FrozenOwners(tasks, frozen);
    AcceptedThen(tasks, from, frozen, prefix, i);
    FrozenOwn(tasks, frozen);
    RecordedOk(front, from, frozen, prefix);
    NotBefore(tasks, i);
    assert tasks[..i + 1][..i] == front && tasks[..i + 1][i] == t;
  }

  /**
   * The three rules in their order: a frozen code always counts; a recorded one exactly when no frozen task of the log
   * has it and no earlier task recorded it; any other task is numbered.
   */
  lemma RulesInOrder(tasks: seq<Task>, frozen: map<string, string>, prefix: char, i: nat, c: string)
    requires 'A' <= prefix <= 'Z' && DistinctIds(tasks) && Injective(frozen) && i < |tasks|
    ensures var codes, t := Compute(tasks, frozen, prefix), tasks[i];
            && t.id in codes
            && (Freezes(t, frozen, c) ==> codes[t.id] == c)
            && (Records(t, frozen, prefix, c) ==>
                 (codes[t.id] == c <==>
                   !(exists u <- tasks :: Freezes(u, frozen, c))
                   && !(exists u <- tasks[..i] :: Records(u, frozen, prefix, c))))
            && (t.id !in frozen && !Records(t, frozen, prefix, codes[t.id]) ==> t.id !in Fixed(tasks, frozen, prefix))
  {
    hide Has, Valid, AssignAll, FrozenOwners, Recorded;
    var t, from := tasks[i], FrozenOwners(tasks, frozen);
    var fixed, held := Fixed(tasks, frozen, prefix), Claimed(tasks, frozen, prefix).owner.Keys;
    AssignAllOk(tasks, fixed, held, prefix);
    HasAt(tasks, i);
    HeldByFrozen(tasks, frozen, c);
    if Records(t, frozen, prefix, c) {
      AcceptedIff(tasks, frozen, prefix, i, c);
      HeldIff(tasks[..i], from, frozen, prefix, c);
      HeldIff(tasks, from, frozen, prefix, c);
    }
    OnlyRecordedIsAccepted(tasks, from, frozen, prefix, t.id, t);
  }

  lemma HeldByFrozen(tasks: seq<Task>, frozen: map<string, string>, c: string)
    requires Injective(frozen)
    ensures c in FrozenOwners(tasks, frozen) <==> exists u <- tasks :: Freezes(u, frozen, c)
  {
    hide FrozenOwners;
    FrozenOwn(tasks, frozen);
    forall u | u in tasks && Freezes(u, frozen, c) ensures Has(tasks, u.id) {
      HasMember(tasks, u);
    }
  }

  lemma ClaimAccepts(claims: Claims, t: Task, frozen: map<string, string>, prefix: char, id: string)
    ensures var before, after := claims.accepted, Claim(claims, t, frozen, prefix).accepted;
            && (id != t.id ==> (id in after <==> id in before) && (id in after ==> after[id] == before[id]))
            && (id == t.id && id !in before && id in after ==> Records(t, frozen, prefix, after[id]))
  {
    hide Valid;
  }

  lemma {:induction false} OnlyRecordedIsAccepted(
    tasks: seq<Task>, from: map<string, string>, frozen: map<string, string>, prefix: char, id: string, t: Task)
    requires DistinctIds(tasks) && t in tasks && t.id == id
    ensures var accepted := Recorded(tasks, from, frozen, prefix).accepted;
            id in accepted ==> Records(t, frozen, prefix, accepted[id])
  {
    hide Claim, Records, Has, ClaimsOk;
    var front, last := tasks[..|tasks| - 1], tasks[|tasks| - 1];
    assert tasks == front + [last];
    ClaimAccepts(Recorded(front, from, frozen, prefix), last, frozen, prefix, id);
    LastIsNew(tasks);
    if t in front {
      OnlyRecordedIsAccepted(front, from, frozen, prefix, id, t);
      assert Has(front, id) by { HasMember(front, t); }
    } else {
      RecordedOk(front, from, frozen, prefix);
    }
  }

  lemma HasMember(tasks: seq<Task>, t: Task)
    requires t in tasks
    ensures Has(tasks, t.id)
  {
  }

  /** Later tasks do not change the codes of earlier ones. */
  lemma {:induction false} CodesPersist(
    tasks: seq<Task>, n: nat, fixed: map<string, string>, held: set<string>, prefix: char, id: string)
    requires 'A' <= prefix <= 'Z' && n <= |tasks| && id in AssignAll(tasks[..n], fixed, held, prefix).codes
    ensures var codes := AssignAll(tasks, fixed, held, prefix).codes;
            id in codes && codes[id] == AssignAll(tasks[..n], fixed, held, prefix).codes[id]
    decreases |tasks|
  {
    hide Gap, Num, Code;
    if n == |tasks| {
      assert tasks[..n] == tasks;
    } else {
      assert tasks[..|tasks| - 1][..n] == tasks[..n];
      CodesPersist(tasks[..|tasks| - 1], n, fixed, held, prefix, id);
    }
  }

  /** A task without a frozen or accepted code is numbered above every earlier task. */
  lemma UnrecordedIsNumberedAbove(tasks: seq<Task>, frozen: map<string, string>, prefix: char, i: nat, j: nat)
    requires 'A' <= prefix <= 'Z' && DistinctIds(tasks) && j < i < |tasks|
    requires tasks[i].id !in Fixed(tasks, frozen, prefix)
    ensures var codes := Compute(tasks, frozen, prefix);
            tasks[j].id in codes && tasks[i].id in codes && Num(codes[tasks[j].id]) < Num(codes[tasks[i].id])
  {
    hide Num, AssignAll, Fixed, Claimed, Assign, Has, AssignedOk;
    var fixed, held := Fixed(tasks, frozen, prefix), Claimed(tasks, frozen, prefix).owner.Keys;
    var a := AssignAll(tasks[..i], fixed, held, prefix);
    AssignAllOk(tasks[..i], fixed, held, prefix);
    assert Has(tasks[..i], tasks[j].id) by { HasAt(tasks[..i], j); }
    assert tasks[..i][j] == tasks[j];
    NotBefore(tasks, i);
    NextAssigned(tasks, i, fixed, held, prefix);
    NewIsAbove(a, tasks[..i], tasks[i], tasks[j].id, fixed, held, prefix);
    CodesPersist(tasks, i, fixed, held, prefix, tasks[j].id);
    CodesPersist(tasks, i + 1, fixed, held, prefix, tasks[i].id);
  }

  lemma HasAt(tasks: seq<Task>, j: nat)
    requires j < |tasks|
    ensures Has(tasks, tasks[j].id)
  {
  }

  lemma NewIsAbove(a: Assigned, tasks: seq<Task>, t: Task, id: string, fixed: map<string, string>, held: set<string>,
                   prefix: char)
    requires 'A' <= prefix <= 'Z' && AssignedOk(a, tasks, fixed, held, prefix)
    requires Has(tasks, id) && !Has(tasks, t.id) && t.id !in fixed
    ensures var after := Assign(a, t, fixed, prefix);
            && id in a.codes && t.id in after.codes && Num(a.codes[id]) < Num(after.codes[t.id])
  {
    hide Num, Has, Code, Valid;
    CodeReadsBack(prefix, Gap(a.taken, prefix, a.last + 1));
  }

  lemma NotBefore(tasks: seq<Task>, i: nat)
    requires DistinctIds(tasks) && i < |tasks|
    ensures !Has(tasks[..i], tasks[i].id)
  {
  }

  lemma NextAssigned(tasks: seq<Task>, i: nat, fixed: map<string, string>, held: set<string>, prefix: char)
    requires 'A' <= prefix <= 'Z' && i < |tasks|
    ensures AssignAll(tasks[..i + 1], fixed, held, prefix) ==
            Assign(AssignAll(tasks[..i], fixed, held, prefix), tasks[i], fixed, prefix)
  {
    hide Assign;
    assert tasks[..i + 1][..i] == tasks[..i];
  }

  // ---------------------------------------------------------------- recording a new task

  /** The largest number among codes of the product's prefix. */
  ghost predicate IsTop(codes: map<string, string>, prefix: char, top: nat) {
    && (forall id <- codes :: Valid(codes[id], prefix) ==> Num(codes[id]) <= top)
    && (top == 0 || exists id <- codes :: Valid(codes[id], prefix) && Num(codes[id]) == top)
  }

  lemma GapIsLeast(taken: set<string>, prefix: char, n: nat, m: nat)
    requires 'A' <= prefix <= 'Z' && 0 < n <= m && Code(prefix, m) !in taken
    requires forall k :: n <= k < m ==> Code(prefix, k) in taken
    ensures Gap(taken, prefix, n) == m
  {
    hide Code;
    var g := Gap(taken, prefix, n);
    assert Code(prefix, g) !in taken && Code(prefix, m) !in taken;
  }

  lemma GapSame(taken: set<string>, prefix: char, n: nat, q: nat)
    requires 'A' <= prefix <= 'Z' && n > 0 && Gap(taken, prefix, n) < q
    ensures Gap(taken + {Code(prefix, q)}, prefix, n) == Gap(taken, prefix, n)
  {
    hide Code, Num;
    var m := Gap(taken, prefix, n);
    CodeReadsBack(prefix, m);
    CodeReadsBack(prefix, q);
    GapIsLeast(taken + {Code(prefix, q)}, prefix, n, m);
  }

  lemma AssignStepSame(a: Assigned, t: Task, fixed: map<string, string>, prefix: char, id: string, q: nat)
    requires 'A' <= prefix <= 'Z' && t.id != id && q > 0
    requires t.id !in a.codes && t.id !in fixed ==> Num(Assign(a, t, fixed, prefix).codes[t.id]) < q
    ensures var c, after := Code(prefix, q), Assign(a, t, fixed, prefix);
            Assign(a.(taken := a.taken + {c}), t, fixed[id := c], prefix) == after.(taken := after.taken + {c})
  {
    hide Num, Code, Gap;
    if t.id !in a.codes && t.id !in fixed {
      var m := Gap(a.taken, prefix, a.last + 1);
      CodeReadsBack(prefix, m);
      GapSame(a.taken, prefix, a.last + 1, q);
      assert a.taken + {Code(prefix, q)} + {Code(prefix, m)} == a.taken + {Code(prefix, m)} + {Code(prefix, q)};
    }
  }

  /** One more fixed code above everything assigned changes nothing for the tasks before it. */
  lemma {:induction false} AssignSame(
    tasks: seq<Task>, fixed: map<string, string>, held: set<string>, prefix: char, id: string, q: nat)
    requires 'A' <= prefix <= 'Z' && DistinctIds(tasks) && !Has(tasks, id) && q > 0
    requires forall k <- AssignAll(tasks, fixed, held, prefix).codes ::
               k !in fixed ==> Num(AssignAll(tasks, fixed, held, prefix).codes[k]) < q
    ensures var a := AssignAll(tasks, fixed, held, prefix);
            AssignAll(tasks, fixed[id := Code(prefix, q)], held + {Code(prefix, q)}, prefix) ==
            a.(taken := a.taken + {Code(prefix, q)})
  {
    hide Num, Code, Has, Assign, AssignedOk;
    if tasks != [] {
      var front, last := tasks[..|tasks| - 1], tasks[|tasks| - 1];
      assert tasks == front + [last];
      HasSnoc(front, last, id);
      LastIsNew(tasks);
      FewerBelow(tasks, fixed, held, prefix, q);
      AssignSame(front, fixed, held, prefix, id, q);
      AssignsLast(AssignAll(front, fixed, held, prefix), last, fixed, prefix);
      AssignStepSame(AssignAll(front, fixed, held, prefix), last, fixed, prefix, id, q);
    }
  }

  lemma AssignsLast(a: Assigned, t: Task, fixed: map<string, string>, prefix: char)
    requires 'A' <= prefix <= 'Z'
    ensures t.id in Assign(a, t, fixed, prefix).codes
  {
    hide Num, Code, Gap;
  }

  lemma FewerBelow(tasks: seq<Task>, fixed: map<string, string>, held: set<string>, prefix: char, q: nat)
    requires 'A' <= prefix <= 'Z' && tasks != []
    requires forall k <- AssignAll(tasks, fixed, held, prefix).codes ::
               k !in fixed ==> Num(AssignAll(tasks, fixed, held, prefix).codes[k]) < q
    ensures var front := AssignAll(tasks[..|tasks| - 1], fixed, held, prefix).codes;
            forall k <- front :: k !in fixed ==> Num(front[k]) < q
  {
    hide Num, Code, Gap;
  }

  /** A code numbered above every assigned one of the prefix is held by nobody. */
  lemma AboveTopIsFree(tasks: seq<Task>, frozen: map<string, string>, prefix: char, top: nat)
    requires 'A' <= prefix <= 'Z' && DistinctIds(tasks) && Injective(frozen)
    requires IsTop(Compute(tasks, frozen, prefix), prefix, top)
    ensures Code(prefix, top + 1) !in Claimed(tasks, frozen, prefix).owner
    ensures var codes := Compute(tasks, frozen, prefix);
            forall k <- codes :: k !in Fixed(tasks, frozen, prefix) ==> Num(codes[k]) < top + 1
  {
    hide Has, Num, Valid, AssignAll, Fixed, Claimed, Code;
    var fixed, held := Fixed(tasks, frozen, prefix), Claimed(tasks, frozen, prefix).owner.Keys;
    AssignAllOk(tasks, fixed, held, prefix);
    FixedOk(tasks, frozen, prefix);
    CodeReadsBack(prefix, top + 1);
    forall c | c in held && Valid(c, prefix) ensures Num(c) <= top {
      var id :| Has(tasks, id) && id in fixed && fixed[id] == c;
      assert Compute(tasks, frozen, prefix)[id] == c;
    }
  }

  lemma ClaimsWithOneMore(tasks: seq<Task>, frozen: map<string, string>, prefix: char, id: string, c: string)
    requires id !in frozen && Valid(c, prefix) && c !in Claimed(tasks, frozen, prefix).owner
    ensures var t, before := Task(id, Some(c)), Claimed(tasks, frozen, prefix);
            && Claimed(tasks + [t], frozen, prefix) == Claims(before.owner[c := id], before.accepted[id := c])
            && Fixed(tasks + [t], frozen, prefix) == Fixed(tasks, frozen, prefix)[id := c]
  {
    hide Valid;
    assert (tasks + [Task(id, Some(c))])[..|tasks|] == tasks;
  }

  /** `append_task`: the row written under the lock gets the next number, and no earlier task changes its code. */
  lemma AppendChangesNothing(tasks: seq<Task>, frozen: map<string, string>, prefix: char, top: nat, id: string)
    requires 'A' <= prefix <= 'Z' && DistinctIds(tasks) && Injective(frozen) && !Has(tasks, id) && id !in frozen
    requires IsTop(Compute(tasks, frozen, prefix), prefix, top)
    ensures var c := Code(prefix, top + 1);
            Compute(tasks + [Task(id, Some(c))], frozen, prefix) == Compute(tasks, frozen, prefix)[id := c]
  {
    hide Has, Num, Valid, Code, Claimed, Fixed, IsTop;
    var c, fixed := Code(prefix, top + 1), Fixed(tasks, frozen, prefix);
    var held, t := Claimed(tasks, frozen, prefix).owner.Keys, Task(id, Some(c));
    AboveTopIsFree(tasks, frozen, prefix, top);
    CodeReadsBack(prefix, top + 1);
    ClaimsWithOneMore(tasks, frozen, prefix, id, c);
    assert Claimed(tasks + [t], frozen, prefix).owner.Keys == held + {c};
    AssignSame(tasks, fixed, held, prefix, id, top + 1);
    AssignAllOk(tasks, fixed, held, prefix);
    assert (tasks + [t])[..|tasks|] == tasks;
  }

  // ---------------------------------------------------------------- freezing

  /** `freeze`: the positional rule for the first `k` tasks. */
  function Freeze(tasks: seq<Task>, k: nat, prefix: char): map<string, string>
    requires k <= |tasks|
  {
    if k == 0 then map[] else Freeze(tasks, k - 1, prefix)[tasks[k - 1].id := Code(prefix, k)]
  }

  predicate CodeLess(tasks: seq<Task>, prefix: char) {
    forall t <- tasks :: t.code.None? || !Valid(t.code.value, prefix)
  }

  /** The table gives the first `k` tasks their positions, and nobody else anything. */
  predicate FrozenTo(frozen: map<string, string>, tasks: seq<Task>, k: nat, prefix: char)
    requires k <= |tasks|
  {
    && (forall i :: 0 <= i < k ==> tasks[i].id in frozen && frozen[tasks[i].id] == Code(prefix, i + 1))
    && (forall id <- frozen :: exists i :: 0 <= i < k && tasks[i].id == id && frozen[id] == Code(prefix, i + 1))
  }

  lemma FreezeOneMore(frozen: map<string, string>, tasks: seq<Task>, k: nat, prefix: char)
    requires DistinctIds(tasks) && k < |tasks| && FrozenTo(frozen, tasks, k, prefix)
    ensures FrozenTo(frozen[tasks[k].id := Code(prefix, k + 1)], tasks, k + 1, prefix)
  {
    hide Code;
    var more := frozen[tasks[k].id := Code(prefix, k + 1)];
    forall id | id in more ensures exists i :: 0 <= i < k + 1 && tasks[i].id == id && more[id] == Code(prefix, i + 1) {
      if id == tasks[k].id {
        assert more[id] == Code(prefix, k + 1);
      } else {
        var i :| 0 <= i < k && tasks[i].id == id && frozen[id] == Code(prefix, i + 1);
      }
    }
  }

  lemma {:induction false} FreezeMeaning(tasks: seq<Task>, k: nat, prefix: char)
    requires DistinctIds(tasks) && k <= |tasks|
    ensures FrozenTo(Freeze(tasks, k, prefix), tasks, k, prefix)
  {
    hide Code, FrozenTo, DistinctIds;
    if k == 0 {
      NothingFrozen(tasks, prefix);
    } else {
      FreezeMeaning(tasks, k - 1, prefix);
      FreezeOneMore(Freeze(tasks, k - 1, prefix), tasks, k - 1, prefix);
    }
  }

  lemma NothingFrozen(tasks: seq<Task>, prefix: char)
    ensures FrozenTo(map[], tasks, 0, prefix)
  {
  }

  lemma CodesDiffer(prefix: char, m: nat, n: nat)
    requires 'A' <= prefix <= 'Z' && m > 0 && n > 0 && Code(prefix, m) == Code(prefix, n)
    ensures m == n
  {
    hide Code, Num;
    CodeReadsBack(prefix, m);
    CodeReadsBack(prefix, n);
  }

  lemma FreezeInjective(tasks: seq<Task>, k: nat, prefix: char)
    requires 'A' <= prefix <= 'Z' && DistinctIds(tasks) && k <= |tasks|
    ensures Injective(Freeze(tasks, k, prefix))
  {
    hide Code, Freeze;
    var frozen := Freeze(tasks, k, prefix);
    FreezeMeaning(tasks, k, prefix);
    forall a, b | a in frozen && b in frozen && frozen[a] == frozen[b] ensures a == b {
      var i :| 0 <= i < k && tasks[i].id == a && frozen[a] == Code(prefix, i + 1);
      var j :| 0 <= j < k && tasks[j].id == b && frozen[b] == Code(prefix, j + 1);
      CodesDiffer(prefix, i + 1, j + 1);
    }
  }

  lemma {:induction false} NothingRecorded(tasks: seq<Task>, from: map<string, string>, frozen: map<string, string>,
                                           prefix: char)
    requires CodeLess(tasks, prefix)
    ensures Recorded(tasks, from, frozen, prefix) == Claims(from, map[])
  {
    hide Valid;
    if tasks != [] {
      var front, last := tasks[..|tasks| - 1], tasks[|tasks| - 1];
      assert tasks == front + [last];
      NothingRecorded(front, from, frozen, prefix);
    }
  }

  /** The codes held after freezing the first `k` tasks of a log without codes. */
  lemma FrozenHeld(tasks: seq<Task>, k: nat, prefix: char)
    requires 'A' <= prefix <= 'Z' && DistinctIds(tasks) && CodeLess(tasks, prefix) && k <= |tasks|
    ensures var frozen := Freeze(tasks, k, prefix);
            && Fixed(tasks, frozen, prefix) == frozen
            && forall m :: m > 0 ==> (Code(prefix, m) in Claimed(tasks, frozen, prefix).owner <==> m <= k)
  {
    hide Code, Freeze, FrozenOwners, Valid, Recorded;
    var frozen := Freeze(tasks, k, prefix);
    FreezeMeaning(tasks, k, prefix);
    FreezeInjective(tasks, k, prefix);
    FrozenOwn(tasks, frozen);
    var owner := FrozenOwners(tasks, frozen);
    NothingRecorded(tasks, owner, frozen, prefix);
    forall m | m > 0 ensures Code(prefix, m) in owner <==> m <= k {
      if m <= k {
        assert Has(tasks, tasks[m - 1].id) && frozen[tasks[m - 1].id] == Code(prefix, m - 1 + 1);
      }
      if Code(prefix, m) in owner {
        var id := owner[Code(prefix, m)];
        var i :| 0 <= i < k && tasks[i].id == id && frozen[id] == Code(prefix, i + 1);
        CodesDiffer(prefix, m, i + 1);
      }
    }
  }

  /** After the first `n` tasks, the codes are positional and the taken numbers are those up to `k` or `n`. */
  ghost predicate Positional(a: Assigned, tasks: seq<Task>, n: nat, k: nat, prefix: char)
    requires n <= |tasks|
  {
    && a.last == n
    && (forall id :: id in a.codes <==> Has(tasks[..n], id))
    && (forall i :: 0 <= i < n ==> tasks[i].id in a.codes && a.codes[tasks[i].id] == Code(prefix, i + 1))
    && (forall m :: m > 0 ==> (Code(prefix, m) in a.taken <==> m <= k || m <= n))
  }

  lemma PositionalStep(
    a: Assigned, tasks: seq<Task>, n: nat, k: nat, fixed: map<string, string>, prefix: char)
    requires 'A' <= prefix <= 'Z' && DistinctIds(tasks) && n < |tasks| && Positional(a, tasks, n, k, prefix)
    requires tasks[n].id in fixed <==> n < k
    requires n < k ==> fixed[tasks[n].id] == Code(prefix, n + 1)
    ensures Positional(Assign(a, tasks[n], fixed, prefix), tasks, n + 1, k, prefix)
  {
    hide Code, Num, Has, Gap;
    var t := tasks[n];
    NotBefore(tasks, n);
    assert tasks[..n + 1] == tasks[..n] + [t];
    forall id ensures Has(tasks[..n + 1], id) <==> Has(tasks[..n], id) || t.id == id {
      HasSnoc(tasks[..n], t, id);
    }
    CodeReadsBack(prefix, n + 1);
    if n >= k {
      GapIsLeast(a.taken, prefix, n + 1, n + 1);
      forall m | m > 0 ensures Code(prefix, m) == Code(prefix, n + 1) <==> m == n + 1 {
        if Code(prefix, m) == Code(prefix, n + 1) {
          CodesDiffer(prefix, m, n + 1);
        }
      }
    }
  }

  lemma {:induction false} PositionalAll(
    tasks: seq<Task>, n: nat, k: nat, fixed: map<string, string>, held: set<string>, prefix: char)
    requires 'A' <= prefix <= 'Z' && DistinctIds(tasks) && n <= |tasks|
    requires forall i :: 0 <= i < |tasks| ==> (tasks[i].id in fixed <==> i < k)
    requires forall i :: 0 <= i < |tasks| && i < k ==> fixed[tasks[i].id] == Code(prefix, i + 1)
    requires forall m :: m > 0 ==> (Code(prefix, m) in held <==> m <= k)
    ensures Positional(AssignAll(tasks[..n], fixed, held, prefix), tasks, n, k, prefix)
    decreases n
  {
    hide Code, Assign;
    if n == 0 {
      assert tasks[..0] == [];
    } else {
      hide Positional;
      PositionalAll(tasks, n - 1, k, fixed, held, prefix);
      NextAssigned(tasks, n - 1, fixed, held, prefix);
      PositionalStep(AssignAll(tasks[..n - 1], fixed, held, prefix), tasks, n - 1, k, fixed, prefix);
    }
  }

  lemma FrozenIsPositional(tasks: seq<Task>, k: nat, prefix: char)
    requires 'A' <= prefix <= 'Z' && DistinctIds(tasks) && CodeLess(tasks, prefix) && k <= |tasks|
    ensures var codes := Compute(tasks, Freeze(tasks, k, prefix), prefix);
            && (forall id :: id in codes <==> Has(tasks, id))
            && (forall i :: 0 <= i < |tasks| ==> codes[tasks[i].id] == Code(prefix, i + 1))
  {
    hide Code, Freeze, Has, AssignAll, Claimed, Fixed;
    var frozen := Freeze(tasks, k, prefix);
    FrozenHeld(tasks, k, prefix);
    FreezeMeaning(tasks, k, prefix);
    forall i | 0 <= i < |tasks| ensures tasks[i].id in frozen <==> i < k {
      if tasks[i].id in frozen {
        var j :| 0 <= j < k && tasks[j].id == tasks[i].id && frozen[tasks[j].id] == Code(prefix, j + 1);
      }
    }
    PositionalAll(tasks, |tasks|, k, frozen, Claimed(tasks, frozen, prefix).owner.Keys, prefix);
    assert tasks[..|tasks|] == tasks;
  }

  /** Freezing a log without codes at any task changes no code: they stay the positions. */
  lemma FreezeChangesNothing(tasks: seq<Task>, k: nat, prefix: char)
    requires 'A' <= prefix <= 'Z' && DistinctIds(tasks) && CodeLess(tasks, prefix) && k <= |tasks|
    ensures Compute(tasks, Freeze(tasks, k, prefix), prefix) == Compute(tasks, map[], prefix)
    ensures forall i :: 0 <= i < |tasks| ==>
              tasks[i].id in Compute(tasks, map[], prefix)
              && Compute(tasks, map[], prefix)[tasks[i].id] == Code(prefix, i + 1)
  {
    hide Code, Compute;
    FrozenIsPositional(tasks, k, prefix);
    FrozenIsPositional(tasks, 0, prefix);
    assert Freeze(tasks, 0, prefix) == map[];
    var codes, plain := Compute(tasks, Freeze(tasks, k, prefix), prefix), Compute(tasks, map[], prefix);
    forall id | id in codes ensures codes[id] == plain[id] {
      var t :| t in tasks && t.id == id;
      var i :| 0 <= i < |tasks| && tasks[i] == t;
    }
  }
}
