/** `product.py`, `_compute` and `append_task`, as they fill their dictionaries and write the log under the lock. */
module ProductLog {
  import opened Prelude
  import opened ProductCodes

  /** `human_tasks`. */
  method ListTasks(rows: seq<Row>) returns (tasks: seq<Task>)
    ensures tasks == HumanTasks(rows)
  {
    tasks := [];
    assert rows[..0] == [];
    for i := 0 to |rows|
      invariant tasks == HumanTasks(rows[..i])
    {
      assert rows[..i + 1][..i] == rows[..i];
      if rows[i].HumanTask? {
        tasks := tasks + [rows[i].task];
      }
    }
    assert rows[..|rows|] == rows;
  }

  /** The first two loops of `_compute`: who holds which code, and which recorded codes count. */
  method CollectClaims(tasks: seq<Task>, frozen: map<string, string>, prefix: char)
    returns (owner: map<string, string>, accepted: map<string, string>)
    ensures Claims(owner, accepted) == Claimed(tasks, frozen, prefix)
  {
    hide Valid, SetDefault;
    owner, accepted := map[], map[];
    assert tasks[..0] == [] && tasks[..|tasks|] == tasks;
    for i := 0 to |tasks|
      invariant owner == FrozenOwners(tasks[..i], frozen) && accepted == map[]
    {
      assert tasks[..i + 1][..i] == tasks[..i];
      var t := tasks[i];
      if t.id in frozen {
        owner := SetDefault(owner, frozen[t.id], t.id);
      }
    }
    ghost var held := owner;
    for i := 0 to |tasks|
      invariant Claims(owner, accepted) == Recorded(tasks[..i], held, frozen, prefix)
    {
      assert tasks[..i + 1][..i] == tasks[..i];
      var t := tasks[i];
      if t.id !in frozen && t.code.Some? && Valid(t.code.value, prefix) {
        var c := t.code.value;
        if !(c in owner && owner[c] != t.id) {
          owner := SetDefault(owner, c, t.id);
          accepted := accepted[t.id := c];
        }
      }
    }
  }

  /** The inner loop: from `n` on, the first number whose code is free. */
  method FirstFree(taken: set<string>, prefix: char, from: nat) returns (n: nat)
    requires 'A' <= prefix <= 'Z' && from > 0
    ensures n == Gap(taken, prefix, from)
  {
    n := from;
    while Code(prefix, n) in taken
      invariant n >= from && Gap(taken, prefix, from) == Gap(taken, prefix, n)
      decreases |Above(taken, n)|
    {
      AboveShrinks(taken, prefix, n);
      n := n + 1;
    }
  }

  /** `_compute`: the last loop, with the codes assigned so far, the last number and the taken codes. */
  method ComputeCodes(tasks: seq<Task>, frozen: map<string, string>, prefix: char) returns (codes: map<string, string>)
    requires 'A' <= prefix <= 'Z'
    ensures codes == Compute(tasks, frozen, prefix)
  {
    hide Gap, Num, Code, Claimed;
    var owner, accepted := CollectClaims(tasks, frozen, prefix);
    ghost var fixed := Fixed(tasks, frozen, prefix);
    codes := map[];
    var last: nat := 0;
    var taken := owner.Keys;
    assert tasks[..0] == [] && tasks[..|tasks|] == tasks;
    for i := 0 to |tasks|
      invariant Assigned(codes, last, taken) == AssignAll(tasks[..i], fixed, owner.Keys, prefix)
    {
      assert tasks[..i + 1][..i] == tasks[..i];
      var t := tasks[i];
      if t.id !in codes {
        var c;
        if t.id in frozen {
          c := frozen[t.id];
        } else if t.id in accepted {
          c := accepted[t.id];
        } else {
          var n := FirstFree(taken, prefix, last + 1);
          c := Code(prefix, n);
          taken := taken + {c};
        }
        codes := codes[t.id := c];
        last := Max(last, Num(c));
      }
    }
  }

  /** The largest number of the prefix. */
  method TopNumber(tasks: seq<Task>, codes: map<string, string>, prefix: char) returns (top: nat)
    requires forall id :: id in codes <==> Has(tasks, id)
    ensures IsTop(codes, prefix, top)
  {
    hide Valid, Num;
    top := 0;
    for i := 0 to |tasks|
      invariant forall k :: 0 <= k < i ==> tasks[k].id in codes
      invariant forall k :: 0 <= k < i && Valid(codes[tasks[k].id], prefix) ==> Num(codes[tasks[k].id]) <= top
      invariant top == 0 || exists id <- codes :: Valid(codes[id], prefix) && Num(codes[id]) == top
    {
      assert tasks[i] in tasks && tasks[i].id in codes;
      var c := codes[tasks[i].id];
      if Valid(c, prefix) && Num(c) > top {
        top := Num(c);
      }
    }
    forall id | id in codes && Valid(codes[id], prefix) ensures Num(codes[id]) <= top {
      var t :| t in tasks && t.id == id;
      var k :| 0 <= k < |tasks| && tasks[k] == t;
    }
  }

  class Log {
    var rows: seq<Row>
    const prefix: char
    const frozen: map<string, string>

    constructor (rows: seq<Row>, prefix: char, frozen: map<string, string>)
      ensures this.rows == rows && this.prefix == prefix && this.frozen == frozen
    {
      this.rows, this.prefix, this.frozen := rows, prefix, frozen;
    }

    /**
     * `append_task` under the lock: one row, numbered above every code of the prefix. With distinct ids, a new id that
     * is not frozen and an injective frozen table, every earlier task keeps its code and the new one has the recorded.
     */
    method AppendTask(id: string) returns (code: string)
      requires 'A' <= prefix <= 'Z'
      modifies this`rows
      ensures rows == old(rows) + [HumanTask(Task(id, Some(code)))]
      ensures Valid(code, prefix)
      ensures var before := Compute(HumanTasks(old(rows)), frozen, prefix);
              forall k <- before :: Valid(before[k], prefix) ==> Num(before[k]) < Num(code)
      ensures var tasks := HumanTasks(old(rows));
              DistinctIds(tasks) && Injective(frozen) && !Has(tasks, id) && id !in frozen ==>
                Compute(HumanTasks(rows), frozen, prefix) == Compute(tasks, frozen, prefix)[id := code]
    {
      hide Valid, Num, Code, Compute, DistinctIds, Has, Injective;
      var tasks := ListTasks(rows);
      var codes := ComputeCodes(tasks, frozen, prefix);
      CodesOfTasks(tasks, frozen, prefix);
      var top := TopNumber(tasks, codes, prefix);
      code := Code(prefix, top + 1);
      CodeReadsBack(prefix, top + 1);
      if DistinctIds(tasks) && Injective(frozen) && !Has(tasks, id) && id !in frozen {
        AppendChangesNothing(tasks, frozen, prefix, top, id);
      }
      ghost var before := rows;
      rows := rows + [HumanTask(Task(id, Some(code)))];
      assert rows[..|rows| - 1] == before;
    }
  }

  lemma CodesOfTasks(tasks: seq<Task>, frozen: map<string, string>, prefix: char)
    requires 'A' <= prefix <= 'Z'
    ensures forall id :: id in Compute(tasks, frozen, prefix) <==> Has(tasks, id)
  {
    hide AssignAll, Fixed, Claimed, Has;
    forall id ensures id in Compute(tasks, frozen, prefix) <==> Has(tasks, id) {
      EveryTaskHasCode(tasks, Fixed(tasks, frozen, prefix), Claimed(tasks, frozen, prefix).owner.Keys, prefix, id);
    }
  }
}
