/** What a transcript's rows say about each tool, file and prompt: the activity of both parsers, told from the rows. */
module TranscriptMeaning {
  import opened Prelude
  import opened Transcripts
  import opened TranscriptRuns
  import F = TranscriptFiles

  // ---------------------------------------------------------------- the blocks of all rows

  /** A block with the speaker and the time of its row. */
  datatype Step = Step(speaker: Speaker, ts: string, block: Block)

  function StepsOfRow(row: Row, blocks: seq<Block>): seq<Step> {
    seq(|blocks|, i requires 0 <= i < |blocks| => Step(row.speaker, row.ts, blocks[i]))
  }

  function StepsOf(rows: seq<Row>): seq<Step> {
    if rows == [] then []
    else
      var last := rows[|rows| - 1];
      StepsOf(rows[..|rows| - 1]) + (if last.content.Blocks? then StepsOfRow(last, last.content.blocks) else [])
  }

  function OnStep(r: Run, s: Step): Run {
    RunBlock(r, Row(s.speaker, s.ts, NoContent), s.block)
  }

  function OnSteps(r: Run, steps: seq<Step>): Run {
    if steps == [] then r else OnStep(OnSteps(r, steps[..|steps| - 1]), steps[|steps| - 1])
  }

  lemma {:induction false} OnStepsConcat(r: Run, a: seq<Step>, b: seq<Step>)
    ensures OnSteps(r, a + b) == OnSteps(OnSteps(r, a), b)
    decreases |b|
  {
    hide OnStep;
    if b == [] {
      assert a + b == a;
    } else {
      OnStepsConcat(r, a, b[..|b| - 1]);
      assert (a + b)[..|a + b| - 1] == a + b[..|b| - 1];
    }
  }

  lemma {:induction false} RowIsSteps(r: Run, row: Row, blocks: seq<Block>)
    ensures RunBlocks(r, row, blocks) == OnSteps(r, StepsOfRow(row, blocks))
    decreases |blocks|
  {
    if blocks != [] {
      var front := blocks[..|blocks| - 1];
      RowIsSteps(r, row, front);
      var steps := StepsOfRow(row, blocks);
      assert steps[..|steps| - 1] == StepsOfRow(row, front);
      hide RunBlocks, OnSteps, AddAll, Ends;
      SameBlock(RunBlocks(r, row, front), row, blocks[|blocks| - 1]);
    }
  }

  /** A block reads no more of its row. */
  lemma SameBlock(r: Run, row: Row, b: Block)
    ensures RunBlock(r, row, b) == OnStep(r, Step(row.speaker, row.ts, b))
  {
  }

  /** Runs that differ in the prompt at most. */
  predicate SameButPrompt(a: Run, b: Run) {
    a.(firstPrompt := "") == b.(firstPrompt := "")
  }

  lemma {:induction false} StepsKeepPrompt(a: Run, b: Run, steps: seq<Step>)
    requires SameButPrompt(a, b)
    ensures SameButPrompt(OnSteps(a, steps), OnSteps(b, steps))
    ensures OnSteps(a, steps).firstPrompt == a.firstPrompt
    decreases |steps|
  {
    hide AddAll, Ends;
    if steps != [] {
      StepsKeepPrompt(a, b, steps[..|steps| - 1]);
    }
  }

  lemma {:induction false} RunIsSteps(rows: seq<Row>)
    ensures SameButPrompt(RunRows(rows), OnSteps(NO_RUN, StepsOf(rows)))
  {
    hide OnSteps, RunBlocks;
    if rows == [] {
      assert OnSteps(NO_RUN, []) == NO_RUN by { NoSteps(NO_RUN); }
    } else {
      var front, last := rows[..|rows| - 1], rows[|rows| - 1];
      RunIsSteps(front);
      if last.content.Blocks? {
        var steps := StepsOfRow(last, last.content.blocks);
        RowIsSteps(RunRows(front), last, last.content.blocks);
        OnStepsConcat(NO_RUN, StepsOf(front), steps);
        StepsKeepPrompt(RunRows(front), OnSteps(NO_RUN, StepsOf(front)), steps);
      } else {
        assert StepsOf(rows) == StepsOf(front);
      }
    }
  }

  lemma NoSteps(r: Run)
    ensures OnSteps(r, []) == r
  {
  }

  // ---------------------------------------------------------------- tools

  predicate IsUse(s: Step) {
    s.speaker == ASSISTANT && s.block.ToolUse?
  }

  predicate IsUseOf(s: Step, id: string) {
    IsUse(s) && s.block.id == id
  }

  predicate IsResultOf(s: Step, id: string) {
    s.speaker == USER && s.block.ToolResult? && s.block.id == id
  }

  /** A step that becomes an entry of the activity: a tool use, or text that is not blank. */
  predicate IsEntry(s: Step) {
    IsUse(s) || (s.speaker == ASSISTANT && s.block.TextBlock? && s.block.text != "")
  }

  /** Entries among the first steps. */
  function Entries(steps: seq<Step>): nat {
    if steps == [] then 0 else Entries(steps[..|steps| - 1]) + (if IsEntry(steps[|steps| - 1]) then 1 else 0)
  }

  lemma EntriesSnoc(steps: seq<Step>, s: Step)
    ensures Entries(steps + [s]) == Entries(steps) + (if IsEntry(s) then 1 else 0)
  {
    assert (steps + [s])[..|steps|] == steps;
  }

  /** Where the entry of a step stands. */
  function At(steps: seq<Step>, i: nat): nat
    requires i <= |steps|
  {
    Entries(steps[..i])
  }

  lemma {:induction false} AtAscends(steps: seq<Step>, i: nat, j: nat)
    requires i < j <= |steps| && IsEntry(steps[i])
    ensures At(steps, i) < At(steps, j)
    decreases j
  {
    EntriesSnoc(steps[..j - 1], steps[j - 1]);
    assert steps[..j - 1] + [steps[j - 1]] == steps[..j];
    if i < j - 1 {
      AtAscends(steps, i, j - 1);
    }
  }

  lemma AtPrefix(steps: seq<Step>, s: Step, i: nat)
    requires i <= |steps|
    ensures At(steps + [s], i) == At(steps, i)
  {
    assert (steps + [s])[..i] == steps[..i];
  }

  /** Between the two, the id is neither used again nor answered. */
  predicate Quiet(steps: seq<Step>, i: nat, j: nat, id: string)
    requires j <= |steps|
  {
    forall k :: i < k < j ==> !IsUseOf(steps[k], id) && !IsResultOf(steps[k], id)
  }

  /** The use at `i` is answered at `j`: the first result for its id, before the id is used again. */
  predicate AnsweredAt(steps: seq<Step>, i: nat, j: nat)
    requires i < |steps| && IsUse(steps[i])
  {
    i < j < |steps| && IsResultOf(steps[j], steps[i].block.id) && Quiet(steps, i, j, steps[i].block.id)
  }

  predicate IsAnswered(steps: seq<Step>, i: nat)
    requires i < |steps| && IsUse(steps[i])
  {
    exists j :: 0 <= j < |steps| && AnsweredAt(steps, i, j)
  }

  /** The entry of a tool use: running until it is answered, and then as the answer has it. */
  predicate Tells(steps: seq<Step>, i: nat, item: Item)
    requires i < |steps| && IsUse(steps[i])
  {
    && item.Tool? && item.ts == steps[i].ts
    && item.tool == steps[i].block.name && item.summary == steps[i].block.summary
    && (!IsAnswered(steps, i) ==> item.pending && item.endedAt == None && !item.error)
    && (forall j :: 0 <= j < |steps| && AnsweredAt(steps, i, j) ==>
          !item.pending && item.endedAt == Some(steps[j].ts) && item.error == steps[j].block.isError)
  }

  predicate IsOpen(steps: seq<Step>, i: nat)
    requires i < |steps|
  {
    IsUse(steps[i]) && Quiet(steps, i, |steps|, steps[i].block.id)
  }

  predicate IsOpenOf(steps: seq<Step>, i: nat, id: string)
    requires i < |steps|
  {
    IsOpen(steps, i) && steps[i].block.id == id
  }

  ghost predicate ToolsKnown(steps: seq<Step>, activity: seq<Item>) {
    forall i :: 0 <= i < |steps| && IsUse(steps[i]) ==>
      At(steps, i) < |activity| && Tells(steps, i, activity[At(steps, i)])
  }

  predicate TextsKnown(steps: seq<Step>, activity: seq<Item>) {
    forall i :: 0 <= i < |steps| && IsEntry(steps[i]) && !IsUse(steps[i]) ==>
      At(steps, i) < |activity| && activity[At(steps, i)] == Said(steps[i].ts, steps[i].block.text)
  }

  ghost predicate PendingKnown(steps: seq<Step>, pending: map<string, nat>) {
    && (forall i :: 0 <= i < |steps| && IsOpen(steps, i) ==>
          steps[i].block.id in pending && pending[steps[i].block.id] == At(steps, i))
    && (forall id <- pending :: exists i :: 0 <= i < |steps| && IsOpenOf(steps, i, id))
  }

  ghost predicate Known(steps: seq<Step>, r: Run) {
    && |r.activity| == Entries(steps) && ToolsKnown(steps, r.activity) && TextsKnown(steps, r.activity)
    && PendingKnown(steps, r.pending)
  }

  lemma QuietMore(steps: seq<Step>, s: Step, i: nat, id: string)
    requires i < |steps|
    ensures Quiet(steps + [s], i, |steps| + 1, id) <==>
              Quiet(steps, i, |steps|, id) && !IsUseOf(s, id) && !IsResultOf(s, id)
    ensures forall j :: 0 <= j <= |steps| ==> (Quiet(steps + [s], i, j, id) <==> Quiet(steps, i, j, id))
  {
    var more := steps + [s];
    assert forall k :: 0 <= k < |steps| ==> more[k] == steps[k];
    assert more[|steps|] == s;
    if Quiet(more, i, |steps| + 1, id) {
      assert i < |steps|;
    }
  }

  lemma AnsweredMore(steps: seq<Step>, s: Step, i: nat)
    requires i < |steps| && IsUse(steps[i])
    ensures forall j :: 0 <= j < |steps| ==> (AnsweredAt(steps + [s], i, j) <==> AnsweredAt(steps, i, j))
    ensures AnsweredAt(steps + [s], i, |steps|) <==> IsResultOf(s, steps[i].block.id) && IsOpen(steps, i)
    ensures IsOpen(steps, i) ==> !IsAnswered(steps, i)
    ensures IsAnswered(steps + [s], i) <==>
              IsAnswered(steps, i) || (IsResultOf(s, steps[i].block.id) && IsOpen(steps, i))
  {
    var more := steps + [s];
    assert more[i] == steps[i] && more[|steps|] == s;
    assert forall k :: 0 <= k < |steps| ==> more[k] == steps[k];
    QuietMore(steps, s, i, steps[i].block.id);
    if IsAnswered(steps, i) {
      var j :| 0 <= j < |steps| && AnsweredAt(steps, i, j);
      assert AnsweredAt(more, i, j);
    }
    if IsAnswered(more, i) {
      var j :| 0 <= j < |more| && AnsweredAt(more, i, j);
      assert j < |steps| ==> AnsweredAt(steps, i, j);
    }
  }

  /** What is told of a use after one more step. */
  lemma TellsMore(steps: seq<Step>, s: Step, i: nat, item: Item)
    requires i < |steps| && IsUse(steps[i]) && Tells(steps, i, item)
    ensures var answers := IsResultOf(s, steps[i].block.id) && IsOpen(steps, i);
            Tells(steps + [s], i, if answers then Ends(item, s.ts, s.block.isError) else item)
  {
    var more := steps + [s];
    assert more[i] == steps[i] && more[|steps|] == s;
    AnsweredMore(steps, s, i);
    forall j | 0 <= j < |steps| && AnsweredAt(steps, i, j) ensures more[j] == steps[j] && !IsOpen(steps, i) {
    }
    hide AnsweredAt, IsAnswered, IsOpen, IsResultOf;
  }

  /** A use that has just been made runs. */
  lemma TellsNew(steps: seq<Step>, s: Step)
    requires IsUse(s)
    ensures Tells(steps + [s], |steps|, Tool(s.ts, s.block.name, s.block.summary, true, None, false))
    ensures IsOpen(steps + [s], |steps|)
  {
  }

  lemma OpenMore(steps: seq<Step>, s: Step, i: nat)
    requires i < |steps|
    ensures IsOpen(steps + [s], i) <==>
              IsOpen(steps, i) && !IsUseOf(s, steps[i].block.id) && !IsResultOf(s, steps[i].block.id)
    ensures IsOpen(steps + [s], |steps|) <==> IsUse(s)
  {
    assert (steps + [s])[i] == steps[i] && (steps + [s])[|steps|] == s;
    if IsUse(steps[i]) {
      QuietMore(steps, s, i, steps[i].block.id);
    }
  }

  /** One use of an id at most is open. */
  lemma OpenIsOne(steps: seq<Step>, i: nat, j: nat)
    requires i < |steps| && j < |steps| && IsOpen(steps, i) && IsOpen(steps, j)
    requires steps[i].block.id == steps[j].block.id
    ensures i == j
  {
  }

  /** The steps so far stand where they stood. */
  lemma SameBefore(steps: seq<Step>, s: Step)
    ensures forall i :: 0 <= i < |steps| ==> (steps + [s])[i] == steps[i] && At(steps + [s], i) == At(steps, i)
    ensures (steps + [s])[|steps|] == s && At(steps + [s], |steps|) == Entries(steps)
    ensures forall i :: 0 <= i < |steps| && IsEntry(steps[i]) ==> At(steps, i) < Entries(steps)
    ensures forall i, j :: 0 <= i < j < |steps| && IsEntry(steps[i]) ==> At(steps, i) < At(steps, j)
  {
    var more := steps + [s];
    assert more[..|steps|] == steps && steps[..|steps|] == steps;
    forall i | 0 <= i < |steps| ensures At(more, i) == At(steps, i) {
      AtPrefix(steps, s, i);
    }
    forall i | 0 <= i < |steps| && IsEntry(steps[i]) ensures At(steps, i) < Entries(steps) {
      AtAscends(steps, i, |steps|);
    }
    forall i, j | 0 <= i < j < |steps| && IsEntry(steps[i]) ensures At(steps, i) < At(steps, j) {
      AtAscends(steps, i, j);
    }
  }

  /** A new entry goes to the end of the activity and leaves the others. */
  lemma EntryMore(steps: seq<Step>, s: Step, r: Run)
    requires Known(steps, r) && IsEntry(s)
    ensures Known(steps + [s], OnStep(r, s))
  {
    hide AddAll, At, IsOpen, Tells, Entries;
    var more, after := steps + [s], OnStep(r, s);
    EntriesSnoc(steps, s);
    SameBefore(steps, s);
    forall i | 0 <= i < |more| && IsUse(more[i])
      ensures At(more, i) < |after.activity| && Tells(more, i, after.activity[At(more, i)])
    {
      if i < |steps| {
        TellsMore(steps, s, i, r.activity[At(steps, i)]);
      } else {
        TellsNew(steps, s);
      }
    }
    assert ToolsKnown(more, after.activity);
    assert TextsKnown(more, after.activity);
    hide ToolsKnown, TextsKnown;
    EntryPending(steps, s, r);
  }

  lemma EntryPending(steps: seq<Step>, s: Step, r: Run)
    requires PendingKnown(steps, r.pending) && IsEntry(s) && |r.activity| == Entries(steps)
    ensures PendingKnown(steps + [s], OnStep(r, s).pending)
  {
    hide AddAll, At, IsOpen, Entries;
    var more, after := steps + [s], OnStep(r, s);
    SameBefore(steps, s);
    OpenMoreAll(steps, s);
    assert IsUse(s) ==> after.pending == r.pending[s.block.id := Entries(steps)];
    forall id | id in after.pending
      ensures exists i :: 0 <= i < |more| && IsOpenOf(more, i, id)
    {
      if IsUse(s) && id == s.block.id {
        assert IsOpen(more, |steps|) && IsOpenOf(more, |steps|, id);
      } else {
        var i :| 0 <= i < |steps| && IsOpenOf(steps, i, id);
        OpenIsUse(steps, i);
        assert IsOpen(more, i) && IsOpenOf(more, i, id);
      }
    }
  }

  lemma OpenIsUse(steps: seq<Step>, i: nat)
    requires i < |steps| && IsOpen(steps, i)
    ensures IsUse(steps[i])
  {
  }

  lemma OpenMoreAll(steps: seq<Step>, s: Step)
    ensures forall i :: 0 <= i < |steps| ==>
              (IsOpen(steps + [s], i) <==>
                 IsOpen(steps, i) && !IsUseOf(s, steps[i].block.id) && !IsResultOf(s, steps[i].block.id))
    ensures IsOpen(steps + [s], |steps|) <==> IsUse(s)
  {
    forall i | 0 <= i < |steps|
      ensures IsOpen(steps + [s], i) <==>
                IsOpen(steps, i) && !IsUseOf(s, steps[i].block.id) && !IsResultOf(s, steps[i].block.id)
    {
      OpenMore(steps, s, i);
    }
  }

  /** A result ends the one open use of its id, if there is one. */
  lemma ResultMore(steps: seq<Step>, s: Step, r: Run)
    requires Known(steps, r) && s.speaker == USER && s.block.ToolResult?
    ensures Known(steps + [s], OnStep(r, s))
  {
    hide At, IsOpen, Tells, Entries, AddAll;
    var more, after, id := steps + [s], OnStep(r, s), s.block.id;
    EntriesSnoc(steps, s);
    SameBefore(steps, s);
    assert |after.activity| == |r.activity|;
    forall i | 0 <= i < |more| && IsUse(more[i])
      ensures At(more, i) < |after.activity| && Tells(more, i, after.activity[At(more, i)])
    {
      TellsMore(steps, s, i, r.activity[At(steps, i)]);
      EndedItem(steps, s, r, i);
    }
    assert ToolsKnown(more, after.activity);
    forall i | 0 <= i < |more| && IsEntry(more[i]) && !IsUse(more[i])
      ensures At(more, i) < |after.activity| && after.activity[At(more, i)] == Said(more[i].ts, more[i].block.text)
    {
      assert r.activity[At(steps, i)] == Said(steps[i].ts, steps[i].block.text);
    }
    hide ToolsKnown, TextsKnown;
    ResultPending(steps, s, r);
  }

  /** The entry of a use after a result: ended if the use is open and the result is its own. */
  lemma EndedItem(steps: seq<Step>, s: Step, r: Run, i: nat)
    requires Known(steps, r) && s.speaker == USER && s.block.ToolResult? && i < |steps| && IsUse(steps[i])
    ensures var n, answers := At(steps, i), IsResultOf(s, steps[i].block.id) && IsOpen(steps, i);
            n < |r.activity| && |OnStep(r, s).activity| == |r.activity|
            && OnStep(r, s).activity[n] ==
               if answers then Ends(r.activity[n], s.ts, s.block.isError) else r.activity[n]
  {
    hide At, Tells, Entries, AddAll, Ends, IsOpen;
    SameBefore(steps, s);
    var id := s.block.id;
    if id in r.pending {
      var j :| 0 <= j < |steps| && IsOpenOf(steps, j, id);
      assert r.pending[id] == At(steps, j);
      IsUsed(steps, j);
      if j != i {
        assert At(steps, j) != At(steps, i);
        if IsOpenOf(steps, i, id) {
          OpenIsOne(steps, i, j);
        }
      }
    }
  }

  lemma IsUsed(steps: seq<Step>, i: nat)
    requires i < |steps| && IsOpen(steps, i)
    ensures IsUse(steps[i])
  {
  }

  lemma ResultPending(steps: seq<Step>, s: Step, r: Run)
    requires PendingKnown(steps, r.pending) && s.speaker == USER && s.block.ToolResult?
    ensures PendingKnown(steps + [s], OnStep(r, s).pending)
  {
    hide At, Entries, Ends, IsOpen;
    var more, after := steps + [s], OnStep(r, s);
    SameBefore(steps, s);
    OpenMoreAll(steps, s);
    assert after.pending == r.pending - {s.block.id};
    forall id | id in after.pending
      ensures exists i :: 0 <= i < |more| && IsOpenOf(more, i, id)
    {
      var i :| 0 <= i < |steps| && IsOpenOf(steps, i, id);
      assert IsOpen(more, i) && IsOpenOf(more, i, id);
    }
  }

  /** Any other block changes nothing. */
  lemma OtherMore(steps: seq<Step>, s: Step, r: Run)
    requires Known(steps, r) && !IsEntry(s) && !(s.speaker == USER && s.block.ToolResult?)
    ensures Known(steps + [s], OnStep(r, s)) && OnStep(r, s) == r
  {
    hide At, IsOpen, Tells, Entries;
    var more := steps + [s];
    EntriesSnoc(steps, s);
    SameBefore(steps, s);
    OpenMoreAll(steps, s);
    forall i | 0 <= i < |more| && IsUse(more[i]) ensures Tells(more, i, r.activity[At(more, i)]) {
      TellsMore(steps, s, i, r.activity[At(steps, i)]);
    }
    forall id | id in r.pending ensures exists i :: 0 <= i < |more| && IsOpenOf(more, i, id) {
      var i :| 0 <= i < |steps| && IsOpenOf(steps, i, id);
      assert IsOpen(more, i) && IsOpenOf(more, i, id);
    }
  }

  lemma {:induction false} StepsKnown(steps: seq<Step>)
    ensures Known(steps, OnSteps(NO_RUN, steps))
  {
    hide OnStep;
    if steps != [] {
      hide Known;
      var front, s := steps[..|steps| - 1], steps[|steps| - 1];
      StepsKnown(front);
      assert steps == front + [s];
      if IsEntry(s) {
        EntryMore(front, s, OnSteps(NO_RUN, front));
      } else if s.speaker == USER && s.block.ToolResult? {
        ResultMore(front, s, OnSteps(NO_RUN, front));
      } else {
        OtherMore(front, s, OnSteps(NO_RUN, front));
      }
    }
  }

  /**
   * The activity of any rows: one entry for each tool use and each text that is not blank, in their order. A tool runs
   * until the first result for its id that comes before the id is used again; then it has the time and the flag of
   * that result for good.
   */
  lemma ActivityMeaning(rows: seq<Row>)
    ensures var steps, activity := StepsOf(rows), RunRows(rows).activity;
            && |activity| == Entries(steps) && OnRows(NO_DATA, rows).items == activity
            && (forall i :: 0 <= i < |steps| && IsUse(steps[i]) ==>
                  && At(steps, i) < |activity| && Tells(steps, i, activity[At(steps, i)])
                  && (Running(activity[At(steps, i)]) <==> !IsAnswered(steps, i)))
            && (forall i :: 0 <= i < |steps| && IsEntry(steps[i]) && !IsUse(steps[i]) ==>
                  && At(steps, i) < |activity|
                  && activity[At(steps, i)] == Said(steps[i].ts, steps[i].block.text))
  {
    RunIsSteps(rows);
    StepsKnown(StepsOf(rows));
    RowsAgree(rows);
    hide RunRows, OnRows, OnSteps, At, Entries, AnsweredAt, StepsOf;
  }

  /** Every position of the activity is that of an entry. */
  lemma {:induction false} EntryAt(steps: seq<Step>, n: nat) returns (i: nat)
    requires n < Entries(steps)
    ensures i < |steps| && IsEntry(steps[i]) && At(steps, i) == n
  {
    var front := steps[..|steps| - 1];
    if n < Entries(front) {
      i := EntryAt(front, n);
      assert front[..i] == steps[..i];
    } else {
      i := |front|;
    }
  }

  /** The tool that is shown as running: the last use that has not been answered. */
  lemma CurrentMeaning(rows: seq<Row>)
    ensures var steps, items := StepsOf(rows), RunRows(rows).activity;
            var shown := LatestRunning(items, Positions(|items|));
            && (shown == None <==> forall i :: 0 <= i < |steps| && IsUse(steps[i]) ==> IsAnswered(steps, i))
            && (forall i :: 0 <= i < |steps| && IsUse(steps[i]) && !IsAnswered(steps, i)
                            && (forall j :: i < j < |steps| && IsUse(steps[j]) ==> IsAnswered(steps, j))
                  ==> shown == Some(At(steps, i)))
  {
    var steps, items := StepsOf(rows), RunRows(rows).activity;
    var shown := LatestRunning(items, Positions(|items|));
    ActivityMeaning(rows);
    LatestIn(items, 0, |items|);
    assert Positions(|items|)[0..] == Positions(|items|);
    hide RunRows, OnRows, LatestRunning, IsAnswered, Tells, StepsOf, Positions, Entries;
    if shown.Some? {
      var k := EntryAt(steps, shown.value);
      assert IsUse(steps[k]) && !IsAnswered(steps, k);
      forall i | 0 <= i < |steps| && IsUse(steps[i]) && !IsAnswered(steps, i)
                 && forall j :: i < j < |steps| && IsUse(steps[j]) ==> IsAnswered(steps, j)
        ensures shown.value == At(steps, i)
      {
        if k < i {
          AtAscends(steps, k, i);
        }
      }
    }
  }

  // ---------------------------------------------------------------- counts, files, prompt, turn

  function Uses(steps: seq<Step>): set<nat> {
    set i: nat | i < |steps| && IsUse(steps[i])
  }

  /** The file is written by a tool use among the steps. */
  predicate IsWritten(steps: seq<Step>, f: string) {
    exists i :: 0 <= i < |steps| && IsUse(steps[i]) && f in steps[i].block.writes
  }

  predicate NoRepeats(files: seq<string>) {
    forall i, j :: 0 <= i < j < |files| ==> files[i] != files[j]
  }

  lemma {:induction false} AddAllMeaning(files: seq<string>, more: seq<string>)
    requires NoRepeats(files)
    ensures var after := AddAll(files, more);
            files <= after && NoRepeats(after) && forall f :: f in after <==> f in files || f in more
  {
    if more != [] {
      var front, last := more[..|more| - 1], more[|more| - 1];
      AddAllMeaning(files, front);
      assert more == front + [last];
    }
  }

  lemma StepCounts(r: Run, s: Step)
    ensures OnStep(r, s).toolCount == r.toolCount + (if IsUse(s) then 1 else 0)
    ensures OnStep(r, s).files == if IsUse(s) then AddAll(r.files, s.block.writes) else r.files
  {
    hide AddAll, Ends;
  }

  lemma {:induction false} CountsOfSteps(steps: seq<Step>)
    ensures var r := OnSteps(NO_RUN, steps);
            && r.toolCount == |Uses(steps)| && NoRepeats(r.files)
            && forall f :: f in r.files <==> IsWritten(steps, f)
  {
    hide OnStep, NoRepeats, AddAll;
    if steps == [] {
      NothingUsed();
    } else {
      var front, n := steps[..|steps| - 1], |steps| - 1;
      CountsOfSteps(front);
      var before, s := OnSteps(NO_RUN, front), steps[n];
      StepCounts(before, s);
      UsesMore(front, s);
      assert steps == front + [s];
      if IsUse(s) {
        AddAllMeaning(before.files, s.block.writes);
      }
    }
  }

  lemma NothingUsed()
    ensures Uses([]) == {} && NoRepeats([])
  {
  }

  lemma UsesMore(steps: seq<Step>, s: Step)
    ensures |Uses(steps + [s])| == |Uses(steps)| + (if IsUse(s) then 1 else 0)
    ensures forall f :: IsWritten(steps + [s], f) <==> IsWritten(steps, f) || (IsUse(s) && f in s.block.writes)
  {
    var more := steps + [s];
    assert forall i :: 0 <= i < |steps| ==> more[i] == steps[i];
    assert more[|steps|] == s;
    assert Uses(more) == Uses(steps) + (if IsUse(s) then {|steps|} else {});
  }

  /** Tools are counted once each, and every file that one writes is listed once. */
  lemma CountsMeaning(rows: seq<Row>)
    ensures var d := OnRows(NO_DATA, rows);
            && d.toolCount == |Uses(StepsOf(rows))| && NoRepeats(d.files)
            && forall f :: f in d.files <==> IsWritten(StepsOf(rows), f)
  {
    RunIsSteps(rows);
    CountsOfSteps(StepsOf(rows));
    RowsAgree(rows);
    hide OnRows, RunRows, OnSteps, StepsOf, Uses, IsWritten;
  }

  predicate IsPrompt(row: Row) {
    row.speaker == USER && row.content.Plain? && row.content.text != ""
  }

  lemma PromptMore(rows: seq<Row>, row: Row)
    ensures RunRows([]).firstPrompt == ""
    ensures var before := RunRows(rows).firstPrompt;
            RunRows(rows + [row]).firstPrompt == if before == "" && IsPrompt(row) then row.content.text else before
  {
    hide OnSteps, RunBlocks, StepsOfRow, RunBlock;
    assert (rows + [row])[..|rows|] == rows;
    if row.content.Blocks? {
      RowIsSteps(RunRows(rows), row, row.content.blocks);
      StepsKeepPrompt(RunRows(rows), RunRows(rows), StepsOfRow(row, row.content.blocks));
    }
  }

  /** The first prompt is the first text of the user that is not empty. */
  lemma {:induction false} PromptMeaning(rows: seq<Row>)
    ensures RunRows(rows).firstPrompt == OnRows(NO_DATA, rows).firstPrompt
    ensures (forall row <- rows :: !IsPrompt(row)) ==> RunRows(rows).firstPrompt == ""
    ensures forall i :: 0 <= i < |rows| && IsPrompt(rows[i]) && (forall j :: 0 <= j < i ==> !IsPrompt(rows[j])) ==>
              RunRows(rows).firstPrompt == rows[i].content.text
  {
    RowsAgree(rows);
    hide OnRows, RunRows, RunRow;
    if rows == [] {
      PromptMore([], Row(OTHER, "", NoContent));
    } else {
      var front, last := rows[..|rows| - 1], rows[|rows| - 1];
      PromptMeaning(front);
      assert forall i :: 0 <= i < |front| ==> front[i] == rows[i];
      assert rows == front + [last];
      assert last in rows && forall row <- front :: row in rows;
      PromptMore(front, last);
      if i :| 0 <= i < |front| && IsPrompt(front[i]) {
        var k := FirstPrompt(front, i);
      }
    }
  }

  lemma {:induction false} FirstPrompt(rows: seq<Row>, i: nat) returns (k: nat)
    requires i < |rows| && IsPrompt(rows[i])
    ensures k <= i && IsPrompt(rows[k]) && forall j :: 0 <= j < k ==> !IsPrompt(rows[j])
  {
    k := i;
    if j: nat :| j < i && IsPrompt(rows[j]) {
      k := FirstPrompt(rows, j);
    }
  }

  /** The last word is the assistant's, in blocks none of which uses a tool. */
  predicate LastWordEnds(rows: seq<Row>) {
    exists i :: 0 <= i < |rows| && rows[i].speaker == ASSISTANT && rows[i].content.Blocks?
                && (forall b <- rows[i].content.blocks :: !b.ToolUse?)
                && forall j :: i < j < |rows| ==> rows[j].speaker == OTHER
  }

  lemma LastWordMore(rows: seq<Row>, row: Row)
    ensures LastWordEnds(rows + [row]) <==> if row.speaker == OTHER then LastWordEnds(rows) else EndsTurn(row)
  {
    var more := rows + [row];
    assert forall i :: 0 <= i < |rows| ==> more[i] == rows[i];
    assert more[|rows|] == row;
  }

  /** The turn has ended if the last word was the assistant's, in blocks none of which uses a tool. */
  lemma {:induction false} TurnMeaning(rows: seq<Row>)
    ensures OnRows(NO_DATA, rows).endedTurn == TurnEnded(rows)
    ensures TurnEnded(rows) <==> LastWordEnds(rows)
  {
    RowsAgree(rows);
    hide OnRows, EndsTurn;
    if rows != [] {
      var front, last := rows[..|rows| - 1], rows[|rows| - 1];
      TurnMeaning(front);
      assert rows == front + [last];
      LastWordMore(front, last);
    }
  }

  // ---------------------------------------------------------------- delegations only

  /** What `delegations_only` leaves of the blocks: no text, and of the tools `Agent` alone. */
  lemma {:induction false} ChosenAre(blocks: seq<Block>)
    ensures forall b :: b in F.ChosenBlocks(blocks, true) <==>
              b in blocks && !b.TextBlock? && (b.ToolUse? ==> b.name == "Agent")
  {
    if blocks != [] {
      ChosenAre(blocks[..|blocks| - 1]);
      assert blocks == blocks[..|blocks| - 1] + [blocks[|blocks| - 1]];
    }
  }

  lemma {:induction false} ChosenStepsAre(rows: seq<Row>)
    ensures forall s :: s in StepsOf(F.ChosenRows(rows, true)) <==>
              s in StepsOf(rows) && !s.block.TextBlock? && (s.block.ToolUse? ==> s.block.name == "Agent")
  {
    hide F.ChosenBlocks;
    var chosen := F.ChosenRows(rows, true);
    if rows != [] {
      var front, last := rows[..|rows| - 1], rows[|rows| - 1];
      ChosenStepsAre(front);
      assert chosen[..|chosen| - 1] == F.ChosenRows(front, true);
      assert chosen[|chosen| - 1] == F.ChosenRow(last, true);
      if last.content.Blocks? {
        ChosenAre(last.content.blocks);
        RowMembers(last, last.content.blocks);
        RowMembers(last, F.ChosenBlocks(last.content.blocks, true));
        assert StepsOfRow(F.ChosenRow(last, true), F.ChosenBlocks(last.content.blocks, true)) ==
               StepsOfRow(last, F.ChosenBlocks(last.content.blocks, true));
      }
    }
  }

  lemma RowMembers(row: Row, blocks: seq<Block>)
    ensures forall s :: s in StepsOfRow(row, blocks) <==>
              s.speaker == row.speaker && s.ts == row.ts && s.block in blocks
  {
    forall s: Step | s.speaker == row.speaker && s.ts == row.ts && s.block in blocks
      ensures s in StepsOfRow(row, blocks)
    {
      var i :| 0 <= i < |blocks| && blocks[i] == s.block;
      assert StepsOfRow(row, blocks)[i] == s;
    }
  }

  /** The run of the delegations alone has no entry but uses of `Agent`. */
  lemma DelegationsOnlyMeaning(rows: seq<Row>)
    ensures forall item <- RunRows(F.ChosenRows(rows, true)).activity :: item.Tool? && item.tool == "Agent"
  {
    var chosen := F.ChosenRows(rows, true);
    var steps, activity := StepsOf(chosen), RunRows(chosen).activity;
    ChosenStepsAre(rows);
    ActivityMeaning(chosen);
    forall n | 0 <= n < |activity| ensures activity[n].Tool? && activity[n].tool == "Agent" {
      var i := EntryAt(steps, n);
      assert steps[i] in steps;
      assert IsUse(steps[i]);
    }
  }

  // ---------------------------------------------------------------- the lines of a whole file

  predicate IsPadding(b: Byte) {
    b == 9 || b == 13 || b == 32
  }

  lemma {:induction false} LStripAt(line: seq<Byte>) returns (a: nat)
    ensures a <= |line| && F.LStrip(line) == line[a..]
    ensures (forall k :: 0 <= k < a ==> IsPadding(line[k])) && (a < |line| ==> !IsPadding(line[a]))
  {
    a := 0;
    if line != [] {
      var front, c := line[..|line| - 1], line[|line| - 1];
      a := LStripAt(front);
      if a == |front| && IsPadding(c) {
        a := |line|;
      } else {
        assert front[a..] + [c] == line[a..];
      }
    }
  }

  lemma {:induction false} RStripAt(line: seq<Byte>) returns (b: nat)
    ensures b <= |line| && F.RStrip(line) == line[..b]
    ensures (forall k :: b <= k < |line| ==> IsPadding(line[k])) && (b > 0 ==> !IsPadding(line[b - 1]))
  {
    b := |line|;
    if line == [] || !IsPadding(line[|line| - 1]) {
      assert line[..b] == line;
    } else {
      b := RStripAt(line[..|line| - 1]);
    }
  }

  /** A line without its blanks: the part from the first to the last byte that is no tab, return or space. */
  lemma StripMeaning(line: seq<Byte>) returns (a: nat, b: nat)
    ensures a <= b <= |line| && F.Strip(line) == line[a..b]
    ensures forall k :: 0 <= k < a || b <= k < |line| ==> IsPadding(line[k])
    ensures a < b ==> !IsPadding(line[a]) && !IsPadding(line[b - 1])
  {
    hide F.LStrip, F.RStrip;
    a := LStripAt(line);
    var n := RStripAt(line[a..]);
    b := a + n;
    assert line[a..][..n] == line[a..b];
    forall k | b <= k < |line| ensures IsPadding(line[k]) {
      assert line[k] == line[a..][k - a];
    }
  }

  lemma {:induction false} ValuesAre(j: F.Json, lines: seq<seq<Byte>>, v: F.Loaded)
    ensures v in F.Values(j, lines) <==>
            !v.NoJson? && exists line <- lines :: F.Strip(line) != [] && j.values(F.Strip(line)) == v
  {
    hide F.Strip;
    if lines != [] {
      var front, last := lines[..|lines| - 1], lines[|lines| - 1];
      ValuesAre(j, front, v);
      assert forall line :: line in lines <==> line in front || line == last by {
        assert lines == front + [last];
      }
    }
  }

  /**
   * `parse_run` of a file: it fails exactly when the bytes do not decode or the text of some line, blanks aside, is a
   * value that is no object; it gives no run exactly when they decode and every line is blank or no JSON.
   */
  lemma ParseMeaning(j: F.Json, content: seq<Byte>, delegationsOnly: bool)
    ensures var parsed := F.ParseOf(j, content, delegationsOnly);
            var lines := F.TextLines(content);
            && (parsed.Fails? <==>
                 !j.decodes(content)
                 || exists line <- lines :: F.Strip(line) != [] && j.values(F.Strip(line)).NoObject?)
            && (parsed.NoRun? <==>
                 && j.decodes(content)
                 && forall line <- lines :: F.Strip(line) == [] || j.values(F.Strip(line)).NoJson?)
  {
    hide F.Strip, F.TextLines, F.Values, F.RowsOf, F.ChosenRows, TurnEnded, RunRows;
    var lines := F.TextLines(content);
    var values := F.Values(j, lines);
    forall v: F.Loaded
      ensures v in values <==>
              !v.NoJson? && exists line <- lines :: F.Strip(line) != [] && j.values(F.Strip(line)) == v
    {
      ValuesAre(j, lines, v);
    }
    forall line | line in lines && F.Strip(line) != [] && !j.values(F.Strip(line)).NoJson?
      ensures j.values(F.Strip(line)) in values
    {
    }
    if values != [] {
      assert values[0] in values;
    }
  }
}
