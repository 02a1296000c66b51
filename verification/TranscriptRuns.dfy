/** `server.py`, `parse_run`: the whole-file parser, and what the incremental state shares with it. */
module TranscriptRuns {
  import opened Prelude
  import opened Transcripts

  /** What `parse_run` accumulates: the whole activity, without a limit. */
  datatype Run = Run(
    firstPrompt: string, activity: seq<Item>, pending: map<string, nat>, files: seq<string>, toolCount: nat)

  const NO_RUN := Run("", [], map[], [], 0)

  function RunBlock(r: Run, row: Row, b: Block): Run {
    match b
    case ToolUse(id, name, summary, writes) =>
      if row.speaker != ASSISTANT then r
      else
        r.(activity := r.activity + [Tool(row.ts, name, summary, true, None, false)],
           pending := r.pending[id := |r.activity|], files := AddAll(r.files, writes), toolCount := r.toolCount + 1)
    case TextBlock(text) =>
      if row.speaker != ASSISTANT || text == "" then r else r.(activity := r.activity + [Said(row.ts, text)])
    case ToolResult(id, isError) =>
      if row.speaker != USER || id !in r.pending then r
      else
        var n := r.pending[id];
        r.(pending := r.pending - {id},
           activity := if n < |r.activity| then r.activity[n := Ends(r.activity[n], row.ts, isError)] else r.activity)
    case OtherBlock => r
  }

  function RunBlocks(r: Run, row: Row, blocks: seq<Block>): Run {
    if blocks == [] then r else RunBlock(RunBlocks(r, row, blocks[..|blocks| - 1]), row, blocks[|blocks| - 1])
  }

  function RunRow(r: Run, row: Row): Run {
    match row.content
    case Plain(text) => if row.speaker == USER && r.firstPrompt == "" then r.(firstPrompt := text) else r
    case Blocks(blocks) => RunBlocks(r, row, blocks)
    case NoContent => r
  }

  function RunRows(rows: seq<Row>): Run {
    if rows == [] then NO_RUN else RunRow(RunRows(rows[..|rows| - 1]), rows[|rows| - 1])
  }

  /** The last row of the user or the assistant decides; without one the turn is not ended. */
  function TurnEnded(rows: seq<Row>): bool {
    if rows == [] then false
    else if rows[|rows| - 1].speaker == OTHER then TurnEnded(rows[..|rows| - 1])
    else EndsTurn(rows[|rows| - 1])
  }

  /** `s[-80:]`. */
  function Last<T>(s: seq<T>): seq<T> {
    if |s| <= LIMIT then s else s[|s| - LIMIT..]
  }

  function Positions(n: nat): seq<nat> {
    seq(n, i requires 0 <= i < n => i)
  }

  function ToolPositions(items: seq<Item>): seq<nat> {
    if items == [] then []
    else ToolPositions(items[..|items| - 1]) + (if items[|items| - 1].Tool? then [|items| - 1] else [])
  }

  predicate Running(item: Item) {
    item.Tool? && item.pending
  }

  /** Position of the latest item of a list of positions whose tool is pending. */
  function LatestRunning(items: seq<Item>, positions: seq<nat>): Option<nat> {
    if positions == [] then None
    else
      var n := positions[|positions| - 1];
      if n < |items| && Running(items[n]) then Some(n) else LatestRunning(items, positions[..|positions| - 1])
  }

  // ---------------------------------------------------------------- the bounded lists

  lemma BoundedIsLast<T>(s: seq<T>, x: T)
    ensures Bounded<T>(Last<T>(s), x) == Last<T>(s + [x])
  {
  }

  lemma PositionsSnoc(n: nat)
    ensures Positions(n + 1) == Positions(n) + [n]
  {
  }

  lemma ToolPositionsSnoc(items: seq<Item>, item: Item)
    ensures ToolPositions(items + [item]) ==
            if item.Tool? then ToolPositions(items) + [|items|] else ToolPositions(items)
  {
    assert (items + [item])[..|items|] == items;
  }

  /** Ending a tool keeps it a tool. */
  lemma {:induction false} ToolPositionsUpdate(items: seq<Item>, n: nat, ts: string, isError: bool)
    requires n < |items|
    ensures ToolPositions(items[n := Ends(items[n], ts, isError)]) == ToolPositions(items)
    decreases |items|
  {
    var m := |items| - 1;
    var after := items[n := Ends(items[n], ts, isError)];
    if n < m {
      ToolPositionsUpdate(items[..m], n, ts, isError);
      assert after[..m] == items[..m][n := Ends(items[n], ts, isError)];
    } else {
      assert after[..m] == items[..m];
    }
  }

  /** The incremental data refine the whole-file run: same items, and the last 80 positions. */
  ghost predicate Agrees(d: Data, r: Run) {
    && d.items == r.activity && d.pending == r.pending && d.files == r.files && d.toolCount == r.toolCount
    && d.firstPrompt == r.firstPrompt
    && d.activity == Last<nat>(Positions(|d.items|)) && d.tools == Last<nat>(ToolPositions(d.items))
  }

  lemma SaidAgrees(d: Data, r: Run, row: Row, text: string)
    requires Agrees(d, r)
    ensures Agrees(OnBlock(d, row, TextBlock(text)), RunBlock(r, row, TextBlock(text)))
  {
    hide Bounded, Last, Positions, ToolPositions;
    var e, n: nat := OnBlock(d, row, TextBlock(text)), |d.items|;
    if e != d {
      var item := Said(row.ts, text);
      PositionsSnoc(n);
      BoundedIsLast<nat>(Positions(n), n);
      ToolPositionsSnoc(d.items, item);
      assert e.items == d.items + [item];
      assert ToolPositions(e.items) == ToolPositions(d.items);
    }
  }

  lemma BlockAgrees(d: Data, r: Run, row: Row, b: Block)
    requires Agrees(d, r)
    ensures Agrees(OnBlock(d, row, b), RunBlock(r, row, b))
  {
    hide Bounded, Last, Positions, ToolPositions, AddAll;
    var n: nat := |d.items|;
    match b
    case ToolUse(_, name, summary, _) =>
      PositionsSnoc(n);
      ToolPositionsSnoc(d.items, Tool(row.ts, name, summary, true, None, false));
      BoundedIsLast<nat>(Positions(n), n);
      BoundedIsLast<nat>(ToolPositions(d.items), n);
    case TextBlock(text) => SaidAgrees(d, r, row, text);
    case ToolResult(id, isError) =>
      if row.speaker == USER && id in d.pending && d.pending[id] < n {
        ToolPositionsUpdate(d.items, d.pending[id], row.ts, isError);
      }
    case OtherBlock =>
  }

  lemma {:induction false} BlocksAgree(d: Data, r: Run, row: Row, blocks: seq<Block>)
    requires Agrees(d, r)
    ensures Agrees(OnBlocks(d, row, blocks), RunBlocks(r, row, blocks))
    decreases |blocks|
  {
    hide OnBlock, RunBlock, Agrees;
    if blocks != [] {
      var front := blocks[..|blocks| - 1];
      BlocksAgree(d, r, row, front);
      BlockAgrees(OnBlocks(d, row, front), RunBlocks(r, row, front), row, blocks[|blocks| - 1]);
    }
  }

  lemma RowAgrees(d: Data, r: Run, row: Row)
    requires Agrees(d, r)
    ensures Agrees(OnRow(d, row), RunRow(r, row))
  {
    hide OnBlocks, RunBlocks, Last, Positions, ToolPositions, EndsTurn;
    if row.content.Blocks? {
      BlocksAgree(OnHead(d, row), r, row, row.content.blocks);
    }
  }

  /** Blocks do not change what the head of a row records. */
  lemma {:induction false} BlocksKeepHead(d: Data, row: Row, blocks: seq<Block>)
    ensures var after := OnBlocks(d, row, blocks);
            after.rows == d.rows && after.started == d.started && after.endedTurn == d.endedTurn
  {
    hide Bounded, AddAll, Ends;
    if blocks != [] {
      BlocksKeepHead(d, row, blocks[..|blocks| - 1]);
    }
  }

  lemma RowHead(d: Data, row: Row)
    ensures var after, head := OnRow(d, row), OnHead(d, row);
            after.rows == head.rows && after.started == head.started && after.endedTurn == head.endedTurn
  {
    hide OnBlocks, OnHead;
    if row.content.Blocks? {
      BlocksKeepHead(OnHead(d, row), row, row.content.blocks);
    }
  }

  lemma {:induction false} RowsAgree(rows: seq<Row>)
    ensures var d := OnRows(NO_DATA, rows);
            && Agrees(d, RunRows(rows)) && d.rows == |rows| && d.endedTurn == TurnEnded(rows)
            && (rows != [] ==> d.started == rows[0].ts)
  {
    hide OnRow, RunRow, EndsTurn;
    if rows == [] {
      assert Agrees(NO_DATA, NO_RUN) by {
        assert Positions(0) == [];
      }
    } else {
      var front, last := rows[..|rows| - 1], rows[|rows| - 1];
      RowsAgree(front);
      RowAgrees(OnRows(NO_DATA, front), RunRows(front), last);
      RowHead(OnRows(NO_DATA, front), last);
    }
  }

  // ---------------------------------------------------------------- what a reader sees

  function ItemsAt(items: seq<Item>, positions: seq<nat>): seq<Item>
    requires forall k :: 0 <= k < |positions| ==> positions[k] < |items|
  {
    seq(|positions|, k requires 0 <= k < |positions| => items[positions[k]])
  }

  /**
   * The incremental state and the run of the rows of all ended lines agree on the last 80 entries of the activity, the
   * counts, the files, the first prompt, the start and the end of the turn.
   */
  lemma SameAsEndedLines(parse: Parser, sights: seq<Sight>)
    requires Plausible(parse, sights)
    ensures var d, rows := Refreshes(parse, sights).data, Parsed(parse, Lines(Seen(sights)));
            var r := RunRows(rows);
            && (forall k :: 0 <= k < |d.activity| ==> d.activity[k] < |d.items|)
            && ItemsAt(d.items, d.activity) == Last(r.activity)
            && d.toolCount == r.toolCount && d.files == r.files && d.firstPrompt == r.firstPrompt
            && d.rows == |rows| && (rows != [] ==> d.started == rows[0].ts) && d.endedTurn == TurnEnded(rows)
  {
    hide OnRows, RunRows, Refreshes, Plausible, Seen, TurnEnded, Parsed, ToolPositions;
    IncrementalIsOnePass(parse, sights);
    RowsAgree(Parsed(parse, Lines(Seen(sights))));
  }

  /** `current`: the latest running tool within the last 80 entries. */
  lemma {:induction false} LatestIn(items: seq<Item>, from: nat, n: nat)
    requires from <= n <= |items|
    ensures var found := LatestRunning(items, Positions(n)[from..]);
            && (found.Some? ==> from <= found.value < n && Running(items[found.value]))
            && (forall i :: (if found.Some? then found.value + 1 else from) <= i < n ==> !Running(items[i]))
    decreases n
  {
    var positions := Positions(n)[from..];
    if from < n {
      assert positions[|positions| - 1] == n - 1;
      assert positions[..|positions| - 1] == Positions(n - 1)[from..];
      LatestIn(items, from, n - 1);
    }
  }

  /**
   * Looking for the current tool in the last 80 entries finds what looking in the whole activity finds exactly when
   * nothing is running or the latest running tool is among the last 80 entries.
   */
  lemma CurrentIff(parse: Parser, sights: seq<Sight>)
    requires Plausible(parse, sights)
    ensures var d := Refreshes(parse, sights).data;
            var whole := LatestRunning(d.items, Positions(|d.items|));
            && d.items == RunRows(Parsed(parse, Lines(Seen(sights)))).activity
            && (LatestRunning(d.items, d.activity) == whole <==> whole.None? || whole.value >= |d.items| - 80)
  {
    hide OnRows, RunRows, Refreshes, Plausible, Seen, TurnEnded, Parsed, ToolPositions, LatestRunning;
    IncrementalIsOnePass(parse, sights);
    RowsAgree(Parsed(parse, Lines(Seen(sights))));
    var d := Refreshes(parse, sights).data;
    var n := |d.items|;
    var from := if n <= LIMIT then 0 else n - LIMIT;
    LatestIn(d.items, 0, n);
    LatestIn(d.items, from, n);
    assert Positions(n)[0..] == Positions(n);
  }

  // ---------------------------------------------------------------- among the tools only

  predicate Ascends(positions: seq<nat>, bound: nat) {
    && (forall k :: 0 <= k < |positions| ==> positions[k] < bound)
    && (forall j, k :: 0 <= j < k < |positions| ==> positions[j] < positions[k])
  }

  lemma {:induction false} ToolPositionsAscend(items: seq<Item>)
    ensures Ascends(ToolPositions(items), |items|)
    decreases |items|
  {
    if items != [] {
      var n: nat := |items| - 1;
      var front := ToolPositions(items[..n]);
      ToolPositionsAscend(items[..n]);
      assert Ascends(front, n) && Ascends(front + [n], n + 1);
      assert ToolPositions(items) == if items[n].Tool? then front + [n] else front;
    }
  }

  /** A tool stands after as many others as the items before it hold. */
  lemma {:induction false} ToolPositionsAt(items: seq<Item>, v: nat)
    requires v < |items| && items[v].Tool?
    ensures |ToolPositions(items[..v])| < |ToolPositions(items)|
    ensures ToolPositions(items)[|ToolPositions(items[..v])|] == v
    decreases |items|
  {
    var front := items[..|items| - 1];
    if v < |front| {
      ToolPositionsAt(front, v);
      assert front[..v] == items[..v];
    }
  }

  /** Looking in the tail of a list of positions finds what looking in the list finds, if it is there. */
  lemma {:induction false} LatestInTail(items: seq<Item>, positions: seq<nat>, from: nat)
    requires from <= |positions|
    ensures var found := LatestRunning(items, positions);
            LatestRunning(items, positions[from..]) ==
            if found.Some? && found.value in positions[from..] then found else None
    ensures var found := LatestRunning(items, positions);
            found.Some? ==> found.value < |items| && Running(items[found.value])
    decreases |positions|
  {
    hide Running;
    if from < |positions| {
      var front, n := positions[..|positions| - 1], positions[|positions| - 1];
      LatestInTail(items, front, from);
      assert positions[from..][..|positions[from..]| - 1] == front[from..];
      assert positions[from..] == front[from..] + [n];
    } else if positions != [] {
      LatestInTail(items, positions[..|positions| - 1], |positions| - 1);
    }
  }

  /** Only tools run. */
  lemma {:induction false} LatestIsTool(items: seq<Item>, n: nat)
    requires n <= |items|
    ensures LatestRunning(items, ToolPositions(items[..n])) == LatestRunning(items, Positions(n))
  {
    if n > 0 {
      LatestIsTool(items, n - 1);
      assert items[..n][..n - 1] == items[..n - 1];
      PositionsSnoc(n - 1);
      var before, all := ToolPositions(items[..n - 1]), Positions(n - 1);
      assert (before + [n - 1])[..|before|] == before && (all + [n - 1])[..|all|] == all && before + [] == before;
    }
  }

  /**
   * Looking for the current tool in the last 80 tools finds what looking in the whole activity finds exactly when
   * nothing is running or the latest running tool is one of the last 80.
   */
  lemma CurrentToolIff(parse: Parser, sights: seq<Sight>)
    requires Plausible(parse, sights)
    ensures var d := Refreshes(parse, sights).data;
            var whole := LatestRunning(d.items, Positions(|d.items|));
            && (whole.Some? ==> whole.value < |d.items|)
            && (LatestRunning(d.items, d.tools) == whole <==>
                 whole.None? || |ToolPositions(d.items)| - |ToolPositions(d.items[..whole.value])| <= 80)
  {
    hide OnRows, RunRows, Refreshes, Plausible, Seen, TurnEnded, Parsed, ToolPositions, LatestRunning, Positions;
    IncrementalIsOnePass(parse, sights);
    RowsAgree(Parsed(parse, Lines(Seen(sights))));
    LatestTool(Refreshes(parse, sights).data.items);
  }

  lemma LatestTool(items: seq<Item>)
    ensures var whole := LatestRunning(items, Positions(|items|));
            && (whole.Some? ==> whole.value < |items|)
            && (LatestRunning(items, Last<nat>(ToolPositions(items))) == whole <==>
                 whole.None? || |ToolPositions(items)| - |ToolPositions(items[..whole.value])| <= 80)
  {
    hide ToolPositions, LatestRunning, Positions;
    var n, all := |items|, ToolPositions(items);
    var from := if |all| <= LIMIT then 0 else |all| - LIMIT;
    assert all[0..] == all && Last<nat>(all) == all[from..];
    LatestIn(items, 0, n);
    assert Positions(n)[0..] == Positions(n);
    assert items[..n] == items;
    LatestIsTool(items, n);
    LatestInTail(items, all, from);
    ToolPositionsAscend(items);
    var whole := LatestRunning(items, Positions(n));
    if whole.Some? {
      ToolPositionsAt(items, whole.value);
      var k := |ToolPositions(items[..whole.value])|;
      if from <= k {
        assert all[from..][k - from] == whole.value;
      } else {
        assert forall j :: from <= j < |all| ==> all[j] > whole.value;
      }
    }
  }
}
