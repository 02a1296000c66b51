/** `transcripts.py`, class `TranscriptState`, and `server.py`, `parse_run`, as they update their lists line by line. */
module TranscriptStates {
  import opened Prelude
  import opened Transcripts
  import opened TranscriptFiles
  import opened TranscriptRuns

  class TranscriptState {
    var offset: nat
    var ino: Option<nat>
    var size: int
    var mtime: int
    var rows: nat
    var started: string
    var firstPrompt: string
    var items: seq<Item>
    var activity: seq<nat>
    var tools: seq<nat>
    var pending: map<string, nat>
    var files: seq<string>
    var toolCount: nat
    var endedTurn: bool
    const parse: Parser

    constructor (parse: Parser)
      ensures this.parse == parse && Now() == FRESH
    {
      offset, ino, size, mtime := 0, None, -1, -1;
      rows, started, firstPrompt, items, activity, tools := 0, "", "", [], [], [];
      pending, files, toolCount, endedTurn := map[], [], 0, false;
      this.parse := parse;
    }

    function Accumulated(): Data
      reads this
    {
      Data(rows, started, firstPrompt, items, activity, tools, pending, files, toolCount, endedTurn)
    }

    function Now(): State
      reads this
    {
      State(offset, ino, size, mtime, Accumulated())
    }

    method Reset()
      modifies this
      ensures offset == 0 && ino == None && size == -1 && mtime == -1 && Accumulated() == NO_DATA
    {
      ResetLists();
      offset := 0;
      ino := None;
      size := -1;
      mtime := -1;
      rows := 0;
      started := "";
      firstPrompt := "";
      toolCount := 0;
      endedTurn := false;
    }

    method ResetLists()
      modifies this`items, this`activity, this`tools, this`pending, this`files
      ensures items == [] && activity == [] && tools == [] && pending == map[] && files == []
    {
      items := [];
      activity := [];
      tools := [];
      pending := map[];
      files := [];
    }

    /** `refresh`: reads only what was added, and tells whether it read. */
    method Refresh(o: Sight) returns (read: bool)
      modifies this
      ensures Now() == Transcripts.Refresh(parse, old(Now()), o) && read == !old(Unchanged(Now(), o))
    {
      hide Pieces, Parsed, OnRows, Ended, Lines, Rest;
      if o.Missing? || (o.size == size && o.mtime == mtime) {
        return false;
      }
      if Some(o.ino) != ino || o.size < offset {
        Reset();
        ino := Some(o.ino);
      }
      ReadChunk(o.content);
      size := o.size;
      mtime := o.mtime;
      return true;
    }

    method ReadChunk(content: seq<Byte>)
      modifies this`offset
      modifies this`rows, this`started, this`firstPrompt, this`items, this`activity, this`tools
      modifies this`pending, this`files, this`toolCount, this`endedTurn
      ensures offset == old(offset) + Ended(Rest(content, old(offset)))
      ensures Accumulated() == OnRows(old(Accumulated()), Parsed(parse, Lines(Rest(content, old(offset)))))
    {
      hide Pieces, Parsed, OnRows, Ended;
      var chunk := if offset <= |content| then content[offset..] else [];
      var end := FindLast(chunk);
      NoLines(parse, chunk, Accumulated());
      if end >= 0 {
        ChunkLines(chunk);
        ReadLines(Pieces(chunk[..end]));
        offset := offset + end + 1;
      }
    }

    method ReadLines(lines: seq<seq<Byte>>)
      modifies this`rows, this`started, this`firstPrompt, this`items, this`activity, this`tools
      modifies this`pending, this`files, this`toolCount, this`endedTurn
      ensures Accumulated() == OnRows(old(Accumulated()), Parsed(parse, lines))
    {
      hide OnRows, Parsed, OnRow;
      ghost var from := Accumulated();
      NoLines(parse, [], from);
      assert lines[..0] == [];
      for i := 0 to |lines|
        invariant Accumulated() == OnRows(from, Parsed(parse, lines[..i]))
      {
        OneMoreLine(parse, from, lines, i);
        Line(lines[i]);
      }
      assert lines[..|lines|] == lines;
    }

    /** `_line`. */
    method Line(raw: seq<Byte>)
      modifies this`rows, this`started, this`firstPrompt, this`items, this`activity, this`tools
      modifies this`pending, this`files, this`toolCount, this`endedTurn
      ensures Accumulated() ==
              match parse(raw)
              case Some(row) => OnRow(old(Accumulated()), row)
              case None => old(Accumulated())
    {
      hide OnBlocks;
      var parsed := parse(raw);
      if parsed.None? {
        return;
      }
      var row := parsed.value;
      rows := rows + 1;
      if rows == 1 {
        started := row.ts;
      }
      if row.speaker == USER && row.content.Plain? && firstPrompt == "" {
        firstPrompt := row.content.text;
      }
      if row.speaker != OTHER {
        endedTurn := EndsTurn(row);
      }
      if row.content.Blocks? {
        var blocks := row.content.blocks;
        ghost var head := Accumulated();
        assert head == OnHead(old(Accumulated()), row);
        NoBlocks(head, row);
        assert blocks[..0] == [];
        for i := 0 to |blocks|
          invariant Accumulated() == OnBlocks(head, row, blocks[..i])
        {
          OneMoreBlock(head, row, blocks, i);
          Block(row, blocks[i]);
        }
        assert blocks[..|blocks|] == blocks;
      }
    }

    /** The loop body of `_line`. */
    method Block(row: Row, b: Block)
      modifies this`items, this`activity, this`tools, this`pending, this`files, this`toolCount
      ensures Accumulated() == OnBlock(old(Accumulated()), row, b)
    {
      hide Bounded, AddAll;
      match b
      case ToolUse(id, name, summary, writes) =>
        if row.speaker == ASSISTANT {
          var item := |items|;
          toolCount := toolCount + 1;
          items := items + [Tool(row.ts, name, summary, true, None, false)];
          files := AddAll(files, writes);
          pending := pending[id := item];
          activity := Bounded<nat>(activity, item);
          tools := Bounded<nat>(tools, item);
        }
      case TextBlock(text) =>
        if row.speaker == ASSISTANT && text != "" {
          activity := Bounded<nat>(activity, |items|);
          items := items + [Said(row.ts, text)];
        }
      case ToolResult(id, isError) =>
        if row.speaker == USER && id in pending {
          var item := pending[id];
          pending := pending - {id};
          if item < |items| {
            items := items[item := Ends(items[item], row.ts, isError)];
          }
        }
      case OtherBlock =>
    }

    /** `current`: the latest running tool among the bounded activity, or among the bounded tools. */
    method Current(toolsOnly: bool) returns (found: Option<nat>)
      ensures found == LatestRunning(items, if toolsOnly then tools else activity)
    {
      var positions := if toolsOnly then tools else activity;
      var i := |positions|;
      assert positions[..i] == positions;
      while i > 0
        invariant i <= |positions| && LatestRunning(items, positions) == LatestRunning(items, positions[..i])
      {
        assert positions[..i][..i - 1] == positions[..i - 1];
        i := i - 1;
        if positions[i] < |items| && Running(items[positions[i]]) {
          return Some(positions[i]);
        }
      }
      return None;
    }
  }

  /** `rfind(b"\n")`. */
  method FindLast(text: seq<Byte>) returns (end: int)
    ensures end + 1 == Ended(text) && -1 <= end
  {
    end := |text| - 1;
    assert text[..|text|] == text;
    while end >= 0
      invariant -1 <= end < |text| && Ended(text) == Ended(text[..end + 1])
    {
      if text[end] == NEWLINE {
        return;
      }
      assert text[..end + 1][..end] == text[..end];
      end := end - 1;
    }
  }

  lemma NoLines(parse: Parser, chunk: seq<Byte>, d: Data)
    ensures Ended(chunk) == 0 ==> Lines(chunk) == []
    ensures Parsed(parse, []) == [] && OnRows(d, []) == d
  {
    if Ended(chunk) == 0 {
      LinesOfEnded(chunk);
      assert chunk[..0] == [];
      EndedPieces([]);
    }
  }

  lemma NoBlocks(d: Data, row: Row)
    ensures OnBlocks(d, row, []) == d
  {
  }

  lemma OneMoreBlock(d: Data, row: Row, blocks: seq<Block>, i: nat)
    requires i < |blocks|
    ensures OnBlocks(d, row, blocks[..i + 1]) == OnBlock(OnBlocks(d, row, blocks[..i]), row, blocks[i])
  {
    hide OnBlock;
    assert blocks[..i + 1][..i] == blocks[..i];
  }

  lemma OneMoreLine(parse: Parser, d: Data, lines: seq<seq<Byte>>, i: nat)
    requires i < |lines|
    ensures var before := OnRows(d, Parsed(parse, lines[..i]));
            OnRows(d, Parsed(parse, lines[..i + 1])) ==
            match parse(lines[i])
            case Some(row) => OnRow(before, row)
            case None => before
  {
    hide OnRow;
    assert lines[..i + 1][..i] == lines[..i];
    var rows := Parsed(parse, lines[..i]);
    match parse(lines[i])
    case Some(row) => assert (rows + [row])[..|rows|] == rows;
    case None => assert rows + [] == rows;
  }

  /** `read_jsonl`: the values of the lines that are JSON; none when the file does not decode. */
  method ReadJsonl(j: Json, content: seq<Byte>) returns (read: Option<seq<Loaded>>)
    ensures read == if j.decodes(content) then Some(Values(j, TextLines(content))) else None
  {
    hide Loads, TextLines;
    if !j.decodes(content) {
      return None;
    }
    var lines := TextLines(content);
    var out: seq<Loaded> := [];
    assert lines[..0] == [];
    for i := 0 to |lines|
      invariant out == Values(j, lines[..i])
    {
      assert lines[..i + 1][..i] == lines[..i];
      var v := Loads(j, lines[i]);
      if !v.NoJson? {
        out := out + [v];
      }
    }
    assert lines[..|lines|] == lines;
    return Some(out);
  }

  /** `parse_run`: every row of the file, with the whole activity kept. */
  method ParseRun(j: Json, content: seq<Byte>, delegationsOnly: bool) returns (outcome: Outcome)
    ensures outcome == ParseOf(j, content, delegationsOnly)
  {
    hide RunBlocks, EndsTurn, Values, TextLines, ChosenBlocks, ChosenRows, TurnEnded, RunRows, RowsOf;
    var read := ReadJsonl(j, content);
    if read.None? {
      return Fails;
    }
    var values := read.value;
    if values == [] {
      return NoRun;
    }
    var r, endedTurn := NO_RUN, false;
    NothingRun(delegationsOnly);
    OnlyJson(j, TextLines(content));
    assert values[..0] == [];
    for i := 0 to |values|
      invariant forall v <- values[..i] :: v.Object?
      invariant r == RunRows(ChosenRows(RowsOf(values[..i]), delegationsOnly))
      invariant endedTurn == TurnEnded(RowsOf(values[..i]))
    {
      if values[i].NoObject? {
        assert values[i] in values;
        return Fails;
      }
      assert values[i] in values;
      var row := values[i].row;
      OneMoreRow(values, i, delegationsOnly);
      ghost var before := r;
      match row.content {
        case Plain(text) =>
          if row.speaker == USER && r.firstPrompt == "" {
            r := r.(firstPrompt := text);
          }
        case Blocks(blocks) => r := ParseBlocks(r, row, blocks, delegationsOnly);
        case NoContent =>
      }
      SameRowRun(before, row, delegationsOnly);
      if row.speaker != OTHER {
        endedTurn := EndsTurn(row);
      }
    }
    assert values[..|values|] == values;
    assert forall v <- values :: !v.NoObject?;
    return Ran(r, endedTurn);
  }

  method ParseBlocks(from: Run, row: Row, blocks: seq<Block>, delegationsOnly: bool) returns (r: Run)
    ensures r == RunBlocks(from, row, ChosenBlocks(blocks, delegationsOnly))
  {
    hide RunBlock, RunBlocks, ChosenBlocks, Chosen;
    r := from;
    NoChosen(from, row, delegationsOnly);
    assert blocks[..0] == [];
    for i := 0 to |blocks|
      invariant r == RunBlocks(from, row, ChosenBlocks(blocks[..i], delegationsOnly))
    {
      OneMoreChosen(from, row, blocks, i, delegationsOnly);
      if Chosen(blocks[i], delegationsOnly) {
        r := RunBlock(r, row, blocks[i]);
      }
    }
    assert blocks[..|blocks|] == blocks;
  }

  lemma NoChosen(from: Run, row: Row, delegationsOnly: bool)
    ensures RunBlocks(from, row, ChosenBlocks([], delegationsOnly)) == from
  {
  }

  lemma OneMoreChosen(from: Run, row: Row, blocks: seq<Block>, i: nat, delegationsOnly: bool)
    requires i < |blocks|
    ensures var before := RunBlocks(from, row, ChosenBlocks(blocks[..i], delegationsOnly));
            RunBlocks(from, row, ChosenBlocks(blocks[..i + 1], delegationsOnly)) ==
            if Chosen(blocks[i], delegationsOnly) then RunBlock(before, row, blocks[i]) else before
  {
    hide RunBlock, Chosen;
    assert blocks[..i + 1][..i] == blocks[..i];
    var front := ChosenBlocks(blocks[..i], delegationsOnly);
    assert (front + [blocks[i]])[..|front|] == front && front + [] == front;
  }

  lemma {:induction false} OnlyJson(j: Json, lines: seq<seq<Byte>>)
    ensures forall v <- Values(j, lines) :: !v.NoJson?
  {
    hide Loads;
    if lines != [] {
      OnlyJson(j, lines[..|lines| - 1]);
    }
  }

  /** Blocks run the same, whatever else the message holds. */
  lemma {:induction false} SameHeadRun(from: Run, a: Row, b: Row, blocks: seq<Block>)
    requires a.speaker == b.speaker && a.ts == b.ts
    ensures RunBlocks(from, a, blocks) == RunBlocks(from, b, blocks)
  {
    hide AddAll, Ends;
    if blocks != [] {
      SameHeadRun(from, a, b, blocks[..|blocks| - 1]);
    }
  }

  lemma SameRowRun(r: Run, row: Row, delegationsOnly: bool)
    ensures row.content.Blocks? ==>
              RunRow(r, ChosenRow(row, delegationsOnly)) ==
              RunBlocks(r, row, ChosenBlocks(row.content.blocks, delegationsOnly))
    ensures !row.content.Blocks? ==> RunRow(r, ChosenRow(row, delegationsOnly)) == RunRow(r, row)
  {
    hide RunBlocks, ChosenBlocks;
    if row.content.Blocks? {
      SameHeadRun(r, row, ChosenRow(row, delegationsOnly), ChosenBlocks(row.content.blocks, delegationsOnly));
    }
  }

  lemma NothingRun(delegationsOnly: bool)
    ensures RunRows(ChosenRows(RowsOf([]), delegationsOnly)) == NO_RUN && !TurnEnded(RowsOf([]))
  {
  }

  lemma OneMoreRow(values: seq<Loaded>, i: nat, delegationsOnly: bool)
    requires i < |values| && values[i].Object?
    ensures var front, row := RowsOf(values[..i]), values[i].row;
            && RunRows(ChosenRows(RowsOf(values[..i + 1]), delegationsOnly)) ==
               RunRow(RunRows(ChosenRows(front, delegationsOnly)), ChosenRow(row, delegationsOnly))
            && TurnEnded(RowsOf(values[..i + 1])) == if row.speaker == OTHER then TurnEnded(front) else EndsTurn(row)
  {
    hide RunRow, ChosenRow, EndsTurn;
    assert values[..i + 1][..i] == values[..i];
    var front, row := RowsOf(values[..i]), values[i].row;
    assert (front + [row])[..|front|] == front;
    var chosen := ChosenRows(front, delegationsOnly);
    assert ChosenRows(front + [row], delegationsOnly) == chosen + [ChosenRow(row, delegationsOnly)];
    assert (chosen + [ChosenRow(row, delegationsOnly)])[..|chosen|] == chosen;
  }
}
