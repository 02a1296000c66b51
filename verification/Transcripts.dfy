/**
 * `transcripts.py`, class `TranscriptState`, and `server.py`, `parse_run`: a transcript read by the bytes added since
 * the last offset, against one pass over the whole file. Decoding and JSON parsing of one line are a parameter.
 */
module Transcripts {
  import opened Prelude

  const NEWLINE: Byte := 10
  const LIMIT := 80

  datatype Speaker = USER | ASSISTANT | OTHER

  /** A block of a message: tool use with the files it writes, text without surrounding blanks, tool result. */
  datatype Block =
    | ToolUse(id: string, name: string, summary: string, writes: seq<string>)
    | TextBlock(text: string)
    | ToolResult(id: string, isError: bool)
    | OtherBlock

  datatype Content = Plain(text: string) | Blocks(blocks: seq<Block>) | NoContent

  datatype Row = Row(speaker: Speaker, ts: string, content: Content)

  /** Decodes a line; a blank line or one that is no JSON object is none. */
  type Parser = seq<Byte> -> Option<Row>

  /** An entry of the activity, changed in place while its tool runs. */
  datatype Item = Tool(ts: string, tool: string, summary: string, pending: bool, endedAt: Option<string>, error: bool)
                | Said(ts: string, summary: string)

  // ---------------------------------------------------------------- lines

  /** `split(b"\n")`. */
  function Pieces(text: seq<Byte>): (pieces: seq<seq<Byte>>)
    ensures |pieces| > 0
  {
    if text == [] then [[]]
    else
      var pieces, c := Pieces(text[..|text| - 1]), text[|text| - 1];
      if c == NEWLINE then pieces + [[]] else pieces[..|pieces| - 1] + [pieces[|pieces| - 1] + [c]]
  }

  /** The lines that are ended. */
  function Lines(text: seq<Byte>): seq<seq<Byte>> {
    Pieces(text)[..|Pieces(text)| - 1]
  }

  /** Position after the last newline. */
  function Ended(text: seq<Byte>): (n: nat)
    ensures n <= |text|
  {
    if text == [] then 0 else if text[|text| - 1] == NEWLINE then |text| else Ended(text[..|text| - 1])
  }

  lemma PiecesSnoc(text: seq<Byte>, c: Byte)
    ensures var pieces := Pieces(text);
            Pieces(text + [c]) ==
            if c == NEWLINE then pieces + [[]] else pieces[..|pieces| - 1] + [pieces[|pieces| - 1] + [c]]
  {
    assert (text + [c])[..|text|] == text;
  }

  /** Text after an ended line starts new lines. */
  lemma {:induction false} LinesConcat(a: seq<Byte>, b: seq<Byte>)
    requires Ended(a) == |a|
    ensures Pieces(a + b) == Lines(a) + Pieces(b)
    decreases |b|
  {
    hide Pieces;
    if b == [] {
      assert a + b == a;
      EndedPieces(a);
      assert Pieces(a) == Lines(a) + [[]];
    } else {
      var front, c := b[..|b| - 1], b[|b| - 1];
      LinesConcat(a, front);
      assert a + b == (a + front) + [c] && b == front + [c];
      PiecesSnoc(a + front, c);
      PiecesSnoc(front, c);
      var whole, some := Pieces(a + front), Pieces(front);
      assert whole[..|whole| - 1] == Lines(a) + some[..|some| - 1];
    }
  }

  lemma EndedPieces(a: seq<Byte>)
    ensures Pieces([]) == [[]]
    ensures Ended(a) == |a| ==> Pieces(a)[|Pieces(a)| - 1] == []
  {
  }

  /** What follows the last newline adds no line. */
  lemma {:induction false} LinesOfEnded(text: seq<Byte>)
    ensures Lines(text[..Ended(text)]) == Lines(text) && Ended(text[..Ended(text)]) == Ended(text)
  {
    if text != [] && text[|text| - 1] != NEWLINE {
      var front := text[..|text| - 1];
      LinesOfEnded(front);
      assert text[..Ended(text)] == front[..Ended(front)];
    } else {
      assert text[..Ended(text)] == text;
    }
  }

  /** The lines of a chunk are what `split` makes of it up to its last newline. */
  lemma {:induction false} ChunkLines(chunk: seq<Byte>)
    requires Ended(chunk) > 0
    ensures Pieces(chunk[..Ended(chunk) - 1]) == Lines(chunk)
  {
    LinesOfEnded(chunk);
    var ended := chunk[..Ended(chunk)];
    assert ended[..|ended| - 1] == chunk[..Ended(chunk) - 1];
    LastIsNewline(chunk);
  }

  lemma LastIsNewline(text: seq<Byte>)
    requires Ended(text) > 0
    ensures text[Ended(text) - 1] == NEWLINE
  {
  }

  lemma {:induction false} EndedConcat(a: seq<Byte>, b: seq<Byte>)
    requires Ended(a) == |a|
    ensures Ended(a + b) == |a| + Ended(b)
    decreases |b|
  {
    if b == [] {
      assert a + b == a;
    } else {
      EndedConcat(a, b[..|b| - 1]);
      assert (a + b)[..|a + b| - 1] == a + b[..|b| - 1];
    }
  }

  // ---------------------------------------------------------------- the accumulated state

  /** Fields of `TranscriptState`; `activity` and `tools` refer to items, shared with `pending`, by position. */
  datatype Data = Data(
    rows: nat, started: string, firstPrompt: string, items: seq<Item>, activity: seq<nat>, tools: seq<nat>,
    pending: map<string, nat>, files: seq<string>, toolCount: nat, endedTurn: bool)

  const NO_DATA := Data(0, "", "", [], [], [], map[], [], 0, false)

  /** `deque(maxlen=80)`. */
  function Bounded<T>(s: seq<T>, x: T): seq<T> {
    if |s| < LIMIT then s + [x] else s[|s| + 1 - LIMIT..] + [x]
  }

  function AddAll(files: seq<string>, more: seq<string>): seq<string> {
    if more == [] then files
    else
      var front, f := AddAll(files, more[..|more| - 1]), more[|more| - 1];
      if f in front then front else front + [f]
  }

  function Ends(item: Item, ts: string, isError: bool): Item {
    if item.Tool? then item.(pending := false, endedAt := Some(ts), error := item.error || isError) else item
  }

  /** What `_line` does with one block. */
  function OnBlock(d: Data, row: Row, b: Block): Data {
    match b
    case ToolUse(id, name, summary, writes) =>
      if row.speaker != ASSISTANT then d
      else
        var n := |d.items|;
        d.(items := d.items + [Tool(row.ts, name, summary, true, None, false)], activity := Bounded<nat>(d.activity, n),
           tools := Bounded<nat>(d.tools, n), pending := d.pending[id := n], files := AddAll(d.files, writes),
           toolCount := d.toolCount + 1)
    case TextBlock(text) =>
      if row.speaker != ASSISTANT || text == "" then d
      else d.(items := d.items + [Said(row.ts, text)], activity := Bounded<nat>(d.activity, |d.items|))
    case ToolResult(id, isError) =>
      if row.speaker != USER || id !in d.pending then d
      else
        var n := d.pending[id];
        d.(pending := d.pending - {id},
           items := if n < |d.items| then d.items[n := Ends(d.items[n], row.ts, isError)] else d.items)
    case OtherBlock => d
  }

  function OnBlocks(d: Data, row: Row, blocks: seq<Block>): Data {
    if blocks == [] then d else OnBlock(OnBlocks(d, row, blocks[..|blocks| - 1]), row, blocks[|blocks| - 1])
  }

  /** No tool is used in an assistant's message. */
  predicate EndsTurn(row: Row) {
    row.speaker == ASSISTANT && row.content.Blocks? && forall b <- row.content.blocks :: !b.ToolUse?
  }

  /** The part of `_line` before the blocks. */
  function OnHead(d: Data, row: Row): Data {
    d.(rows := d.rows + 1, started := if d.rows == 0 then row.ts else d.started,
       firstPrompt :=
         if row.speaker == USER && row.content.Plain? && d.firstPrompt == "" then row.content.text else d.firstPrompt,
       endedTurn := if row.speaker == OTHER then d.endedTurn else EndsTurn(row))
  }

  function OnRow(d: Data, row: Row): Data {
    if row.content.Blocks? then OnBlocks(OnHead(d, row), row, row.content.blocks) else OnHead(d, row)
  }

  function OnRows(d: Data, rows: seq<Row>): Data {
    if rows == [] then d else OnRow(OnRows(d, rows[..|rows| - 1]), rows[|rows| - 1])
  }

  /** The rows of the lines that parse. */
  function Parsed(parse: Parser, lines: seq<seq<Byte>>): seq<Row> {
    if lines == [] then []
    else
      Parsed(parse, lines[..|lines| - 1])
      + (match parse(lines[|lines| - 1]) case Some(row) => [row] case None => [])
  }

  /** One pass over the newline-terminated content. */
  function OnePass(parse: Parser, content: seq<Byte>): Data {
    OnRows(NO_DATA, Parsed(parse, Lines(content)))
  }

  // ---------------------------------------------------------------- refreshing

  /** What `stat` and then `read` find; `size` may be less than what is read if the file grew in between. */
  datatype Sight = Missing | Present(ino: nat, size: nat, mtime: int, content: seq<Byte>)

  datatype State = State(offset: nat, ino: Option<nat>, size: int, mtime: int, data: Data)

  const FRESH := State(0, None, -1, -1, NO_DATA)

  function Rest(content: seq<Byte>, offset: nat): seq<Byte> {
    if offset <= |content| then content[offset..] else []
  }

  predicate Unchanged(s: State, o: Sight) {
    o.Missing? || (o.size == s.size && o.mtime == s.mtime)
  }

  predicate Restarts(s: State, o: Sight) {
    o.Present? && (Some(o.ino) != s.ino || o.size < s.offset)
  }

  /** `refresh`. */
  function Refresh(parse: Parser, s: State, o: Sight): State {
    if Unchanged(s, o) then s
    else
      var from := if Restarts(s, o) then FRESH.(ino := Some(o.ino)) else s;
      var chunk := Rest(o.content, from.offset);
      State(from.offset + Ended(chunk), from.ino, o.size, o.mtime, OnRows(from.data, Parsed(parse, Lines(chunk))))
  }

  function Refreshes(parse: Parser, sights: seq<Sight>): State {
    if sights == [] then FRESH
    else Refresh(parse, Refreshes(parse, sights[..|sights| - 1]), sights[|sights| - 1])
  }

  /** The content last read. */
  function Seen(sights: seq<Sight>): seq<Byte> {
    if sights == [] then []
    else if sights[|sights| - 1].Present? then sights[|sights| - 1].content
    else Seen(sights[..|sights| - 1])
  }

  /** The part of a content that has been consumed: up to its last newline. */
  function Consumed(content: seq<Byte>): seq<Byte> {
    content[..Ended(content)]
  }

  /**
   * The file between two looks: same size and modification time mean the same complete lines; the same inode not
   * shorter than what was consumed means that what was consumed is still there. The unfinished tail may change, and a
   * new inode, or a file cut below the offset, may hold anything.
   */
  predicate Follows(s: State, seen: seq<Byte>, o: Sight) {
    o.Present? ==>
      if Unchanged(s, o) then Consumed(o.content) == Consumed(seen)
      else Restarts(s, o) || Consumed(seen) <= o.content
  }

  predicate Plausible(parse: Parser, sights: seq<Sight>) {
    sights == [] ||
    (&& Plausible(parse, sights[..|sights| - 1])
     && Follows(Refreshes(parse, sights[..|sights| - 1]), Seen(sights[..|sights| - 1]), sights[|sights| - 1]))
  }

  lemma {:induction false} ParsedConcat(parse: Parser, a: seq<seq<Byte>>, b: seq<seq<Byte>>)
    ensures Parsed(parse, a + b) == Parsed(parse, a) + Parsed(parse, b)
    decreases |b|
  {
    if b == [] {
      assert a + b == a;
    } else {
      ParsedConcat(parse, a, b[..|b| - 1]);
      assert (a + b)[..|a + b| - 1] == a + b[..|b| - 1];
    }
  }

  lemma {:induction false} OnRowsConcat(d: Data, a: seq<Row>, b: seq<Row>)
    ensures OnRows(d, a + b) == OnRows(OnRows(d, a), b)
    decreases |b|
  {
    hide OnRow;
    if b == [] {
      assert a + b == a;
    } else {
      OnRowsConcat(d, a, b[..|b| - 1]);
      assert (a + b)[..|a + b| - 1] == a + b[..|b| - 1];
    }
  }

  /** Content that extends what was read: the new lines continue the pass where it stopped. */
  lemma ChunkContinues(parse: Parser, seen: seq<Byte>, content: seq<Byte>)
    requires seen <= content
    ensures var n := Ended(seen);
            && n + Ended(content[n..]) == Ended(content)
            && OnRows(OnePass(parse, seen), Parsed(parse, Lines(content[n..]))) == OnePass(parse, content)
  {
    hide Pieces, Parsed, OnRows, Ended;
    var n := Ended(seen);
    var head, chunk := content[..n], content[n..];
    assert head == seen[..n];
    LinesOfEnded(seen);
    assert content == head + chunk;
    EndedConcat(head, chunk);
    LinesConcat(head, chunk);
    assert Lines(content) == Lines(head) + Lines(chunk);
    ParsedConcat(parse, Lines(head), Lines(chunk));
    OnRowsConcat(NO_DATA, Parsed(parse, Lines(head)), Parsed(parse, Lines(chunk)));
  }

  ghost predicate Current(parse: Parser, s: State, seen: seq<Byte>) {
    && s.data == OnePass(parse, seen) && s.offset == Ended(seen)
    && (s.ino.None? ==> seen == [] && s.size == -1)
  }

  lemma NothingSeen(parse: Parser)
    ensures OnePass(parse, []) == NO_DATA && Ended([]) == 0
  {
    EndedPieces([]);
  }

  /** The lines are those of the consumed part. */
  lemma SameLines(parse: Parser, a: seq<Byte>, b: seq<Byte>)
    requires Consumed(a) == Consumed(b) || b == Consumed(a)
    ensures Ended(a) == Ended(b) && OnePass(parse, a) == OnePass(parse, b) && Lines(a) == Lines(b)
  {
    hide Ended, Lines, OnRows, Parsed;
    LinesOfEnded(a);
    LinesOfEnded(b);
  }

  lemma RefreshKeeps(parse: Parser, s: State, seen: seq<Byte>, o: Sight)
    requires Current(parse, s, seen) && Follows(s, seen, o)
    ensures Current(parse, Refresh(parse, s, o), if o.Present? then o.content else seen)
  {
    hide OnePass, Lines, Ended, OnRows, Parsed;
    if !Unchanged(s, o) {
      if Restarts(s, o) {
        NothingSeen(parse);
        ChunkContinues(parse, [], o.content);
        assert o.content[0..] == o.content;
      } else {
        SameLines(parse, seen, Consumed(seen));
        ChunkContinues(parse, Consumed(seen), o.content);
      }
    } else if o.Present? {
      SameLines(parse, seen, o.content);
    }
  }

  /**
   * Whatever is appended between looks, and whenever the file is replaced or cut below the offset, the incremental
   * state is that of one pass over the newline-terminated content last read.
   */
  lemma {:induction false} IncrementalIsOnePass(parse: Parser, sights: seq<Sight>)
    requires Plausible(parse, sights)
    ensures Refreshes(parse, sights).data == OnePass(parse, Seen(sights))
    ensures Refreshes(parse, sights).offset == Ended(Seen(sights))
    ensures Current(parse, Refreshes(parse, sights), Seen(sights))
  {
    hide Refresh, OnePass;
    if sights == [] {
      NothingSeen(parse);
    } else {
      var front := sights[..|sights| - 1];
      IncrementalIsOnePass(parse, front);
      RefreshKeeps(parse, Refreshes(parse, front), Seen(front), sights[|sights| - 1]);
    }
  }
}
