/**
 * `server.py`, `read_jsonl` and `parse_run`, on the bytes of a file: against `TranscriptState`, exactly when both see
 * the same run.
 */
module TranscriptFiles {
  import opened Prelude
  import opened Transcripts
  import opened TranscriptRuns
  import E = TranscriptExactness

  const RETURN: Byte := 13

  /** Blanks that JSON allows around a value; a newline is in no line. */
  predicate IsBlank(b: Byte) {
    b == 32 || b == 9 || b == RETURN
  }

  // ---------------------------------------------------------------- lines and values

  function LStrip(line: seq<Byte>): (rest: seq<Byte>)
    ensures rest != [] ==> line != []
  {
    if line == [] then []
    else
      var front, c := LStrip(line[..|line| - 1]), line[|line| - 1];
      if front == [] && IsBlank(c) then [] else front + [c]
  }

  function RStrip(line: seq<Byte>): seq<Byte> {
    if line == [] || !IsBlank(line[|line| - 1]) then line else RStrip(line[..|line| - 1])
  }

  function Strip(line: seq<Byte>): seq<Byte> {
    RStrip(LStrip(line))
  }

  /** What `json.loads` makes of a line: nothing, a value that is no object, or a row. */
  datatype Loaded = NoJson | NoObject | Object(row: Row)

  /** How bytes decode, and what the values between the blanks of a line are. */
  datatype Json = Json(decodes: seq<Byte> -> bool, values: seq<Byte> -> Loaded)

  function Loads(j: Json, line: seq<Byte>): Loaded {
    if Strip(line) == [] then NoJson else j.values(Strip(line))
  }

  /** `_line` passes over what is no object. */
  function Skipping(j: Json): Parser {
    line => match Loads(j, line)
            case Object(row) => Some(row)
            case _ => None
  }

  /** The lines of a file opened as text: a newline, a return, or both end one. */
  function TextLines(text: seq<Byte>): (lines: seq<seq<Byte>>)
    ensures |lines| > 0
  {
    if text == [] then [[]]
    else
      var front, c := text[..|text| - 1], text[|text| - 1];
      var lines := TextLines(front);
      if c == NEWLINE && front != [] && front[|front| - 1] == RETURN then lines
      else if c == NEWLINE || c == RETURN then lines + [[]]
      else lines[..|lines| - 1] + [lines[|lines| - 1] + [c]]
  }

  /** The values of the lines that are JSON. */
  function Values(j: Json, lines: seq<seq<Byte>>): seq<Loaded> {
    if lines == [] then []
    else
      var v := Loads(j, lines[|lines| - 1]);
      Values(j, lines[..|lines| - 1]) + (if v.NoJson? then [] else [v])
  }

  function RowsOf(values: seq<Loaded>): seq<Row> {
    if values == [] then []
    else
      var last := values[|values| - 1];
      RowsOf(values[..|values| - 1]) + (if last.Object? then [last.row] else [])
  }

  /** What `parse_run` works on: `read_jsonl` or `get` raises, there is nothing, or there are rows. */
  datatype Whole = Raised | Nothing | Rows(rows: seq<Row>)

  function WholeFile(j: Json, content: seq<Byte>): Whole {
    var values := Values(j, TextLines(content));
    if !j.decodes(content) || (exists v <- values :: v.NoObject?) then Raised
    else if values == [] then Nothing
    else Rows(RowsOf(values))
  }

  /** Both give no run, or runs with the same last 80 entries, counts, files, prompt, start and end of the turn. */
  predicate SameRun(d: Data, whole: Whole) {
    match whole
    case Raised => false
    case Nothing => d.rows == 0
    case Rows(rows) =>
      var r := RunRows(rows);
      && d.rows == |rows| > 0 && d.started == rows[0].ts && d.endedTurn == TurnEnded(rows)
      && (forall k :: 0 <= k < |d.activity| ==> d.activity[k] < |d.items|)
      && ItemsAt(d.items, d.activity) == Last(r.activity)
      && d.toolCount == r.toolCount && d.files == r.files && d.firstPrompt == r.firstPrompt
  }

  // ---------------------------------------------------------------- the delegations alone

  /** What `delegations_only` passes over. */
  predicate Chosen(b: Block, delegationsOnly: bool) {
    !delegationsOnly || match b
                        case ToolUse(_, name, _, _) => name == "Agent"
                        case TextBlock(_) => false
                        case _ => true
  }

  function ChosenBlocks(blocks: seq<Block>, delegationsOnly: bool): seq<Block> {
    if blocks == [] then []
    else
      var last := blocks[|blocks| - 1];
      ChosenBlocks(blocks[..|blocks| - 1], delegationsOnly) + (if Chosen(last, delegationsOnly) then [last] else [])
  }

  function ChosenRow(row: Row, delegationsOnly: bool): Row {
    if row.content.Blocks? then row.(content := Blocks(ChosenBlocks(row.content.blocks, delegationsOnly))) else row
  }

  function ChosenRows(rows: seq<Row>, delegationsOnly: bool): seq<Row> {
    seq(|rows|, i requires 0 <= i < |rows| => ChosenRow(rows[i], delegationsOnly))
  }

  lemma {:induction false} AllChosen(blocks: seq<Block>)
    ensures ChosenBlocks(blocks, false) == blocks
  {
    if blocks != [] {
      AllChosen(blocks[..|blocks| - 1]);
    }
  }

  /** What `parse_run` returns: the run of the chosen blocks, and whether all blocks end the turn. */
  datatype Outcome = Fails | NoRun | Ran(run: Run, endedTurn: bool)

  function ParseOf(j: Json, content: seq<Byte>, delegationsOnly: bool): Outcome {
    match WholeFile(j, content)
    case Raised => Fails
    case Nothing => NoRun
    case Rows(rows) => Ran(RunRows(ChosenRows(rows, delegationsOnly)), TurnEnded(rows))
  }

  /** Without the filter it is the run that is compared with the incremental state. */
  lemma UnfilteredRun(j: Json, content: seq<Byte>)
    requires WholeFile(j, content).Rows?
    ensures var rows := WholeFile(j, content).rows; ParseOf(j, content, false) == Ran(RunRows(rows), TurnEnded(rows))
  {
    var rows := WholeFile(j, content).rows;
    forall i | 0 <= i < |rows| && rows[i].content.Blocks?
      ensures ChosenBlocks(rows[i].content.blocks, false) == rows[i].content.blocks
    {
      AllChosen(rows[i].content.blocks);
    }
    assert ChosenRows(rows, false) == rows;
  }

  // ---------------------------------------------------------------- what returns inside a line do

  /** A return after something that is not blank. */
  predicate Broken(line: seq<Byte>) {
    line != [] &&
    var front, c := line[..|line| - 1], line[|line| - 1];
    Broken(front) || (c == RETURN && LStrip(front) != [])
  }

  /** A return between things that are not blank. */
  predicate Interior(line: seq<Byte>) {
    line != [] &&
    var front, c := line[..|line| - 1], line[|line| - 1];
    Interior(front) || (Broken(front) && !IsBlank(c))
  }

  /** The text after the last newline. */
  function Tail(content: seq<Byte>): seq<Byte> {
    Pieces(content)[|Pieces(content)| - 1]
  }

  /** Lines without blanks around, blank ones dropped. */
  function Solid(lines: seq<seq<Byte>>): seq<seq<Byte>> {
    if lines == [] then []
    else
      var last := Strip(lines[|lines| - 1]);
      Solid(lines[..|lines| - 1]) + (if last == [] then [] else [last])
  }

  /** `split` of one line at its returns. */
  function Parts(line: seq<Byte>): (parts: seq<seq<Byte>>)
    ensures |parts| > 0
  {
    if line == [] then [[]]
    else
      var parts, c := Parts(line[..|line| - 1]), line[|line| - 1];
      if c == RETURN then parts + [[]] else parts[..|parts| - 1] + [parts[|parts| - 1] + [c]]
  }

  function AllParts(lines: seq<seq<Byte>>): seq<seq<Byte>> {
    if lines == [] then [] else AllParts(lines[..|lines| - 1]) + Parts(lines[|lines| - 1])
  }

  lemma StripSnoc(line: seq<Byte>, c: Byte)
    ensures LStrip(line + [c]) == if LStrip(line) == [] && IsBlank(c) then [] else LStrip(line) + [c]
    ensures IsBlank(c) ==> Strip(line + [c]) == Strip(line)
    ensures !IsBlank(c) ==> Strip(line + [c]) == LStrip(line) + [c]
  {
    assert (line + [c])[..|line|] == line;
    var front := LStrip(line);
    assert (front + [c])[..|front|] == front;
  }

  lemma {:induction false} StripOfSolid(line: seq<Byte>)
    ensures LStrip(line) != [] ==> !IsBlank(LStrip(line)[0])
    ensures Strip(line) == [] <==> LStrip(line) == []
  {
    if line != [] {
      StripOfSolid(line[..|line| - 1]);
      assert line == line[..|line| - 1] + [line[|line| - 1]];
      StripSnoc(line[..|line| - 1], line[|line| - 1]);
    }
  }

  lemma {:induction false} SolidConcat(a: seq<seq<Byte>>, b: seq<seq<Byte>>)
    ensures Solid(a + b) == Solid(a) + Solid(b)
    decreases |b|
  {
    hide Strip;
    if b == [] {
      assert a + b == a;
    } else {
      SolidConcat(a, b[..|b| - 1]);
      assert (a + b)[..|a + b| - 1] == a + b[..|b| - 1];
    }
  }

  lemma SolidOne(line: seq<Byte>)
    ensures Solid([line]) == if Strip(line) == [] then [] else [Strip(line)]
  {
    assert [line][..0] == [];
  }

  function Front<T>(s: seq<T>): seq<T>
    requires s != []
  {
    s[..|s| - 1]
  }

  function Back<T>(s: seq<T>): T
    requires s != []
  {
    s[|s| - 1]
  }

  /** What splitting a line at its returns leaves: nothing changes but blanks, unless a return is inside. */
  predicate SplitAs(line: seq<Byte>, parts: seq<seq<Byte>>)
    requires parts != []
  {
    && (!Broken(line) ==> Solid(Front(parts)) == [] && LStrip(Back(parts)) == LStrip(line))
    && (Broken(line) && !Interior(line) ==>
         LStrip(Back(parts)) == [] && Solid(Front(parts)) == [Strip(line)] && Strip(line) != [])
    && (Interior(line) ==> |Solid(parts)| >= 2 && Broken(line))
  }

  lemma SplitSolid(lines: seq<seq<Byte>>)
    requires lines != []
    ensures Solid(lines) == Solid(Front(lines)) + Solid([Back(lines)])
  {
    assert lines == Front(lines) + [Back(lines)];
    SolidConcat(Front(lines), [Back(lines)]);
  }

  lemma BrokenSnoc(line: seq<Byte>, c: Byte)
    ensures Broken(line + [c]) <==> Broken(line) || (c == RETURN && LStrip(line) != [])
    ensures Interior(line + [c]) <==> Interior(line) || (Broken(line) && !IsBlank(c))
  {
    assert (line + [c])[..|line|] == line;
  }

  lemma SplitReturn(line: seq<Byte>, parts: seq<seq<Byte>>)
    requires parts != [] && SplitAs(line, parts)
    ensures SplitAs(line + [RETURN], parts + [[]])
  {
    BrokenSnoc(line, RETURN);
    StripSnoc(line, RETURN);
    StripOfSolid(line);
    EmptyStrip();
    StripOfSolid(Back(parts));
    hide Broken, Interior, Strip, LStrip, Solid;
    SplitSolid(parts);
    SolidOne(Back(parts));
    SplitSolid(parts + [[]]);
    SolidOne([]);
    assert Front(parts + [[]]) == parts && Back(parts + [[]]) == [];
    StripOfBlank(line, Back(parts));
  }

  lemma StripOfBlank(a: seq<Byte>, b: seq<Byte>)
    ensures LStrip(a) == LStrip(b) ==> Strip(a) == Strip(b)
  {
  }

  lemma SplitByte(line: seq<Byte>, parts: seq<seq<Byte>>, c: Byte)
    requires parts != [] && SplitAs(line, parts) && c != RETURN
    ensures SplitAs(line + [c], Front(parts) + [Back(parts) + [c]])
  {
    BrokenSnoc(line, c);
    StripSnoc(line, c);
    StripSnoc(Back(parts), c);
    StripOfSolid(Back(parts));
    hide Broken, Interior, Strip, LStrip, Solid;
    var after := Front(parts) + [Back(parts) + [c]];
    assert Front(after) == Front(parts) && Back(after) == Back(parts) + [c];
    SplitSolid(parts);
    SolidOne(Back(parts));
    SplitSolid(after);
    SolidOne(Back(after));
  }

  lemma PartsSnoc(line: seq<Byte>, c: Byte)
    ensures var parts := Parts(line);
            Parts(line + [c]) ==
            if c == RETURN then parts + [[]] else parts[..|parts| - 1] + [parts[|parts| - 1] + [c]]
  {
    assert (line + [c])[..|line|] == line;
  }

  lemma {:induction false} PartsOfLine(line: seq<Byte>)
    ensures SplitAs(line, Parts(line))
  {
    if line != [] {
      var front, c := line[..|line| - 1], line[|line| - 1];
      PartsOfLine(front);
      assert line == front + [c];
      PartsSnoc(front, c);
      hide Parts, SplitAs;
      if c == RETURN {
        SplitReturn(front, Parts(front));
      } else {
        SplitByte(front, Parts(front), c);
      }
    }
  }

  lemma EmptyStrip()
    ensures Strip([]) == [] && LStrip([]) == []
  {
  }

  lemma SolidParts(line: seq<Byte>)
    ensures if Interior(line) then |Solid(Parts(line))| > |Solid([line])| else Solid(Parts(line)) == Solid([line])
  {
    PartsOfLine(line);
    SolidOne(line);
    StripOfSolid(line);
    var parts := Parts(line);
    SplitSolid(parts);
    SolidOne(Back(parts));
    StripOfSolid(Back(parts));
    StripOfBlank(line, Back(parts));
  }

  predicate NoReturnInside(lines: seq<seq<Byte>>) {
    forall line <- lines :: !Interior(line)
  }

  lemma {:induction false} SolidAllParts(lines: seq<seq<Byte>>)
    ensures if NoReturnInside(lines) then Solid(AllParts(lines)) == Solid(lines)
            else |Solid(AllParts(lines))| > |Solid(lines)|
  {
    hide Interior, Solid, Parts;
    if lines == [] {
      NothingSolid();
    } else {
      var front, last := lines[..|lines| - 1], lines[|lines| - 1];
      SolidAllParts(front);
      SolidParts(last);
      SolidConcat(AllParts(front), Parts(last));
      SolidConcat(front, [last]);
      assert forall line :: line in front + [last] <==> line in front || line == last;
      assert lines == front + [last];
    }
  }

  lemma NothingSolid()
    ensures Solid([]) == [] && Parts([]) == [[]] && AllParts([]) == []
  {
  }

  lemma AllPartsSnoc(lines: seq<seq<Byte>>, line: seq<Byte>)
    ensures AllParts(lines + [line]) == AllParts(lines) + Parts(line)
  {
    assert (lines + [line])[..|lines|] == lines;
  }

  /** Blank lines aside, the lines of a text are the parts of its newline-separated pieces. */
  lemma {:induction false} TextIsParts(text: seq<Byte>)
    ensures AllParts(Pieces(text)) != [] && SameText(TextLines(text), AllParts(Pieces(text)))
  {
    if text == [] {
      AllPartsSnoc([], []);
      assert Pieces(text) == [] + [[]];
    } else {
      var front, c := text[..|text| - 1], text[|text| - 1];
      TextIsParts(front);
      assert text == front + [c];
      PiecesSnoc(front, c);
      TextSnoc(front, c);
      hide Pieces, TextLines;
      TextStep(front, c);
    }
  }

  predicate SameText(t: seq<seq<Byte>>, f: seq<seq<Byte>>)
    requires t != [] && f != []
  {
    Back(t) == Back(f) && Solid(Front(t)) == Solid(Front(f))
  }

  lemma TextSnoc(text: seq<Byte>, c: Byte)
    ensures var lines, paired := TextLines(text), text != [] && text[|text| - 1] == RETURN;
            && (paired ==> Back(lines) == [])
            && TextLines(text + [c]) ==
               if c == NEWLINE && paired then lines
               else if c == NEWLINE || c == RETURN then lines + [[]]
               else Front(lines) + [Back(lines) + [c]]
  {
    assert (text + [c])[..|text|] == text;
  }

  lemma TextStep(front: seq<Byte>, c: Byte)
    requires AllParts(Pieces(front)) != [] && SameText(TextLines(front), AllParts(Pieces(front)))
    ensures AllParts(Pieces(front + [c])) != []
    ensures SameText(TextLines(front + [c]), AllParts(Pieces(front + [c])))
  {
    TextSnoc(front, c);
    PiecesSnoc(front, c);
    hide Pieces, TextLines, Solid, AllParts, Parts;
    var pieces := Pieces(front);
    if c == NEWLINE {
      AllPartsSnoc(pieces, []);
      NothingSolid();
      LineMore(TextLines(front), AllParts(pieces));
    } else {
      AllPartsSnoc(Front(pieces), Back(pieces));
      assert pieces == Front(pieces) + [Back(pieces)];
      AllPartsSnoc(Front(pieces), Back(pieces) + [c]);
      PartsSnoc(Back(pieces), c);
      OneByteMore(TextLines(front), AllParts(pieces), AllParts(Front(pieces)), Parts(Back(pieces)), c);
    }
  }

  lemma LineMore(t: seq<seq<Byte>>, f: seq<seq<Byte>>)
    requires t != [] && f != [] && SameText(t, f)
    ensures SameText(t + [[]], f + [[]])
    ensures Back(t) == [] ==> SameText(t, f + [[]])
  {
    hide Solid;
    SplitSolid(t);
    SplitSolid(f);
    assert Front(f + [[]]) == f && Front(t + [[]]) == t;
    if Back(t) == [] {
      BlankLast(f);
    }
  }

  lemma BlankLast(lines: seq<seq<Byte>>)
    requires lines != [] && Back(lines) == []
    ensures Solid(lines) == Solid(Front(lines))
  {
    SplitSolid(lines);
    SolidOne([]);
    EmptyStrip();
  }

  lemma OneByteMore(t: seq<seq<Byte>>, f: seq<seq<Byte>>, head: seq<seq<Byte>>, parts: seq<seq<Byte>>, c: Byte)
    requires t != [] && parts != [] && f == head + parts && SameText(t, f)
    ensures SameText(t + [[]], head + (parts + [[]]))
    ensures SameText(Front(t) + [Back(t) + [c]], head + (Front(parts) + [Back(parts) + [c]]))
  {
    hide Solid;
    SplitSolid(t);
    SplitSolid(f);
    assert Front(t + [[]]) == t && Front(head + (parts + [[]])) == f;
    assert Front(Front(t) + [Back(t) + [c]]) == Front(t);
    assert Front(head + (Front(parts) + [Back(parts) + [c]])) == Front(f);
  }

  // ---------------------------------------------------------------- what is loaded

  function LoadedFrom(j: Json, solid: seq<seq<Byte>>): seq<Loaded> {
    if solid == [] then []
    else
      var v := j.values(solid[|solid| - 1]);
      LoadedFrom(j, solid[..|solid| - 1]) + (if v.NoJson? then [] else [v])
  }

  /** Only what is between the blanks of a line is loaded. */
  lemma {:induction false} ValuesOfSolid(j: Json, lines: seq<seq<Byte>>)
    ensures Values(j, lines) == LoadedFrom(j, Solid(lines))
  {
    hide Strip;
    if lines != [] {
      ValuesOfSolid(j, lines[..|lines| - 1]);
      var front, last := Solid(lines[..|lines| - 1]), Strip(lines[|lines| - 1]);
      assert (front + [last])[..|front|] == front && front + [] == front;
    }
  }

  /** The rows of the incremental state. */
  lemma {:induction false} ParsedIsRows(j: Json, lines: seq<seq<Byte>>)
    ensures Parsed(Skipping(j), lines) == RowsOf(Values(j, lines))
  {
    hide Loads;
    if lines != [] {
      var front, v := lines[..|lines| - 1], Loads(j, lines[|lines| - 1]);
      ParsedIsRows(j, front);
      var values := Values(j, front);
      assert (values + [v])[..|values|] == values && values + [] == values;
    }
  }

  lemma {:induction false} ValuesMembers(j: Json, lines: seq<seq<Byte>>)
    ensures (exists v <- Values(j, lines) :: v.NoObject?) <==> exists line <- lines :: Loads(j, line).NoObject?
    ensures (forall v <- Values(j, lines) :: !v.NoObject?) ==> |RowsOf(Values(j, lines))| == |Values(j, lines)|
  {
    hide Loads;
    if lines != [] {
      var front, last := lines[..|lines| - 1], lines[|lines| - 1];
      ValuesMembers(j, front);
      assert lines == front + [last];
      assert forall line :: line in front + [last] <==> line in front || line == last;
      var values, v := Values(j, front), Loads(j, last);
      assert forall u :: u in values + [v] <==> u in values || u == v;
      assert (values + [v])[..|values|] == values && values + [] == values;
    }
  }

  // ---------------------------------------------------------------- the file as a whole and by increments

  /** Without returns inside lines the whole-file parser loads the newline-separated pieces, the last one too. */
  lemma WholeIsPieces(j: Json, content: seq<Byte>)
    requires NoReturnInside(Pieces(content))
    ensures Values(j, TextLines(content)) == Values(j, Pieces(content))
    ensures Values(j, Pieces(content)) == Values(j, Lines(content)) +
            (if Loads(j, Tail(content)).NoJson? then [] else [Loads(j, Tail(content))])
  {
    hide Solid, LoadedFrom, TextLines, AllParts, NoReturnInside, Loads;
    TextIsParts(content);
    SplitSolid(TextLines(content));
    SplitSolid(AllParts(Pieces(content)));
    SolidAllParts(Pieces(content));
    ValuesOfSolid(j, TextLines(content));
    ValuesOfSolid(j, Pieces(content));
  }

  /** What a caller can check: the file decodes, its lines hold no other values, and nothing after the last newline. */
  predicate IsFinished(j: Json, content: seq<Byte>) {
    && j.decodes(content) && (forall line <- Lines(content) :: !Loads(j, line).NoObject?)
    && Loads(j, Tail(content)).NoJson?
  }

  /** One pass agrees with the parser of its own rows. */
  lemma OnePassRun(rows: seq<Row>)
    ensures SameRun(OnRows(NO_DATA, rows), if rows == [] then Nothing else Rows(rows))
    ensures OnRows(NO_DATA, rows).rows == |rows|
  {
    hide OnRows, RunRows, TurnEnded, ToolPositions, ItemsAt, Positions, Last;
    RowsAgree(rows);
    LastItems(OnRows(NO_DATA, rows).items);
  }

  lemma LastItems(items: seq<Item>)
    ensures var last := Last<nat>(Positions(|items|));
            (forall k :: 0 <= k < |last| ==> last[k] < |items|) && ItemsAt(items, last) == Last(items)
  {
  }

  /**
   * Whatever the refreshes, the incremental state and the whole-file parser give the same run exactly when the file
   * decodes, holds no JSON value that is no object, and has no row after its last newline.
   */
  lemma SameAsWholeFile(j: Json, sights: seq<Sight>)
    requires Plausible(Skipping(j), sights) && NoReturnInside(Pieces(Seen(sights)))
    ensures SameRun(Refreshes(Skipping(j), sights).data, WholeFile(j, Seen(sights))) <==> IsFinished(j, Seen(sights))
  {
    hide Plausible, Refreshes, Seen, SameRun, OnRows, TextLines, Loads, NoReturnInside, Pieces;
    var content := Seen(sights);
    IncrementalIsOnePass(Skipping(j), sights);
    ParsedIsRows(j, Lines(content));
    WholeIsPieces(j, content);
    SameAsContent(j, content, Values(j, Lines(content)));
  }

  lemma SameRunCounts(d: Data, whole: Whole)
    requires SameRun(d, whole)
    ensures whole != Raised && (whole.Rows? ==> d.rows == |whole.rows|) && (whole.Nothing? ==> d.rows == 0)
  {
  }

  lemma SameAsContent(j: Json, content: seq<Byte>, ended: seq<Loaded>)
    requires ended == Values(j, Lines(content))
    requires Values(j, TextLines(content)) ==
             ended + (if Loads(j, Tail(content)).NoJson? then [] else [Loads(j, Tail(content))])
    ensures SameRun(OnRows(NO_DATA, RowsOf(ended)), WholeFile(j, content)) <==> IsFinished(j, content)
  {
    hide OnRows, TextLines, Loads, Lines, SameRun, Values;
    ValuesMembers(j, Lines(content));
    OnePassRun(RowsOf(ended));
    var d, whole := OnRows(NO_DATA, RowsOf(ended)), WholeFile(j, content);
    if SameRun(d, whole) {
      SameRunCounts(d, whole);
    }
    var tail := Loads(j, Tail(content));
    if tail.NoJson? {
      assert ended + [] == ended;
    } else {
      assert (ended + [tail])[..|ended|] == ended;
      assert tail in ended + [tail];
      assert forall v <- ended :: v in ended + [tail];
    }
  }

  lemma {:induction false} OnePiece(c: seq<Byte>)
    requires NEWLINE !in c
    ensures Pieces(c) == [c] && Ended(c) == 0
  {
    if c != [] {
      OnePiece(c[..|c| - 1]);
      assert c == c[..|c| - 1] + [c[|c| - 1]];
    }
  }

  /** A row without its newline yet is in the run of the whole file, and not in the incremental state. */
  lemma UnfinishedRowIsMissed(j: Json, c: seq<Byte>, ino: nat, mtime: int)
    requires NEWLINE !in c && !Interior(c) && j.decodes(c) && Loads(j, c).Object?
    ensures var sights := [Present(ino, |c|, mtime, c)];
            && Plausible(Skipping(j), sights) && Refreshes(Skipping(j), sights).data == NO_DATA
            && WholeFile(j, c) == Rows([Loads(j, c).row])
            && !SameRun(Refreshes(Skipping(j), sights).data, WholeFile(j, c))
  {
    hide Loads, TextLines, Values, Pieces;
    OneLook(Skipping(j), c, ino, mtime);
    OnePiece(c);
    WholeIsPieces(j, c);
    OneValue(j, c);
  }

  lemma OneLook(parse: Parser, c: seq<Byte>, ino: nat, mtime: int)
    requires NEWLINE !in c
    ensures var sights := [Present(ino, |c|, mtime, c)];
            Plausible(parse, sights) && Refreshes(parse, sights).data == NO_DATA
  {
    var o := Present(ino, |c|, mtime, c);
    assert [o][..0] == [];
    OnePiece(c);
    hide Pieces, Ended, Parsed;
    assert Refreshes(parse, []) == FRESH && Plausible(parse, []);
    assert Rest(c, 0) == c && Lines(c) == [];
    NothingParsed(parse);
  }

  lemma NothingParsed(parse: Parser)
    ensures Parsed(parse, []) == [] && OnRows(NO_DATA, []) == NO_DATA
  {
  }

  lemma OneValue(j: Json, c: seq<Byte>)
    requires Loads(j, c).Object?
    ensures Values(j, [c]) == [Loads(j, c)] && RowsOf([Loads(j, c)]) == [Loads(j, c).row] && Values(j, []) == []
  {
    hide Loads;
    assert [c][..0] == [] && [Loads(j, c)][..0] == [];
  }

  // ---------------------------------------------------------------- returns inside lines

  /** Whoever reads this file, it decodes and holds no other values, by newlines and by text lines. */
  predicate Clean(j: Json, content: seq<Byte>) {
    && j.decodes(content) && (forall v <- Values(j, TextLines(content)) :: !v.NoObject?)
    && (forall line <- Lines(content) :: !Loads(j, line).NoObject?)
  }

  /** Every value is a row. */
  function Counting(): Json {
    Json(text => true, line => Object(Row(OTHER, "", NoContent)))
  }

  lemma {:induction false} CountingCounts(solid: seq<seq<Byte>>)
    ensures |LoadedFrom(Counting(), solid)| == |solid|
    ensures forall v <- LoadedFrom(Counting(), solid) :: v.Object?
  {
    if solid != [] {
      CountingCounts(solid[..|solid| - 1]);
    }
  }

  /** A blank tail and no return inside a line: what makes the two agree whatever the values mean. */
  predicate Settled(content: seq<Byte>) {
    Strip(Tail(content)) == [] && NoReturnInside(Pieces(content))
  }

  /**
   * The two give the same run for every meaning of the values of the lines if and only if no line has a return between
   * things that are not blank, and nothing but blanks follows the last newline.
   */
  lemma SameForAllIff(sights: seq<Sight>, parse: Parser)
    requires Plausible(parse, sights)
    ensures (forall j: Json :: Clean(j, Seen(sights)) ==>
               SameRun(Refreshes(Skipping(j), sights).data, WholeFile(j, Seen(sights))))
       <==> Settled(Seen(sights))
  {
    hide Plausible, Refreshes, Seen, SameRun, WholeFile, Clean, Skipping, Settled;
    var content := Seen(sights);
    if Settled(content) {
      forall j: Json | Clean(j, content) ensures SameRun(Refreshes(Skipping(j), sights).data, WholeFile(j, content)) {
        E.PlausibleForAll(parse, Skipping(j), sights);
        SettledAgrees(j, sights);
      }
    } else {
      E.PlausibleForAll(parse, Skipping(Counting()), sights);
      UnsettledDiffers(sights);
    }
  }

  lemma SettledAgrees(j: Json, sights: seq<Sight>)
    requires Plausible(Skipping(j), sights) && Settled(Seen(sights)) && Clean(j, Seen(sights))
    ensures SameRun(Refreshes(Skipping(j), sights).data, WholeFile(j, Seen(sights)))
  {
    hide Plausible, Refreshes, Seen, SameRun, WholeFile, NoReturnInside, TextLines;
    SameAsWholeFile(j, sights);
  }

  lemma UnsettledDiffers(sights: seq<Sight>)
    requires Plausible(Skipping(Counting()), sights) && !Settled(Seen(sights))
    ensures var j := Counting();
            Clean(j, Seen(sights)) && !SameRun(Refreshes(Skipping(j), sights).data, WholeFile(j, Seen(sights)))
  {
    hide Plausible, Refreshes, Seen, OnRows, TextLines, Strip, Parsed, NoReturnInside, AllParts, Values, Solid;
    var j, content := Counting(), Seen(sights);
    IncrementalIsOnePass(Skipping(j), sights);
    ParsedIsRows(j, Lines(content));
    ValuesOfSolid(j, TextLines(content));
    ValuesOfSolid(j, Lines(content));
    CountingCounts(Solid(TextLines(content)));
    CountingCounts(Solid(Lines(content)));
    MoreLines(content);
    ValuesMembers(j, Lines(content));
    ValuesMembers(j, TextLines(content));
    OnePassRun(RowsOf(Values(j, Lines(content))));
    hide SameRun, Counting, Skipping, Lines;
    var d, whole := Refreshes(Skipping(j), sights).data, WholeFile(j, content);
    if SameRun(d, whole) {
      SameRunCounts(d, whole);
    }
  }

  /** A return inside a line, or something after the last newline, makes for more lines. */
  lemma MoreLines(content: seq<Byte>)
    requires !Settled(content)
    ensures |Solid(TextLines(content))| > |Solid(Lines(content))|
  {
    hide Solid, TextLines, AllParts, Strip, NoReturnInside;
    TextIsParts(content);
    SplitSolid(TextLines(content));
    SplitSolid(AllParts(Pieces(content)));
    SolidAllParts(Pieces(content));
    SplitSolid(Pieces(content));
    SolidOne(Tail(content));
  }
}
