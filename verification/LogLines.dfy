/**
 * `publisher.py`, `reattach`: the lines and keys of an append-only log, and the re-attachment of the lines that only
 * its copies hold. The JSON reader is a parameter: `idOf(line)` is the event's id, when the line is an object with one.
 */
module LogLines {
  import opened Prelude
  import opened Blanks

  type Ids = string -> Option<string>

  /** `key`: the event's id; the exact text for a line without one. */
  datatype Key = Id(id: string) | Text(line: string)

  // ---------------------------------------------------------------- lines

  predicate Unbroken(line: string) {
    forall i :: 0 <= i < |line| ==> !IsBreak(line[i])
  }

  function Extend(pieces: seq<string>, c: char): (longer: seq<string>)
    requires |pieces| > 0
    ensures |longer| > 0
  {
    if IsBreak(c) then pieces + [""] else pieces[..|pieces| - 1] + [pieces[|pieces| - 1] + [c]]
  }

  /** The pieces between breaks; the last one is what follows the last break. */
  function Split(text: string): (pieces: seq<string>)
    ensures |pieces| > 0
  {
    if text == "" then [""]
    else Extend(Split(text[..|text| - 1]), text[|text| - 1])
  }

  function NonBlank(pieces: seq<string>): seq<string> {
    if pieces == [] then []
    else NonBlank(pieces[..|pieces| - 1]) + (if Blank(pieces[|pieces| - 1]) then [] else [pieces[|pieces| - 1]])
  }

  /** The lines the log consists of: `splitlines` without the blank ones. */
  function Lines(text: string): seq<string> {
    NonBlank(Split(text))
  }

  /** Nothing is waiting for its line break. */
  predicate Terminated(text: string) {
    text == "" || IsBreak(text[|text| - 1])
  }

  /** Pieces of two texts put together: the last of one and the first of the other become one. */
  function Glue(x: seq<string>, y: seq<string>): (pieces: seq<string>)
    requires |x| > 0 && |y| > 0
    ensures |pieces| > 0
  {
    x[..|x| - 1] + [x[|x| - 1] + y[0]] + y[1..]
  }

  lemma GlueExtend(x: seq<string>, y: seq<string>, c: char)
    requires |x| > 0 && |y| > 0
    ensures Extend(Glue(x, y), c) == Glue(x, Extend(y, c))
  {
    hide IsBreak;
    var front, joined := x[..|x| - 1], x[|x| - 1] + y[0];
    if IsBreak(c) {
      assert (y + [""])[1..] == y[1..] + [""];
      assert Glue(x, y) + [""] == front + [joined] + (y[1..] + [""]);
    } else if |y| == 1 {
      assert Glue(x, y) == front + [joined];
      assert Extend(y, c) == [y[0] + [c]];
      assert joined + [c] == x[|x| - 1] + (y[0] + [c]);
    } else {
      GlueExtendLast(front + [joined], y, c);
    }
  }

  lemma GlueExtendLast(front: seq<string>, y: seq<string>, c: char)
    requires |y| > 1 && !IsBreak(c)
    ensures Extend(front + y[1..], c) == front + Extend(y, c)[1..]
    ensures Extend(y, c)[0] == y[0]
  {
    hide IsBreak;
    var whole, last := front + y[1..], y[|y| - 1];
    assert whole[..|whole| - 1] == front + y[1..|y| - 1];
    assert whole[|whole| - 1] == last;
    assert Extend(y, c)[1..] == y[1..|y| - 1] + [last + [c]];
  }

  lemma {:induction false} SplitConcat(a: string, b: string)
    ensures Split(a + b) == Glue(Split(a), Split(b))
    decreases |b|
  {
    hide Extend;
    if b == "" {
      assert a + b == a;
      assert Split(a)[|Split(a)| - 1] + "" == Split(a)[|Split(a)| - 1];
    } else {
      hide Glue;
      var front, c := b[..|b| - 1], b[|b| - 1];
      SplitConcat(a, front);
      assert (a + b)[..|a + b| - 1] == a + front;
      GlueExtend(Split(a), Split(front), c);
    }
  }

  lemma {:induction false} NonBlankConcat(a: seq<string>, b: seq<string>)
    ensures NonBlank(a + b) == NonBlank(a) + NonBlank(b)
    decreases |b|
  {
    hide Blank;
    if b == [] {
      assert a + b == a;
    } else {
      NonBlankConcat(a, b[..|b| - 1]);
      assert (a + b)[..|a + b| - 1] == a + b[..|b| - 1];
    }
  }

  lemma TerminatedMeansEmptyLast(text: string)
    ensures Terminated(text) <==> Split(text)[|Split(text)| - 1] == ""
  {
    hide IsBreak;
  }

  lemma LinesOfConcat(a: string, b: string)
    ensures var x, y := Split(a), Split(b);
            && Lines(a) == NonBlank(x[..|x| - 1]) + NonBlank([x[|x| - 1]])
            && Lines(b) == NonBlank([y[0]]) + NonBlank(y[1..])
            && Lines(a + b) == NonBlank(x[..|x| - 1]) + NonBlank([x[|x| - 1] + y[0]]) + NonBlank(y[1..])
  {
    hide Split, NonBlank;
    var x, y := Split(a), Split(b);
    SplitConcat(a, b);
    NonBlankConcat(x[..|x| - 1], [x[|x| - 1]]);
    assert x == x[..|x| - 1] + [x[|x| - 1]];
    NonBlankConcat([y[0]], y[1..]);
    assert y == [y[0]] + y[1..];
    NonBlankConcat(x[..|x| - 1] + [x[|x| - 1] + y[0]], y[1..]);
    NonBlankConcat(x[..|x| - 1], [x[|x| - 1] + y[0]]);
  }

  lemma NonBlankOne(line: string)
    ensures NonBlank([line]) == if Blank(line) then [] else [line]
  {
    assert NonBlank([]) == [];
    assert [line][..0] == [];
  }

  /** Appending to a log whose last line is ended adds exactly the lines of what is appended. */
  lemma LinesAppend(a: string, b: string)
    requires Terminated(a)
    ensures Lines(a + b) == Lines(a) + Lines(b)
  {
    hide Split, NonBlank, Lines, Terminated;
    TerminatedMeansEmptyLast(a);
    LinesOfConcat(a, b);
    NonBlankOne("");
    assert "" + Split(b)[0] == Split(b)[0];
  }

  /** And only then: after an unfinished line, the first appended line is glued to it. */
  lemma AppendNeedsLineEnd(a: string, b: string)
    requires !Blank(Split(b)[0])
    ensures Lines(a + b) == Lines(a) + Lines(b) <==> Terminated(a)
  {
    hide Split, NonBlank, Lines, Terminated;
    if Terminated(a) {
      LinesAppend(a, b);
    } else {
      TerminatedMeansEmptyLast(a);
      LinesOfConcat(a, b);
      var last, first := Split(a)[|Split(a)| - 1], Split(b)[0];
      NonBlankOne(last);
      NonBlankOne(first);
      NonBlankOne(last + first);
      GluedIsNotBlank(last, first);
      var front, rest := NonBlank(Split(a)[..|Split(a)| - 1]), NonBlank(Split(b)[1..]);
      assert Lines(a + b)[|front|] == last + first;
      if Blank(last) {
        assert (Lines(a) + Lines(b))[|front|] == first;
        assert |last + first| > |first|;
      } else {
        assert |Lines(a + b)| == |front| + 1 + |rest|;
        assert |Lines(a) + Lines(b)| == |front| + 2 + |rest|;
      }
    }
  }

  lemma GluedIsNotBlank(a: string, b: string)
    requires !Blank(b)
    ensures !Blank(a + b)
  {
    var i :| 0 <= i < |b| && !IsSpace(b[i]);
    assert (a + b)[|a| + i] == b[i];
  }

  lemma {:induction false} SplitUnbroken(line: string)
    ensures Split(line) == [line] <==> Unbroken(line)
    ensures Unbroken(line) || |Split(line)| > 1
  {
    hide IsBreak;
    if line != "" {
      var front := line[..|line| - 1];
      SplitUnbroken(front);
      assert line == front + [line[|line| - 1]];
      if Unbroken(front) && !IsBreak(line[|line| - 1]) {
        assert Unbroken(line);
      }
      if Unbroken(line) {
        assert forall i :: 0 <= i < |front| ==> front[i] == line[i];
      }
    }
  }

  lemma LinesOfEnded(line: string)
    ensures Lines(line + "\n") == Lines(line) && Terminated(line + "\n")
  {
    hide NonBlank, Blank, IsSpace;
    var whole := line + "\n";
    assert whole[..|whole| - 1] == line && IsBreak('\n');
    assert Split(whole) == Split(line) + [""];
    NonBlankConcat(Split(line), [""]);
    EmptyIsBlank();
  }

  lemma EmptyIsBlank()
    ensures NonBlank([""]) == []
  {
    NonBlankOne("");
  }

  /** An event written as one line is one line of the log exactly when it holds no other break and is not blank. */
  lemma EventIsOneLine(line: string)
    ensures Lines(line + "\n") == [line] <==> Unbroken(line) && !Blank(line)
  {
    hide NonBlank, Split, Unbroken, Blank;
    LinesOfEnded(line);
    SplitUnbroken(line);
    if Lines(line) == [line] {
      assert line in Lines(line);
      NonBlankMembers(Split(line), line);
      PiecesAreUnbroken(line);
    }
    NonBlankOne(line);
  }

  lemma {:induction false} NonBlankMembers(pieces: seq<string>, line: string)
    ensures line in NonBlank(pieces) <==> line in pieces && !Blank(line)
  {
    hide Blank;
    if pieces != [] {
      NonBlankMembers(pieces[..|pieces| - 1], line);
      assert pieces == pieces[..|pieces| - 1] + [pieces[|pieces| - 1]];
    }
  }

  lemma {:induction false} PiecesAreUnbroken(text: string)
    ensures forall i :: 0 <= i < |Split(text)| ==> Unbroken(Split(text)[i])
  {
    hide IsBreak;
    if text != "" {
      PiecesAreUnbroken(text[..|text| - 1]);
    }
  }

  // ---------------------------------------------------------------- keys

  function KeyOf(idOf: Ids, line: string): Key {
    match idOf(line)
    case Some(id) => Id(id)
    case None => Text(line)
  }

  function KeySet(idOf: Ids, lines: seq<string>): set<Key> {
    set line | line in lines :: KeyOf(idOf, line)
  }

  function Keys(idOf: Ids, text: string): set<Key> {
    KeySet(idOf, Lines(text))
  }

  lemma KeySetConcat(idOf: Ids, a: seq<string>, b: seq<string>)
    ensures KeySet(idOf, a + b) == KeySet(idOf, a) + KeySet(idOf, b)
  {
    hide KeyOf;
  }

  /** Text added here starts a new line, or there is none. */
  predicate StartsLine(a: string, b: string) {
    Terminated(a) || b == ""
  }

  lemma KeysAppend(idOf: Ids, a: string, b: string)
    requires StartsLine(a, b)
    ensures Keys(idOf, a + b) == Keys(idOf, a) + Keys(idOf, b)
  {
    hide Lines, Terminated, KeySet;
    if b == "" {
      assert a + b == a;
      LinesOfEmpty();
    } else {
      LinesAppend(a, b);
    }
    KeySetConcat(idOf, Lines(a), Lines(b));
    assert Lines(a) + [] == Lines(a);
  }

  // ---------------------------------------------------------------- re-attachment

  /** The lines of the copies, in the order in which they are read. */
  function AllLines(copies: seq<string>): seq<string> {
    if copies == [] then [] else AllLines(copies[..|copies| - 1]) + Lines(copies[|copies| - 1])
  }

  /** Lines whose key has not been seen, each key once, in order of first appearance. */
  function Missing(idOf: Ids, have: set<Key>, lines: seq<string>): seq<string> {
    if lines == [] then []
    else
      var front, last := Missing(idOf, have, lines[..|lines| - 1]), lines[|lines| - 1];
      if KeyOf(idOf, last) in have + KeySet(idOf, front) then front else front + [last]
  }

  /** `"\n".join(lines) + "\n"`. */
  function Join(lines: seq<string>): string {
    if lines == [] then "" else Join(lines[..|lines| - 1]) + lines[|lines| - 1] + "\n"
  }

  /** What `reattach` appends when it has read `cur` as the live log. */
  function Addition(idOf: Ids, cur: string, copies: seq<string>): string {
    var add := Missing(idOf, Keys(idOf, cur), AllLines(copies));
    if add == [] then "" else (if NeedsBreak(cur) then "\n" else "") + Join(add)
  }

  /** `cur and not cur.endswith("\n")`, of a text read with returns as newlines. */
  predicate NeedsBreak(cur: string) {
    cur != "" && cur[|cur| - 1] != '\n' && cur[|cur| - 1] != '\r'
  }

  /** A log that is not to be given a line break ends its last line. */
  lemma EndedOrBroken(cur: string)
    ensures Terminated(cur) || NeedsBreak(cur)
  {
  }

  lemma {:induction false} MissingCovers(idOf: Ids, have: set<Key>, lines: seq<string>)
    ensures have + KeySet(idOf, Missing(idOf, have, lines)) == have + KeySet(idOf, lines)
    ensures have !! KeySet(idOf, Missing(idOf, have, lines))
    ensures forall line :: line in Missing(idOf, have, lines) ==> line in lines
  {
    hide KeyOf;
    if lines != [] {
      var front, last := lines[..|lines| - 1], lines[|lines| - 1];
      MissingCovers(idOf, have, front);
      assert lines == front + [last];
      KeySetConcat(idOf, front, [last]);
      KeySetConcat(idOf, Missing(idOf, have, front), [last]);
      assert KeySet(idOf, [last]) == {KeyOf(idOf, last)};
    }
  }

  predicate DistinctKeys(idOf: Ids, lines: seq<string>) {
    forall i, j :: 0 <= i < j < |lines| ==> KeyOf(idOf, lines[i]) != KeyOf(idOf, lines[j])
  }

  /** Each key is added once. */
  lemma {:induction false} MissingIsDistinct(idOf: Ids, have: set<Key>, lines: seq<string>)
    ensures DistinctKeys(idOf, Missing(idOf, have, lines))
  {
    if lines != [] {
      var front, last := Missing(idOf, have, lines[..|lines| - 1]), lines[|lines| - 1];
      MissingIsDistinct(idOf, have, lines[..|lines| - 1]);
      if KeyOf(idOf, last) !in have + KeySet(idOf, front) {
        DistinctSnoc(idOf, front, last);
      }
    }
  }

  lemma DistinctSnoc(idOf: Ids, front: seq<string>, last: string)
    requires DistinctKeys(idOf, front) && KeyOf(idOf, last) !in KeySet(idOf, front)
    ensures DistinctKeys(idOf, front + [last])
  {
    hide KeyOf;
    assert forall i :: 0 <= i < |front| ==> front[i] in front && KeyOf(idOf, front[i]) in KeySet(idOf, front);
  }

  lemma {:induction false} NothingMissing(idOf: Ids, have: set<Key>, lines: seq<string>)
    requires KeySet(idOf, lines) <= have
    ensures Missing(idOf, have, lines) == []
  {
    hide KeyOf;
    if lines != [] {
      var front, last := lines[..|lines| - 1], lines[|lines| - 1];
      assert lines == front + [last];
      KeySetConcat(idOf, front, [last]);
      assert KeyOf(idOf, last) in KeySet(idOf, [last]);
      NothingMissing(idOf, have, front);
    }
  }

  predicate Proper(lines: seq<string>) {
    forall i :: 0 <= i < |lines| ==> Unbroken(lines[i]) && !Blank(lines[i])
  }

  lemma {:induction false} AllLinesProper(copies: seq<string>)
    ensures Proper(AllLines(copies))
  {
    hide Lines;
    if copies != [] {
      AllLinesProper(copies[..|copies| - 1]);
      LinesProper(copies[|copies| - 1]);
    }
  }

  lemma LinesProper(text: string)
    ensures Proper(Lines(text))
  {
    hide NonBlank, Split, Unbroken, Blank;
    PiecesAreUnbroken(text);
    forall i | 0 <= i < |Lines(text)| ensures Unbroken(Lines(text)[i]) && !Blank(Lines(text)[i]) {
      NonBlankMembers(Split(text), Lines(text)[i]);
    }
  }

  lemma {:induction false} LinesOfJoin(lines: seq<string>)
    requires Proper(lines)
    ensures Lines(Join(lines)) == lines && Terminated(Join(lines))
  {
    hide Lines, Blank, Unbroken;
    if lines == [] {
      assert Lines("") == [] by { LinesOfEmpty(); }
    } else {
      var front, last := lines[..|lines| - 1], lines[|lines| - 1];
      LinesOfJoin(front);
      assert Join(lines) == Join(front) + (last + "\n");
      LinesAppend(Join(front), last + "\n");
      EventIsOneLine(last);
      assert lines == front + [last];
    }
  }

  lemma LinesOfEmpty()
    ensures Lines("") == []
  {
    assert Split("") == [""];
    NonBlankOne("");
  }

  /**
   * What re-attachment appends, whoever wrote to the live log since it was read: when the last line of the log is
   * ended, or the one that was read needed a break, the log holds its own lines and, once each, the missing ones.
   */
  lemma AdditionLines(idOf: Ids, cur: string, copies: seq<string>, live: string)
    requires Terminated(live) || NeedsBreak(cur)
    ensures Lines(live + Addition(idOf, cur, copies)) ==
            Lines(live) + Missing(idOf, Keys(idOf, cur), AllLines(copies))
    ensures Terminated(live) ==> Terminated(live + Addition(idOf, cur, copies))
  {
    hide Lines, Missing, Keys, AllLines, Proper;
    var add := Missing(idOf, Keys(idOf, cur), AllLines(copies));
    if add == [] {
      assert live + "" == live;
    } else {
      AllLinesProper(copies);
      MissingCovers(idOf, Keys(idOf, cur), AllLines(copies));
      assert Proper(add) by { SubProper(AllLines(copies), add); }
      LinesOfJoin(add);
      var addition := Addition(idOf, cur, copies);
      if !NeedsBreak(cur) {
        assert addition == Join(add);
        LinesAppend(live, Join(add));
      } else {
        LinesOfEnded(live);
        LinesAppend(live + "\n", Join(add));
        assert live + addition == (live + "\n") + Join(add);
      }
      JoinEnds(add);
    }
  }

  /** What is joined begins with its first line. */
  lemma {:induction false} FirstOfJoin(add: seq<string>)
    requires add != [] && Proper(add)
    ensures |Split(Join(add))| > 1 && Split(Join(add))[0] == add[0] && !Blank(add[0])
    decreases |add|
  {
    hide Split, Blank;
    var front, last := add[..|add| - 1], add[|add| - 1];
    SplitUnbroken(last);
    SplitBreak(last);
    if front == [] {
      assert Join(front) == "" && "" + last + "\n" == last + "\n";
    } else {
      FirstOfJoin(front);
      assert Join(add) == Join(front) + (last + "\n");
      SplitConcat(Join(front), last + "\n");
    }
  }

  lemma SplitBreak(line: string)
    ensures Split(line + "\n") == Split(line) + [""]
  {
    assert (line + "\n")[..|line|] == line;
  }

  /** Only then: without either, the first missing line is glued to what is unfinished. */
  lemma AdditionLinesIff(idOf: Ids, cur: string, copies: seq<string>, live: string)
    ensures Lines(live + Addition(idOf, cur, copies)) == Lines(live) + Missing(idOf, Keys(idOf, cur), AllLines(copies))
       <==> Addition(idOf, cur, copies) == "" || Terminated(live) || NeedsBreak(cur)
  {
    hide Lines, Missing, Keys, AllLines, Proper, Terminated, Blank, Split;
    var add := Missing(idOf, Keys(idOf, cur), AllLines(copies));
    if Terminated(live) || NeedsBreak(cur) {
      AdditionLines(idOf, cur, copies, live);
    } else if add == [] {
      assert live + "" == live;
    } else {
      JoinEnds(add);
      AllLinesProper(copies);
      MissingCovers(idOf, Keys(idOf, cur), AllLines(copies));
      assert Proper(add) by { SubProper(AllLines(copies), add); }
      LinesOfJoin(add);
      FirstOfJoin(add);
      assert "" + Join(add) == Join(add);
      AppendNeedsLineEnd(live, Join(add));
    }
  }

  lemma SubProper(lines: seq<string>, some: seq<string>)
    requires Proper(lines) && forall line :: line in some ==> line in lines
    ensures Proper(some)
  {
    hide Blank, Unbroken;
    forall i | 0 <= i < |some| ensures Unbroken(some[i]) && !Blank(some[i]) {
      assert some[i] in lines;
      var j :| 0 <= j < |lines| && lines[j] == some[i];
    }
  }

  lemma JoinEnds(add: seq<string>)
    requires add != []
    ensures Join(add) != "" && Join(add)[|Join(add)| - 1] == '\n'
  {
  }

  function AllKeys(idOf: Ids, copies: seq<string>): set<Key> {
    KeySet(idOf, AllLines(copies))
  }

  /**
   * `reattach` with nobody else writing: it only appends; the log's lines are its old ones followed by lines with new,
   * pairwise different keys; it then has every key of the copies, and running it again changes nothing.
   */
  lemma ReattachIsAppendOnlyMerge(idOf: Ids, live: string, copies: seq<string>)
    ensures var after := live + Addition(idOf, live, copies);
            var add := Missing(idOf, Keys(idOf, live), AllLines(copies));
            && Lines(after) == Lines(live) + add
            && Keys(idOf, after) == Keys(idOf, live) + AllKeys(idOf, copies)
            && Keys(idOf, live) !! KeySet(idOf, add)
            && DistinctKeys(idOf, add)
            && after + Addition(idOf, after, copies) == after
  {
    hide Lines, Missing, AllLines, KeyOf, KeySet;
    var lines := AllLines(copies);
    EndedOrBroken(live);
    AdditionLines(idOf, live, copies, live);
    MissingCovers(idOf, Keys(idOf, live), lines);
    MissingIsDistinct(idOf, Keys(idOf, live), lines);
    KeySetConcat(idOf, Lines(live), Missing(idOf, Keys(idOf, live), lines));
    NothingMissing(idOf, Keys(idOf, live + Addition(idOf, live, copies)), lines);
  }

  // ---------------------------------------------------------------- events by their ids

  /** One event: the same id; for a line without one, the same text. */
  predicate SameEvent(idOf: Ids, a: string, b: string) {
    match idOf(a)
    case Some(id) => idOf(b) == Some(id)
    case None => a == b
  }

  predicate Has(idOf: Ids, lines: seq<string>, line: string) {
    exists l <- lines :: SameEvent(idOf, line, l)
  }

  lemma HasIsKey(idOf: Ids, lines: seq<string>, line: string)
    ensures KeyOf(idOf, line) in KeySet(idOf, lines) <==> Has(idOf, lines, line)
  {
    if Has(idOf, lines, line) {
      var l :| l in lines && SameEvent(idOf, line, l);
      assert KeyOf(idOf, l) == KeyOf(idOf, line);
    }
  }

  lemma HasTransitive(idOf: Ids, a: string, b: string, c: string)
    ensures SameEvent(idOf, a, b) == SameEvent(idOf, b, a)
    ensures SameEvent(idOf, a, b) && SameEvent(idOf, b, c) ==> SameEvent(idOf, a, c)
  {
  }

  /** A line is added exactly at the first appearance of an event that the log does not have. */
  lemma AddedAtFirst(idOf: Ids, have: seq<string>, lines: seq<string>, k: nat)
    requires k < |lines|
    ensures Missing(idOf, KeySet(idOf, have), lines[..k + 1]) ==
            Missing(idOf, KeySet(idOf, have), lines[..k]) +
            (if Has(idOf, have, lines[k]) || Has(idOf, lines[..k], lines[k]) then [] else [lines[k]])
  {
    hide KeySet, Has;
    assert lines[..k + 1][..k] == lines[..k];
    var front := Missing(idOf, KeySet(idOf, have), lines[..k]);
    MissingCovers(idOf, KeySet(idOf, have), lines[..k]);
    HasIsKey(idOf, have, lines[k]);
    HasIsKey(idOf, lines[..k], lines[k]);
    assert front + [] == front;
  }

  /** Nothing is added that is there already, nothing twice, and in the end every event is there. */
  lemma AddedAreNew(idOf: Ids, have: seq<string>, lines: seq<string>)
    ensures var add := Missing(idOf, KeySet(idOf, have), lines);
            && (forall line <- add :: line in lines && !Has(idOf, have, line))
            && (forall i, j :: 0 <= i < j < |add| ==> !SameEvent(idOf, add[i], add[j]))
            && forall line <- lines :: Has(idOf, have + add, line)
  {
    hide KeySet, Has, Missing;
    var add := Missing(idOf, KeySet(idOf, have), lines);
    MissingCovers(idOf, KeySet(idOf, have), lines);
    MissingIsDistinct(idOf, KeySet(idOf, have), lines);
    KeySetConcat(idOf, have, add);
    forall line | line in add ensures !Has(idOf, have, line) {
      HasIsKey(idOf, have, line);
      KeyIsIn(idOf, add, line);
    }
    forall line | line in lines ensures Has(idOf, have + add, line) {
      HasIsKey(idOf, have + add, line);
      KeyIsIn(idOf, lines, line);
    }
  }

  lemma KeyIsIn(idOf: Ids, lines: seq<string>, line: string)
    requires line in lines
    ensures KeyOf(idOf, line) in KeySet(idOf, lines)
  {
  }

  /**
   * What is appended is nothing, or the missing lines, each with its line end, after a line break of their own exactly
   * when the log that was read ends in a line that is not finished by a newline or a return: no blank line is written.
   */
  lemma AdditionMeaning(idOf: Ids, cur: string, copies: seq<string>)
    ensures var add, text := Missing(idOf, Keys(idOf, cur), AllLines(copies)), Addition(idOf, cur, copies);
            && (text == "" <==> add == [])
            && (text != "" ==> (text[0] == '\n' <==> cur != "" && cur[|cur| - 1] !in {'\n', '\r'}))
            && (text != "" ==> Lines(text) == add && text[|text| - 1] == '\n')
  {
    hide Lines, Missing, Keys, AllLines, Proper;
    var add := Missing(idOf, Keys(idOf, cur), AllLines(copies));
    if add != [] {
      AllLinesProper(copies);
      MissingCovers(idOf, Keys(idOf, cur), AllLines(copies));
      assert Proper(add) by { SubProper(AllLines(copies), add); }
      LinesOfJoin(add);
      JoinEnds(add);
      JoinHead(add);
      OneBreak();
      LinesAppend("\n", Join(add));
      if NeedsBreak(cur) {
        assert Lines("\n") + Lines(Join(add)) == add;
      } else {
        assert "" + Join(add) == Join(add);
      }
    }
  }

  lemma OneBreak()
    ensures Lines("\n") == []
  {
    assert "\n"[..0] == "";
    assert Split("\n") == ["", ""] && ["", ""][..1] == [""] && [""][..0] == [];
    assert NonBlank([""]) == [];
  }

  lemma {:induction false} JoinHead(add: seq<string>)
    requires add != [] && Proper(add)
    ensures Join(add) != "" && Join(add)[0] != '\n' && Join(add)[|Join(add)| - 1] == '\n'
  {
    var front, last := add[..|add| - 1], add[|add| - 1];
    assert Unbroken(last) && !Blank(last) && IsBreak('\n');
    assert Join(add) == Join(front) + last + "\n";
    if front == [] {
      assert Join(add)[0] == last[0] && !IsBreak(last[0]);
    } else {
      JoinHead(front);
      assert Join(add)[0] == Join(front)[0];
    }
  }
}
