/** `transcripts.py`, `refresh`: exactly which changes of the file between two looks it takes in correctly. */
module TranscriptExactness {
  import opened Prelude
  import opened Transcripts

  // ---------------------------------------------------------------- a parser that tells all lines apart

  function Spelled(raw: seq<Byte>): string {
    seq(|raw|, i requires 0 <= i < |raw| => raw[i] as char)
  }

  /** Every line becomes a message that carries the line. */
  function Telling(raw: seq<Byte>): Option<Row> {
    Some(Row(ASSISTANT, Spelled(raw), Blocks([TextBlock("x")])))
  }

  function SaidOf(lines: seq<seq<Byte>>): seq<Item> {
    seq(|lines|, i requires 0 <= i < |lines| => Said(Spelled(lines[i]), "x"))
  }

  lemma {:induction false} TellingItems(lines: seq<seq<Byte>>)
    ensures OnRows(NO_DATA, Parsed(Telling, lines)).items == SaidOf(lines)
  {
    hide Spelled, OnRow;
    if lines != [] {
      var front, last := lines[..|lines| - 1], lines[|lines| - 1];
      TellingItems(front);
      var rows, row := Parsed(Telling, front), Telling(last).value;
      assert (rows + [row])[..|rows|] == rows;
      OneText(OnRows(NO_DATA, rows), row);
    }
  }

  lemma OneText(d: Data, row: Row)
    requires row.speaker == ASSISTANT && row.content == Blocks([TextBlock("x")])
    ensures OnRow(d, row).items == d.items + [Said(row.ts, "x")]
  {
    hide Bounded;
    var blocks := [TextBlock("x")];
    assert blocks[..0] == [];
    assert OnBlocks(OnHead(d, row), row, []) == OnHead(d, row);
  }

  lemma SpelledApart(a: seq<Byte>, b: seq<Byte>)
    requires Spelled(a) == Spelled(b)
    ensures a == b
  {
    forall i | 0 <= i < |a| ensures a[i] == b[i] {
      assert Spelled(a)[i] == Spelled(b)[i];
    }
  }

  lemma SaidApart(a: seq<seq<Byte>>, b: seq<seq<Byte>>)
    requires SaidOf(a) == SaidOf(b)
    ensures a == b
  {
    hide Spelled;
    forall i | 0 <= i < |a| ensures a[i] == b[i] {
      assert SaidOf(a)[i] == SaidOf(b)[i];
      SpelledApart(a[i], b[i]);
    }
  }

  /** What this parser accumulates determines the lines. */
  lemma TellingTells(a: seq<seq<Byte>>, b: seq<seq<Byte>>)
    requires OnRows(NO_DATA, Parsed(Telling, a)) == OnRows(NO_DATA, Parsed(Telling, b))
    ensures a == b
  {
    hide OnRows, Parsed, SaidOf, Telling;
    TellingItems(a);
    TellingItems(b);
    SaidApart(a, b);
  }

  // ---------------------------------------------------------------- lines and consumed bytes

  /** The bytes of ended lines. */
  function Joined(lines: seq<seq<Byte>>): seq<Byte> {
    if lines == [] then [] else Joined(lines[..|lines| - 1]) + lines[|lines| - 1] + [NEWLINE]
  }

  lemma {:induction false} JoinedConcat(a: seq<seq<Byte>>, b: seq<seq<Byte>>)
    ensures Joined(a + b) == Joined(a) + Joined(b)
    decreases |b|
  {
    if b == [] {
      assert a + b == a;
    } else {
      JoinedConcat(a, b[..|b| - 1]);
      assert (a + b)[..|a + b| - 1] == a + b[..|b| - 1];
    }
  }

  /** The lines and the unfinished tail make up the text. */
  lemma {:induction false} PiecesJoin(text: seq<Byte>)
    ensures Joined(Lines(text)) + Pieces(text)[|Pieces(text)| - 1] == text
  {
    if text != [] {
      var front, c := text[..|text| - 1], text[|text| - 1];
      var pieces := Pieces(front);
      var lines, tail := pieces[..|pieces| - 1], pieces[|pieces| - 1];
      PiecesJoin(front);
      assert Joined(lines) + tail + [c] == text;
      if c == NEWLINE {
        assert Lines(text) == lines + [tail];
        JoinedSnoc(lines, tail);
      } else {
        assert Lines(text) == lines;
      }
    }
  }

  lemma JoinedSnoc(lines: seq<seq<Byte>>, line: seq<Byte>)
    ensures Joined(lines + [line]) == Joined(lines) + line + [NEWLINE]
  {
    assert (lines + [line])[..|lines|] == lines;
  }

  lemma {:induction false} TailSize(text: seq<Byte>)
    ensures Ended(text) + |Pieces(text)[|Pieces(text)| - 1]| == |text|
  {
    if text != [] {
      TailSize(text[..|text| - 1]);
    }
  }

  lemma ConsumedIsJoined(text: seq<Byte>)
    ensures Consumed(text) == Joined(Lines(text))
  {
    hide Joined, Lines, Ended, Pieces;
    PiecesJoin(text);
    TailSize(text);
    var lines, tail := Joined(Lines(text)), Pieces(text)[|Pieces(text)| - 1];
    assert (lines + tail)[..|lines|] == lines;
  }

  /** The lines of a text that begins with those of another begin with its bytes. */
  lemma LinesBegin(a: seq<Byte>, more: seq<seq<Byte>>, b: seq<Byte>)
    requires Lines(a) + more == Lines(b)
    ensures Consumed(a) <= Consumed(b) <= b
  {
    hide Joined, Lines, Ended;
    ConsumedIsJoined(a);
    ConsumedIsJoined(b);
    JoinedConcat(Lines(a), more);
  }

  // ---------------------------------------------------------------- one look

  /** The state after one pass over `seen`, with what `stat` said then. */
  function At(parse: Parser, seen: seq<Byte>, ino: Option<nat>, size: int, mtime: int): State {
    State(Ended(seen), ino, size, mtime, OnePass(parse, seen))
  }

  /**
   * A refresh leaves one pass over the file as it is, whatever its lines mean, if and only if the file follows what was
   * seen: the same complete lines when it is not read, and the consumed bytes still in place when it is read on.
   */
  lemma RefreshIsOnePassIff(seen: seq<Byte>, ino: Option<nat>, size: int, mtime: int, o: Sight)
    requires o.Present? && (ino.None? ==> seen == [] && size == -1)
    ensures (forall parse: Parser ::
       Refresh(parse, At(parse, seen, ino, size, mtime), o).data == OnePass(parse, o.content))
       <==> Follows(At(Telling, seen, ino, size, mtime), seen, o)
  {
    hide OnePass, Ended, OnRows, Parsed, Lines, Telling;
    if Follows(At(Telling, seen, ino, size, mtime), seen, o) {
      forall parse: Parser
        ensures Refresh(parse, At(parse, seen, ino, size, mtime), o).data == OnePass(parse, o.content)
      {
        RefreshKeeps(parse, At(parse, seen, ino, size, mtime), seen, o);
      }
    } else {
      NotFollowing(seen, ino, size, mtime, o);
      var parse := Telling;
      assert Refresh(parse, At(parse, seen, ino, size, mtime), o).data != OnePass(parse, o.content);
    }
  }

  lemma NotFollowing(seen: seq<Byte>, ino: Option<nat>, size: int, mtime: int, o: Sight)
    requires o.Present? && !Follows(At(Telling, seen, ino, size, mtime), seen, o)
    ensures Refresh(Telling, At(Telling, seen, ino, size, mtime), o).data != OnePass(Telling, o.content)
  {
    hide Ended, OnRows, Parsed, Lines, Telling;
    var s := At(Telling, seen, ino, size, mtime);
    var more := if Unchanged(s, o) then [] else Lines(Rest(o.content, s.offset));
    ParsedConcat(Telling, Lines(seen), more);
    OnRowsConcat(NO_DATA, Parsed(Telling, Lines(seen)), Parsed(Telling, more));
    assert Parsed(Telling, []) == [] by { NothingParsed(); }
    assert Lines(seen) + [] == Lines(seen);
    assert Refresh(Telling, s, o).data == OnRows(NO_DATA, Parsed(Telling, Lines(seen) + more));
    if Refresh(Telling, s, o).data == OnePass(Telling, o.content) {
      TellingTells(Lines(seen) + more, Lines(o.content));
      LinesBegin(seen, more, o.content);
      ConsumedIsJoined(seen);
      ConsumedIsJoined(o.content);
    }
  }

  lemma NothingParsed()
    ensures Parsed(Telling, []) == [] && OnRows(NO_DATA, []) == NO_DATA
  {
  }

  /** A file rewritten in place, not below the offset, is not read again: what is kept is not what it now holds. */
  lemma RewriteInPlaceIsMissed(seen: seq<Byte>, ino: nat, size: int, mtime: int, o: Sight)
    requires o.Present? && o.ino == ino && o.size == |o.content| == Ended(seen) && !(Consumed(seen) <= o.content)
    ensures forall parse: Parser ::
              Refresh(parse, At(parse, seen, Some(ino), size, mtime), o).data == OnePass(parse, seen)
    ensures exists parse: Parser ::
              Refresh(parse, At(parse, seen, Some(ino), size, mtime), o).data != OnePass(parse, o.content)
  {
    hide OnePass, Ended, OnRows, Parsed, Lines;
    forall parse: Parser
      ensures Refresh(parse, At(parse, seen, Some(ino), size, mtime), o).data == OnePass(parse, seen)
    {
      NothingRead(parse, OnePass(parse, seen));
      assert Rest(o.content, Ended(seen)) == [];
    }
    RefreshIsOnePassIff(seen, Some(ino), size, mtime, o);
    LongerIsNoPrefix(seen, o.content);
  }

  lemma NothingRead(parse: Parser, d: Data)
    ensures OnRows(d, Parsed(parse, Lines([]))) == d
  {
    EndedPieces([]);
    assert Lines([]) == [];
  }

  lemma LongerIsNoPrefix(seen: seq<Byte>, content: seq<Byte>)
    requires |content| == Ended(seen) && !(Consumed(seen) <= content)
    ensures Consumed(content) != Consumed(seen)
  {
    hide Ended;
  }

  // ---------------------------------------------------------------- every run of looks

  /** What `stat` left and the offset do not depend on what the lines mean. */
  lemma {:induction false} SameMarks(p: Parser, q: Parser, sights: seq<Sight>)
    ensures var a, b := Refreshes(p, sights), Refreshes(q, sights);
            a.offset == b.offset && a.ino == b.ino && a.size == b.size && a.mtime == b.mtime
  {
    hide Lines, Parsed, OnRows, Ended;
    if sights != [] {
      SameMarks(p, q, sights[..|sights| - 1]);
    }
  }

  lemma {:induction false} PlausibleForAll(p: Parser, q: Parser, sights: seq<Sight>)
    requires Plausible(p, sights)
    ensures Plausible(q, sights)
  {
    hide Refreshes, Consumed, Seen;
    if sights != [] {
      PlausibleForAll(p, q, sights[..|sights| - 1]);
      SameMarks(p, q, sights[..|sights| - 1]);
    }
  }

  /** Whatever the lines mean, every refresh of the run leaves one pass over the content last read. */
  ghost predicate AlwaysOnePass(sights: seq<Sight>) {
    forall parse: Parser, n :: 0 <= n <= |sights| ==>
      Refreshes(parse, sights[..n]).data == OnePass(parse, Seen(sights[..n]))
  }

  /** The incremental state is always that of one pass if and only if the file always follows what was seen of it. */
  lemma {:induction false} OnePassIff(parse: Parser, sights: seq<Sight>)
    ensures AlwaysOnePass(sights) <==> Plausible(parse, sights)
  {
    hide Refreshes, OnePass, Seen, Follows, Plausible;
    if Plausible(parse, sights) {
      forall p: Parser, n | 0 <= n <= |sights| ensures Refreshes(p, sights[..n]).data == OnePass(p, Seen(sights[..n])) {
        PlausiblePrefix(parse, sights, n);
        PlausibleForAll(parse, p, sights[..n]);
        IncrementalIsOnePass(p, sights[..n]);
      }
    }
    if AlwaysOnePass(sights) {
      FollowsAlways(parse, sights, |sights|);
      assert sights[..|sights|] == sights;
    }
  }

  lemma {:induction false} PlausiblePrefix(parse: Parser, sights: seq<Sight>, n: nat)
    requires Plausible(parse, sights) && n <= |sights|
    ensures Plausible(parse, sights[..n])
    decreases |sights|
  {
    hide Refreshes, Follows, Seen;
    if n < |sights| {
      PlausiblePrefix(parse, sights[..|sights| - 1], n);
      assert sights[..|sights| - 1][..n] == sights[..n];
    } else {
      assert sights[..n] == sights;
    }
  }

  lemma {:induction false} FollowsAlways(parse: Parser, sights: seq<Sight>, n: nat)
    requires AlwaysOnePass(sights) && n <= |sights|
    ensures Plausible(parse, sights[..n])
  {
    hide Refreshes, OnePass, Seen, Follows;
    if n > 0 {
      FollowsAlways(parse, sights, n - 1);
      var front, o := sights[..n - 1], sights[n - 1];
      assert sights[..n][..n - 1] == front && sights[..n][n - 1] == o;
      FollowsNext(parse, sights, n);
    }
  }

  lemma FollowsNext(parse: Parser, sights: seq<Sight>, n: nat)
    requires AlwaysOnePass(sights) && 0 < n <= |sights| && Plausible(parse, sights[..n - 1])
    ensures Follows(Refreshes(parse, sights[..n - 1]), Seen(sights[..n - 1]), sights[n - 1])
  {
    hide Refresh, OnePass, Plausible, Ended, Refreshes, Seen;
    var front, o := sights[..n - 1], sights[n - 1];
    var s, seen := Refreshes(parse, front), Seen(front);
    if o.Present? {
      forall p: Parser ensures Refresh(p, At(p, seen, s.ino, s.size, s.mtime), o).data == OnePass(p, o.content) {
        PlausibleForAll(parse, p, front);
        IncrementalIsOnePass(p, front);
        IncrementalIsOnePass(parse, front);
        SameMarks(parse, p, front);
        assert Refreshes(p, front) == At(p, seen, s.ino, s.size, s.mtime);
        LastLook(p, sights, n);
      }
      IncrementalIsOnePass(parse, front);
      RefreshIsOnePassIff(seen, s.ino, s.size, s.mtime, o);
    }
  }

  lemma LastLook(p: Parser, sights: seq<Sight>, n: nat)
    requires 0 < n <= |sights| && sights[n - 1].Present?
    ensures Refreshes(p, sights[..n]) == Refresh(p, Refreshes(p, sights[..n - 1]), sights[n - 1])
    ensures Seen(sights[..n]) == sights[n - 1].content
  {
    hide Refresh;
    assert sights[..n][..n - 1] == sights[..n - 1] && sights[..n][n - 1] == sights[n - 1];
  }

  // ---------------------------------------------------------------- what one look reads

  lemma {:induction false} LastNewline(text: seq<Byte>)
    ensures Ended(text) > 0 ==> text[Ended(text) - 1] == 10
    ensures forall k :: Ended(text) <= k < |text| ==> text[k] != 10
  {
    if text != [] && text[|text| - 1] != NEWLINE {
      LastNewline(text[..|text| - 1]);
    }
  }

  /**
   * One look. A missing file, or one of the same size and modification time, is not read. Another is read from the
   * offset, or from the start with nothing kept when it is another inode or has shrunk below the offset; what is taken
   * in is the lines up to the last newline, where the new offset is, and the marks are those of this look.
   */
  lemma RefreshMeaning(parse: Parser, s: State, o: Sight)
    ensures var u := Refresh(parse, s, o);
            if o.Missing? || (o.size == s.size && o.mtime == s.mtime) then u == s
            else
              var whole := s.ino != Some(o.ino) || o.size < s.offset;
              var from := if whole then 0 else s.offset;
              && u.ino == Some(o.ino) && u.size == o.size && u.mtime == o.mtime
              && from <= u.offset && (u.offset > from ==> u.offset <= |o.content| && o.content[u.offset - 1] == 10)
              && (forall k :: u.offset <= k < |o.content| ==> o.content[k] != 10)
              && u.data == OnRows(if whole then NO_DATA else s.data,
                                  Parsed(parse, Lines(if u.offset > from then o.content[from..u.offset] else [])))
  {
    hide Ended, Lines, Parsed, OnRows, Pieces;
    if o.Present? && !(o.size == s.size && o.mtime == s.mtime) {
      var whole := s.ino != Some(o.ino) || o.size < s.offset;
      var from := if whole then 0 else s.offset;
      var chunk := Rest(o.content, from);
      LastNewline(chunk);
      LinesOfEnded(chunk);
      if Ended(chunk) > 0 {
        assert o.content[from..from + Ended(chunk)] == chunk[..Ended(chunk)];
        assert o.content[from + Ended(chunk) - 1] == chunk[Ended(chunk) - 1];
      } else {
        assert chunk[..Ended(chunk)] == [];
      }
      forall k | from + Ended(chunk) <= k < |o.content| ensures o.content[k] != 10 {
        assert o.content[k] == chunk[k - from];
      }
    }
  }
}
