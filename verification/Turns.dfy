/**
 * `conversa.py`, class `Turn` and `split_action`, and `server.py`, `_chat_stream`: the deltas of a turn, the final
 * text, and what a client that connects at any moment puts together.
 */
module Turns {
  import opened Prelude
  import opened Blanks
  import opened Streaming

  // ---------------------------------------------------------------- the final text

  predicate FenceAt(text: string, i: nat) {
    i + 3 <= |text| && text[i..i + 3] == "```"
  }

  /** Position after the next fence, or the end of the text. */
  function AfterFence(text: string, i: nat): (end: nat)
    requires i <= |text|
    ensures i <= end <= |text|
    decreases |text| - i
  {
    if i == |text| then |text| else if FenceAt(text, i) then i + 3 else AfterFence(text, i + 1)
  }

  function MarkEnd(text: string, i: nat): (end: nat)
    requires MarkAt(text, i)
    ensures i < end <= |text|
  {
    MarkShape(text, i);
    if MARK <= text[i..] then i + |MARK| else i + |MARK_DELEGAR|
  }

  /** `pat.sub("", text)`: every action block removed, closed or not. */
  function WithoutBlocks(text: string): string
    decreases |text|
  {
    match FirstMark(text, 0)
    case None => text
    case Some(i) => text[..i] + WithoutBlocks(text[AfterFence(text, MarkEnd(text, i))..])
  }

  /** `split_action`: the text of the finished reply. */
  function FinalText(raw: string): string {
    Strip(WithoutBlocks(raw))
  }

  /** What was shown while streaming, blanks at its ends aside, begins the final text. */
  lemma ShownBeginsFinal(raw: string)
    ensures Display(raw) <= WithoutBlocks(raw) && Strip(Display(raw)) <= FinalText(raw)
  {
    hide Strip, EndsInPrefix, MarkAt;
    var whole, shown := WithoutBlocks(raw), Display(raw);
    assert shown <= whole;
    assert whole == shown + whole[|shown|..];
    StripConcat(shown, whole[|shown|..]);
  }

  // ---------------------------------------------------------------- the turn

  /** The recorded message of a finished turn, as far as clients see it. */
  datatype Message = Message(text: string, failed: bool)

  datatype Event = Phase(phase: string, tool: Option<string>) | Delta(text: string) | Ending(message: Message)

  datatype State = State(
    events: seq<Event>, phase: string, tool: Option<string>, sent: string, final: Option<Message>)

  const BEGUN := State([], "iniciando", None, "", None)

  function SetPhase(t: State, phase: string, tool: Option<string>): State {
    if phase == t.phase && tool == t.tool then t
    else t.(phase := phase, tool := tool, events := t.events + [Phase(phase, tool)])
  }

  /** `push_text`. */
  function Push(t: State, display: string): State {
    if !(t.sent <= display) || |display| == |t.sent| then t
    else
      var delta := display[|t.sent|..];
      if t.sent == "" && Blank(delta) then t
      else
        var now := t.(sent := display);
        var answering := if now.phase != "respondendo" then SetPhase(now, "respondendo", None) else now;
        answering.(events := answering.events + [Delta(delta)])
  }

  /** `finish`; `done` is that there is a final message. */
  function Finish(t: State, message: Message): State {
    t.(events := t.events + [Ending(message)], final := Some(message))
  }

  /** The deltas, put together. */
  function Shown(events: seq<Event>): string {
    if events == [] then ""
    else
      Shown(events[..|events| - 1]) + (if events[|events| - 1].Delta? then events[|events| - 1].text else "")
  }

  lemma ShownSnoc(events: seq<Event>, e: Event)
    ensures Shown(events + [e]) == Shown(events) + (if e.Delta? then e.text else "")
  {
    assert (events + [e])[..|events|] == events;
  }

  /**
   * The runner's output grows, and some of it is pushed; phases come and go. A turn ends with its whole reply, or, when
   * the server stops or an error is thrown, with what has been sent; pieces may still be pushed after that.
   */
  datatype Action =
    | Receive(more: string, push: bool)
    | Change(phase: string, tool: Option<string>)
    | Replies(failed: bool)
    | Breaks(failed: bool)

  /** A turn with the raw reply so far, and as much of it as was last pushed. */
  datatype Live = Live(turn: State, raw: string, pushed: string)

  function Next(l: Live, a: Action): Live {
    match a
    case Receive(more, push) =>
      var raw := l.raw + more;
      if push then Live(Push(l.turn, Display(raw)), raw, raw) else l.(raw := raw)
    case Change(phase, tool) => l.(turn := SetPhase(l.turn, phase, tool))
    case Replies(failed) => l.(turn := Finish(l.turn, Message(FinalText(l.raw), failed)))
    case Breaks(failed) => l.(turn := Finish(l.turn, Message(Strip(l.turn.sent), failed)))
  }

  function Run(actions: seq<Action>): Live {
    if actions == [] then Live(BEGUN, "", "") else Next(Run(actions[..|actions| - 1]), actions[|actions| - 1])
  }

  /** The deltas make up what was sent, and that is what may be shown, unless only blanks have come. */
  ghost predicate Ok(l: Live) {
    && Shown(l.turn.events) == l.turn.sent && l.pushed <= l.raw
    && (l.turn.sent == Display(l.pushed) || (l.turn.sent == "" && Blank(Display(l.pushed))))
  }

  lemma PushOk(l: Live, raw: string)
    requires Ok(l) && l.raw <= raw
    ensures Ok(Live(Push(l.turn, Display(raw)), raw, raw))
    ensures l.turn.events <= Push(l.turn, Display(raw)).events
  {
    hide Display, Shown, Blank;
    var t, display := l.turn, Display(raw);
    assert Display(l.pushed) <= display by {
      assert raw == l.pushed + raw[|l.pushed|..];
      DisplayGrows(l.pushed, raw[|l.pushed|..]);
    }
    var after := Push(t, display);
    if after != t {
      var delta := display[|t.sent|..];
      ShownSnoc(t.events, Phase("respondendo", None));
      ShownSnoc(t.events + [Phase("respondendo", None)], Delta(delta));
      ShownSnoc(t.events, Delta(delta));
      assert t.sent + delta == display;
      assert t.sent + "" == t.sent;
    } else if t.sent == "" && t.sent != display {
      assert display[0..] == display;
    }
  }

  lemma NextOk(l: Live, a: Action)
    requires Ok(l)
    ensures Ok(Next(l, a)) && l.turn.events <= Next(l, a).turn.events && l.raw <= Next(l, a).raw
  {
    hide Display, Shown, Blank, Push;
    match a
    case Receive(more, push) =>
      if push {
        PushOk(l, l.raw + more);
      }
    case Change(phase, tool) => ShownSnoc(l.turn.events, Phase(phase, tool));
    case Replies(failed) => ShownSnoc(l.turn.events, Ending(Message(FinalText(l.raw), failed)));
    case Breaks(failed) => ShownSnoc(l.turn.events, Ending(Message(Strip(l.turn.sent), failed)));
  }

  /**
   * In every turn the deltas concatenate to `sent`, which is the shown part of the reply as last pushed, unless that
   * part is still only blanks and nothing has been sent.
   */
  lemma {:induction false} DeltasMakeUpSent(actions: seq<Action>)
    ensures var l := Run(actions);
            && Shown(l.turn.events) == l.turn.sent && l.pushed <= l.raw
            && (l.turn.sent == Display(l.pushed) || (l.turn.sent == "" && Blank(Display(l.pushed))))
  {
    hide Next, Display, Blank;
    if actions == [] {
      assert Ok(Run([])) by { BegunOk(); }
    } else {
      DeltasMakeUpSent(actions[..|actions| - 1]);
      NextOk(Run(actions[..|actions| - 1]), actions[|actions| - 1]);
    }
  }

  lemma BegunOk()
    ensures Ok(Live(BEGUN, "", ""))
  {
    DisplayMeaning("");
  }

  // ---------------------------------------------------------------- what a client holds

  /** The text a client has put together, and the final message once it has come. */
  datatype Held = Held(text: string, final: Option<Message>)

  /** What a client makes of the events it is sent: deltas are appended, and nothing is sent after the end. */
  function Follow(text: string, events: seq<Event>): Held {
    if events == [] then Held(text, None)
    else
      var before := Follow(text, events[..|events| - 1]);
      if before.final.Some? then before
      else
        match events[|events| - 1]
        case Phase(_, _) => before
        case Delta(delta) => before.(text := before.text + delta)
        case Ending(message) => before.(final := Some(message))
  }

  /** `_chat_stream`: a finished turn is answered by its final message alone, another by its text and what follows. */
  function Stream(snapshot: State, events: seq<Event>): Held {
    if snapshot.final.Some? then Held("", snapshot.final) else Follow(snapshot.sent, events)
  }

  lemma FollowSnoc(text: string, events: seq<Event>, e: Event)
    ensures Follow(text, events + [e]) ==
            if Follow(text, events).final.Some? || e.Phase? then Follow(text, events)
            else if e.Delta? then Held(Follow(text, events).text + e.text, None)
            else Held(Follow(text, events).text, Some(e.message))
  {
    assert (events + [e])[..|events|] == events;
  }

  predicate Ends(a: Action) {
    a.Replies? || a.Breaks?
  }

  /** What an end records is what was sent, or goes on from it, blanks at its ends aside. */
  lemma EndKeepsSent(l: Live, a: Action)
    requires Ok(l) && Ends(a)
    ensures Strip(l.turn.sent) <= Next(l, a).turn.final.value.text
  {
    hide Strip, Blank, Display, WithoutBlocks, Shown;
    if a.Replies? {
      ShownBeginsFinal(l.raw);
      DisplayGrows(l.pushed, l.raw[|l.pushed|..]);
      assert l.raw == l.pushed + l.raw[|l.pushed|..];
      var whole := WithoutBlocks(l.raw);
      if l.turn.sent == "" {
        NothingToStrip(whole);
      } else {
        assert whole == l.turn.sent + whole[|l.turn.sent|..];
        StripConcat(l.turn.sent, whole[|l.turn.sent|..]);
      }
    }
  }

  lemma NothingToStrip(whole: string)
    ensures Strip("") <= Strip(whole)
  {
    assert whole == "" + whole;
    StripConcat("", whole);
  }

  lemma {:induction false} FollowConcat(text: string, a: seq<Event>, b: seq<Event>)
    ensures var before := Follow(text, a);
            Follow(text, a + b) == if before.final.Some? then before else Follow(before.text, b)
    decreases |b|
  {
    if b == [] {
      assert a + b == a;
    } else {
      var front, last := b[..|b| - 1], b[|b| - 1];
      FollowConcat(text, a, front);
      assert a + b == (a + front) + [last] && b == front + [last];
      FollowSnoc(text, a + front, last);
      FollowSnoc(Follow(text, a).text, front, last);
    }
  }

  lemma OneEvent(text: string, e: Event)
    ensures Follow(text, [e]) ==
            if e.Phase? then Held(text, None)
            else if e.Delta? then Held(text + e.text, None) else Held(text, Some(e.message))
  {
    assert [e] == [] + [e];
    FollowSnoc(text, [], e);
  }

  lemma PhaseFollow(t: State, phase: string, tool: Option<string>)
    ensures var after := SetPhase(t, phase, tool);
            && t.events <= after.events && after.sent == t.sent && after.final == t.final
            && Follow(t.sent, after.events[|t.events|..]) == Held(t.sent, None)
  {
    hide Follow;
    Followed(t.sent);
    OneEvent(t.sent, Phase(phase, tool));
    var after := SetPhase(t, phase, tool);
    assert after.events[|t.events|..] == [] || after.events[|t.events|..] == [Phase(phase, tool)];
  }

  lemma PushFollow(t: State, display: string)
    ensures var after := Push(t, display);
            && t.events <= after.events && after.final == t.final
            && Follow(t.sent, after.events[|t.events|..]) == Held(after.sent, None)
  {
    hide Follow, Blank;
    var after := Push(t, display);
    if after == t {
      Followed(t.sent);
      assert after.events[|t.events|..] == [];
    } else {
      var delta := display[|t.sent|..];
      var answering := if t.phase != "respondendo" then SetPhase(t, "respondendo", None) else t;
      Followed(t.sent);
      assert t.events[|t.events|..] == [];
      PhaseFollow(t, "respondendo", None);
      assert after.events == answering.events + [Delta(delta)];
      assert after.events[|t.events|..] == answering.events[|t.events|..] + [Delta(delta)];
      FollowSnoc(t.sent, answering.events[|t.events|..], Delta(delta));
      assert t.sent + delta == display;
    }
  }

  lemma EndFollow(t: State, message: Message)
    ensures var after := Finish(t, message);
            t.events <= after.events && Follow(t.sent, after.events[|t.events|..]) == Held(t.sent, after.final)
  {
    hide Follow;
    OneEvent(t.sent, Ending(message));
    assert Finish(t, message).events[|t.events|..] == [Ending(message)];
  }

  /** The events of one action bring a client that holds what was sent up to date, or to its end. */
  lemma StepFollow(l: Live, a: Action)
    ensures var after := Next(l, a).turn;
            && l.turn.events <= after.events
            && Follow(l.turn.sent, after.events[|l.turn.events|..]) ==
               if Ends(a) then Held(l.turn.sent, after.final) else Held(after.sent, None)
    ensures !Ends(a) ==> Next(l, a).turn.final == l.turn.final
  {
    hide Display, Strip, WithoutBlocks, Push, SetPhase, Finish, Follow;
    match a
    case Receive(more, push) =>
      if push {
        PushFollow(l.turn, Display(l.raw + more));
      } else {
        Followed(l.turn.sent);
        assert l.turn.events[|l.turn.events|..] == [];
      }
    case Change(phase, tool) => PhaseFollow(l.turn, phase, tool);
    case Replies(failed) => EndFollow(l.turn, Message(FinalText(l.raw), failed));
    case Breaks(failed) => EndFollow(l.turn, Message(Strip(l.turn.sent), failed));
  }

  lemma Followed(text: string)
    ensures Follow(text, []) == Held(text, None)
  {
  }

  /** The first end of a turn. */
  predicate FirstEnd(actions: seq<Action>, k: nat) {
    k < |actions| && Ends(actions[k]) && Run(actions[..k]).turn.final.None?
  }

  lemma EndsWithMore(actions: seq<Action>, k: nat)
    requires k < |actions| && Ends(actions[k])
    ensures Run(actions[..k + 1]).turn.final.Some?
    ensures Strip(Run(actions[..k]).turn.sent) <= Run(actions[..k + 1]).turn.final.value.text
  {
    hide Display, Blank, Strip, WithoutBlocks;
    assert actions[..k + 1][..k] == actions[..k];
    DeltasMakeUpSent(actions[..k]);
    EndKeepsSent(Run(actions[..k]), actions[k]);
  }

  /** What was sent until the end at `k`, with the message of that end. */
  predicate EndedAt(actions: seq<Action>, k: nat, held: Held) {
    && FirstEnd(actions, k)
    && held == Held(Run(actions[..k]).turn.sent, Run(actions[..k + 1]).turn.final)
  }

  /** A client connected before the end holds what was sent, or what was sent until the end with its message. */
  ghost predicate UpToDate(actions: seq<Action>, n: nat, held: Held) {
    var now := Run(actions).turn;
    if now.final.None? then held == Held(now.sent, None)
    else
      exists k: nat :: n <= k && EndedAt(actions, k, held)
  }

  lemma {:induction false} FollowsRun(actions: seq<Action>, n: nat)
    requires n <= |actions| && Run(actions[..n]).turn.final.None?
    ensures var snapshot, now := Run(actions[..n]).turn, Run(actions).turn;
            snapshot.events <= now.events
            && UpToDate(actions, n, Follow(snapshot.sent, now.events[|snapshot.events|..]))
    decreases |actions|
  {
    hide Next, Display, Blank, Follow, Shown;
    var snapshot := Run(actions[..n]).turn;
    Followed(snapshot.sent);
    if n == |actions| {
      assert actions[..n] == actions;
      assert snapshot.events[|snapshot.events|..] == [];
    } else {
      var front, a := actions[..|actions| - 1], actions[|actions| - 1];
      assert front[..n] == actions[..n];
      FollowsRun(front, n);
      var l := Run(front);
      StepFollow(l, a);
      HeldSoFar(front, n, Follow(snapshot.sent, l.turn.events[|snapshot.events|..]));
      var before, after := l.turn.events, Run(actions).turn.events;
      assert after[|snapshot.events|..] == before[|snapshot.events|..] + after[|before|..];
      FollowConcat(snapshot.sent, before[|snapshot.events|..], after[|before|..]);
      KeepsUp(actions, n, Follow(snapshot.sent, before[|snapshot.events|..]),
              Follow(snapshot.sent, after[|snapshot.events|..]));
    }
  }

  lemma HeldSoFar(actions: seq<Action>, n: nat, held: Held)
    requires UpToDate(actions, n, held)
    ensures held.final.Some? <==> Run(actions).turn.final.Some?
    ensures held.final.None? ==> held == Held(Run(actions).turn.sent, None)
  {
    hide Run;
    if Run(actions).turn.final.Some? {
      var k: nat :| n <= k && EndedAt(actions, k, held);
      EndsWithMore(actions, k);
    }
  }

  /** One more action. */
  lemma KeepsUp(actions: seq<Action>, n: nat, before: Held, held: Held)
    requires n < |actions| && UpToDate(actions[..|actions| - 1], n, before)
    requires var l, a := Run(actions[..|actions| - 1]), actions[|actions| - 1];
             && (!Ends(a) ==> Next(l, a).turn.final == l.turn.final)
             && held == if before.final.Some? then before
                        else if Ends(a) then Held(before.text, Next(l, a).turn.final)
                        else Held(Next(l, a).turn.sent, None)
    ensures UpToDate(actions, n, held)
  {
    var m := |actions| - 1;
    var front, a := actions[..m], actions[m];
    assert actions[..m + 1] == actions && Run(actions) == Next(Run(front), a);
    EndHasMessage(Run(front), a);
    hide Run, Next, Ends;
    if Run(front).turn.final.Some? {
      HeldSoFar(front, n, before);
      StaysEnded(actions, n, before);
    } else if Ends(a) {
      HeldSoFar(front, n, before);
      assert EndedAt(actions, m, held);
    }
  }

  lemma EndHasMessage(l: Live, a: Action)
    ensures Ends(a) ==> Next(l, a).turn.final.Some?
  {
    hide Display, Strip, WithoutBlocks;
  }

  /** A client that has come to the end holds the same from then on. */
  lemma StaysEnded(actions: seq<Action>, n: nat, held: Held)
    requires n < |actions| && UpToDate(actions[..|actions| - 1], n, held)
    requires Run(actions[..|actions| - 1]).turn.final.Some? && Run(actions).turn.final.Some?
    ensures UpToDate(actions, n, held)
  {
    hide Run, EndedAt;
    var front := actions[..|actions| - 1];
    var k: nat :| n <= k && EndedAt(front, k, held);
    EndedMore(front, actions, k, held);
  }

  lemma EndedMore(front: seq<Action>, actions: seq<Action>, k: nat, held: Held)
    requires front <= actions && EndedAt(front, k, held)
    ensures EndedAt(actions, k, held)
  {
    hide Run, Ends;
    assert front[..k] == actions[..k];
    assert front[..k + 1] == actions[..k + 1];
  }

  /** The end that made the final message. */
  lemma {:induction false} FinalFrom(actions: seq<Action>) returns (k: nat)
    requires Run(actions).turn.final.Some?
    ensures k < |actions| && Ends(actions[k])
    ensures Run(actions[..k + 1]).turn.final == Run(actions).turn.final
    ensures Strip(Run(actions[..k]).turn.sent) <= Run(actions).turn.final.value.text
  {
    hide Display, Blank, Strip, WithoutBlocks;
    var m := |actions| - 1;
    var front := actions[..m];
    if Ends(actions[m]) {
      k := m;
      assert actions[..k + 1] == actions;
      DeltasMakeUpSent(front);
      EndKeepsSent(Run(front), actions[m]);
    } else {
      k := FinalFrom(front);
      assert front[..k] == actions[..k] && front[..k + 1] == actions[..k + 1];
    }
  }

  /**
   * A client that takes its snapshot before the turn is done and follows the events after it holds exactly what has
   * been sent; once the turn is done, what had been sent until then and the final message, which goes on from it.
   */
  lemma ReconnectRebuilds(actions: seq<Action>, n: nat)
    requires n <= |actions| && Run(actions[..n]).turn.final.None?
    ensures var snapshot, now := Run(actions[..n]).turn, Run(actions).turn;
            && snapshot.events <= now.events
            && var held := Stream(snapshot, now.events[|snapshot.events|..]);
               && (now.final.None? ==> held == Held(now.sent, None))
               && (now.final.Some? ==>
                    && held.final.Some? && Strip(held.text) <= held.final.value.text
                    && exists k: nat :: n <= k && EndedAt(actions, k, held))
  {
    hide Run, Follow, Strip;
    FollowsRun(actions, n);
    var snapshot, now := Run(actions[..n]).turn, Run(actions).turn;
    var held := Stream(snapshot, now.events[|snapshot.events|..]);
    if now.final.Some? {
      var k: nat :| n <= k && EndedAt(actions, k, held);
      EndsWithMore(actions, k);
    }
  }

  /**
   * A client that connects once the turn is done holds no text of its own, only the final message, which goes on from
   * all that had been sent before the end that made it.
   */
  lemma LateClientHoldsFinal(actions: seq<Action>, events: seq<Event>) returns (k: nat)
    requires Run(actions).turn.final.Some?
    ensures Stream(Run(actions).turn, events) == Held("", Run(actions).turn.final)
    ensures k < |actions| && Ends(actions[k]) && Run(actions[..k + 1]).turn.final == Run(actions).turn.final
    ensures Strip(Run(actions[..k]).turn.sent) <= Run(actions).turn.final.value.text
  {
    hide Run, Strip;
    k := FinalFrom(actions);
  }

  // ---------------------------------------------------------------- imperative forms

  /** `Turn`: its fields change together under one lock. */
  class Turn {
    var events: seq<Event>
    var phase: string
    var tool: Option<string>
    var sent: string
    var done: bool
    var final: Option<Message>

    constructor ()
      ensures Valid() && Now() == BEGUN
    {
      events, phase, tool, sent, done, final := [], "iniciando", None, "", false, None;
    }

    predicate Valid()
      reads this
    {
      done <==> final.Some?
    }

    function Now(): State
      reads this
    {
      State(events, phase, tool, sent, final)
    }

    method Emit(e: Event)
      modifies this`events
      ensures events == old(events) + [e]
    {
      events := events + [e];
    }

    method ChangePhase(phase: string, tool: Option<string>)
      modifies this`phase, this`tool, this`events
      ensures Now() == SetPhase(old(Now()), phase, tool)
    {
      if phase == this.phase && tool == this.tool {
        return;
      }
      this.phase, this.tool := phase, tool;
      Emit(Phase(phase, tool));
    }

    method PushText(display: string)
      modifies this`phase, this`tool, this`events, this`sent
      ensures Now() == Push(old(Now()), display)
    {
      hide Blank;
      if !(sent <= display) || |display| == |sent| {
        return;
      }
      var delta := display[|sent|..];
      if Blank(delta) && sent == "" {
        return;
      }
      sent := display;
      if phase != "respondendo" {
        ChangePhase("respondendo", None);
      }
      Emit(Delta(delta));
    }

    method FinishTurn(message: Message)
      modifies this
      ensures Valid() && Now() == Finish(old(Now()), message)
    {
      final := Some(message);
      Emit(Ending(message));
      done := true;
    }
  }

  predicate Chained(views: seq<seq<Event>>, seen: nat) {
    forall k :: 0 <= k < |views| ==> seen <= |views[k]| && (k > 0 ==> views[k - 1] <= views[k])
  }

  /**
   * `_chat_stream`: the final message of a turn that is done; otherwise the text so far, and then, each time it wakes,
   * the events that are new, until the turn ends. `views` are the event lists it finds; the client replaces its text by
   * the snapshot and appends every delta.
   */
  method ChatStream(snapshot: State, views: seq<seq<Event>>) returns (held: Held)
    requires Chained(views, |snapshot.events|)
    ensures held == Stream(snapshot, if views == [] then [] else views[|views| - 1][|snapshot.events|..])
  {
    hide Follow;
    if snapshot.final.Some? {
      return Held("", snapshot.final);
    }
    var seen, text := |snapshot.events|, snapshot.sent;
    held := Held(text, None);
    var index := seen;
    Followed(text);
    for k := 0 to |views|
      invariant index == if k == 0 then seen else |views[k - 1]|
      invariant k > 0 ==> seen <= index
      invariant held.final.None? && held == Follow(text, if k == 0 then [] else views[k - 1][seen..])
    {
      var news := views[k][index..];
      ghost var before := views[k][seen..index];
      assert before == if k == 0 then [] else views[k - 1][seen..];
      index := |views[k]|;
      assert before + news[..0] == before;
      for i := 0 to |news|
        invariant held.final.None? && held == Follow(text, before + news[..i])
      {
        assert before + news[..i + 1] == (before + news[..i]) + [news[i]];
        FollowSnoc(text, before + news[..i], news[i]);
        match news[i] {
          case Phase(_, _) =>
          case Delta(delta) => held := held.(text := held.text + delta);
          case Ending(message) =>
            held := held.(final := Some(message));
            NothingAfterEnd(views, seen, k, text, before + news[..i + 1]);
            return;
        }
      }
      assert before + news[..|news|] == views[k][seen..];
    }
  }

  lemma {:induction false} ChainedAll(views: seq<seq<Event>>, seen: nat, k: nat, n: nat)
    requires Chained(views, seen) && k <= n < |views|
    ensures views[k] <= views[n]
    decreases n
  {
    if k < n {
      ChainedAll(views, seen, k, n - 1);
    }
  }

  /** What comes after the end of the turn is not sent. */
  lemma NothingAfterEnd(views: seq<seq<Event>>, seen: nat, k: nat, text: string, part: seq<Event>)
    requires Chained(views, seen) && k < |views| && part <= views[k][seen..] && Follow(text, part).final.Some?
    ensures Follow(text, views[|views| - 1][seen..]) == Follow(text, part)
  {
    hide Follow;
    ChainedAll(views, seen, k, |views| - 1);
    var whole := views[|views| - 1][seen..];
    assert whole == part + whole[|part|..];
    FollowConcat(text, part, whole[|part|..]);
  }
}
