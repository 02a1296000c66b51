/**
 * The events of a turn beside its text: the phases they announce, the pieces that are worth sending, and the message
 * that ends it.
 */
module TurnPhases {
  import opened Prelude
  import opened Blanks
  import opened Streaming
  import opened Turns

  /** Everything the runner has put out. */
  function Received(actions: seq<Action>): string {
    if actions == [] then ""
    else
      var last := actions[|actions| - 1];
      Received(actions[..|actions| - 1]) + (if last.Receive? then last.more else "")
  }

  /** The phase and tool a client knows of: those last announced, and before that the first ones. */
  function Announced(events: seq<Event>): (string, Option<string>) {
    if events == [] then ("iniciando", None)
    else
      match events[|events| - 1]
      case Phase(phase, tool) => (phase, tool)
      case _ => Announced(events[..|events| - 1])
  }

  /** The message a client was last given as final. */
  function Concluded(events: seq<Event>): Option<Message> {
    if events == [] then None
    else
      match events[|events| - 1]
      case Ending(message) => Some(message)
      case _ => Concluded(events[..|events| - 1])
  }

  /** An event tells its reader something: a change of phase, or a piece of text in the phase of answering. */
  predicate Tells(before: seq<Event>, e: Event) {
    match e
    case Phase(phase, tool) => Announced(before) != (phase, tool)
    case Delta(text) =>
      text != "" && Announced(before).0 == "respondendo" && (Shown(before) == "" ==> !Blank(text))
    case Ending(_) => true
  }

  /** Each event tells something after those before it. */
  predicate AllTell(events: seq<Event>) {
    forall i :: 0 <= i < |events| ==> Tells(events[..i], events[i])
  }

  lemma Snoc(events: seq<Event>, e: Event)
    ensures Announced(events + [e]) == if e.Phase? then (e.phase, e.tool) else Announced(events)
    ensures Concluded(events + [e]) == if e.Ending? then Some(e.message) else Concluded(events)
    ensures AllTell(events) && Tells(events, e) ==> AllTell(events + [e])
  {
    hide Tells;
    var all := events + [e];
    assert all[..|events|] == events;
    forall i | 0 <= i < |all| && AllTell(events) && Tells(events, e) ensures Tells(all[..i], all[i]) {
      if i < |events| {
        assert all[..i] == events[..i];
      }
    }
  }

  /** The fields of a turn are what its events say. */
  ghost predicate Consistent(t: State) {
    && Announced(t.events) == (t.phase, t.tool) && Concluded(t.events) == t.final && Shown(t.events) == t.sent
    && AllTell(t.events)
  }

  lemma ChangeIsTold(t: State, phase: string, tool: Option<string>)
    requires Consistent(t)
    ensures var u := SetPhase(t, phase, tool);
            Consistent(u) && u.phase == phase && u.tool == tool && u.sent == t.sent && u.final == t.final
  {
    hide AllTell, Shown, Announced, Concluded, Blank;
    Snoc(t.events, Phase(phase, tool));
    ShownSnoc(t.events, Phase(phase, tool));
  }

  lemma PushIsTold(t: State, display: string)
    requires Consistent(t)
    ensures Consistent(Push(t, display))
  {
    hide AllTell, Shown, Announced, Concluded, Blank, SetPhase;
    var u := Push(t, display);
    if u != t {
      var delta := display[|t.sent|..];
      ChangeIsTold(t, "respondendo", None);
      var v := if t.phase != "respondendo" then SetPhase(t, "respondendo", None) else t;
      OfSent(t, display);
      assert Tells(v.events, Delta(delta));
      Snoc(v.events, Delta(delta));
      ShownSnoc(v.events, Delta(delta));
      assert t.sent + delta == display;
      assert u.events == v.events + [Delta(delta)];
    }
  }

  /** What was sent has no part in the change of phase. */
  lemma OfSent(t: State, display: string)
    ensures SetPhase(t.(sent := display), "respondendo", None)
         == SetPhase(t, "respondendo", None).(sent := display)
  {
  }

  lemma StepIsTold(l: Live, a: Action)
    requires Consistent(l.turn)
    ensures Consistent(Next(l, a).turn)
  {
    hide AllTell, Shown, Announced, Concluded, Blank, SetPhase, Push, Display, FinalText, Strip;
    match a
    case Receive(more, push) => PushIsTold(l.turn, Display(l.raw + more));
    case Change(phase, tool) => ChangeIsTold(l.turn, phase, tool);
    case Replies(failed) =>
      Snoc(l.turn.events, Ending(Message(FinalText(l.raw), failed)));
      ShownSnoc(l.turn.events, Ending(Message(FinalText(l.raw), failed)));
    case Breaks(failed) =>
      Snoc(l.turn.events, Ending(Message(Strip(l.turn.sent), failed)));
      ShownSnoc(l.turn.events, Ending(Message(Strip(l.turn.sent), failed)));
  }

  /**
   * In every turn the phase and tool are those last announced and the final message is the last one given. No event is
   * idle: a phase is announced only when it or the tool changes, and a piece of text is not empty, is not a first piece
   * of blanks, and comes while the phase announced is that of answering.
   */
  lemma {:induction false} EventsTellTheTurn(actions: seq<Action>)
    ensures var t := Run(actions).turn;
            && Announced(t.events) == (t.phase, t.tool) && Concluded(t.events) == t.final
            && forall i :: 0 <= i < |t.events| ==> Tells(t.events[..i], t.events[i])
  {
    hide Next, Tells;
    if actions != [] {
      EventsTellTheTurn(actions[..|actions| - 1]);
      DeltasMakeUpSent(actions[..|actions| - 1]);
      StepIsTold(Run(actions[..|actions| - 1]), actions[|actions| - 1]);
    }
  }

  lemma {:induction false} RawIsReceived(actions: seq<Action>)
    ensures Run(actions).raw == Received(actions)
  {
    hide Display, Push, SetPhase, Finish, FinalText, Strip;
    if actions != [] {
      RawIsReceived(actions[..|actions| - 1]);
    }
  }

  /**
   * What one more action does to any turn: a reply ends it with the final text of everything received, pushed or not;
   * a break, with what was sent; a change announces the phase and tool asked for and leaves the text; and what is
   * pushed is all that may be shown of everything received, but for blanks that nothing has come before.
   */
  lemma ActionsMean(actions: seq<Action>, a: Action)
    ensures var t, u := Run(actions).turn, Run(actions + [a]).turn;
            match a
            case Receive(more, push) =>
              && u.final == t.final
              && (if push then u.sent == Display(Received(actions + [a]))
                               || (u.sent == "" && Blank(Display(Received(actions + [a]))))
                  else u == t)
            case Change(phase, tool) =>
              Announced(u.events) == (phase, tool) && Shown(u.events) == Shown(t.events) && u.final == t.final
            case Replies(failed) =>
              u.final == Some(Message(FinalText(Received(actions)), failed)) && Shown(u.events) == Shown(t.events)
            case Breaks(failed) =>
              u.final == Some(Message(Strip(Shown(t.events)), failed)) && Shown(u.events) == Shown(t.events)
  {
    hide Display, FinalText, Strip, Shown, Announced, Received, Push, SetPhase;
    var all := actions + [a];
    assert all[..|actions|] == actions;
    RawIsReceived(actions);
    RawIsReceived(all);
    DeltasMakeUpSent(actions);
    DeltasMakeUpSent(all);
    EventsTellTheTurn(actions);
    EventsTellTheTurn(all);
    match a
    case Receive(more, push) => PushFollow(Run(actions).turn, Display(Run(actions).raw + more));
    case Change(phase, tool) => ChangeIsTold(Run(actions).turn, phase, tool);
    case _ =>
  }
}
