// What a handler does is what it has heard: its room, the lines it has said and the end of its
// chat follow from the lines it has received, whatever the other threads do.

module ServerHearing {
  import opened ByteStrings
  import opened ChatCommands
  import opened ChatSessions
  import opened ServerInvariant
  import opened ServerSpeech
  import opened ServerSteps
  import opened ServerSystem
  import opened ServerTheorems

  /** The command in a line; an empty line is the loss of the peer. */
  function CommandOf(line: Bytes): Command {
    if line == [] then Quit else LineCommand(line)
  }

  function HeardIn(e: Event, i: Sid): seq<Command> {
    if e.OfHandler? && e.i == i && e.step.Hear? then [CommandOf(e.step.line)] else []
  }

  /** What handler i has heard in the first k events. */
  function HeardBy(events: seq<Event>, i: Sid, k: nat): seq<Command>
    requires k <= |events|
  {
    if k == 0 then [] else HeardBy(events, i, k - 1) + HeardIn(events[k - 1], i)
  }

  function ScopeOf(room: Bytes): Scope {
    if room == [] then Everyone else InRoom(room)
  }

  /** Between two lines: busy with `last`, which was heard in this room. */
  predicate BusyWith(lines: seq<Line>, t: Thread, room: Bytes, last: Command) {
    match t.pc
    case Leaving(next) =>
      t.room == room && room != [] && last == if next.Some? then JoinRoom(next.value) else LeaveRoom
    case Joining => last == JoinRoom(t.room)
    case Speaking(text) => t.room == room && last == Say(text)
    case Paging(to, text) => t.room == room && last == Private(to, text)
    case Relaying(l, _) =>
      && t.room == room && l < |lines|
      && last == if lines[l].scope.OneUser? then Private(lines[l].scope.to, lines[l].text) else Say(lines[l].text)
    case _ => false
  }

  /** Where a handler is after these commands: nowhere near the chat, waiting, busy, or cleaning up after a Quit. */
  predicate Follows(lines: seq<Line>, t: Thread, commands: seq<Command>) {
    if t.adds == 0 || t.pc.Entering? then commands == []
    else if t.pc.Chatting? then Quit !in commands && t.room == RoomAfter(LOBBY, commands)
    else
      && commands != []
      && var init, last := commands[..|commands| - 1], commands[|commands| - 1];
         Quit !in init && if InCleanup(t.pc) then last == Quit
                          else last != Quit && BusyWith(lines, t, RoomAfter(LOBBY, init), last)
  }

  lemma ChattingFollows(lines: seq<Line>, t: Thread, t': Thread, commands: seq<Command>)
    requires Follows(lines, t, commands) && t.adds == 1 && !InCleanup(t.pc) && !t.pc.Entering? && !t.pc.Chatting?
    requires t'.pc.Chatting? && t'.adds == 1
    requires t'.room == NextRoom(RoomAfter(LOBBY, commands[..|commands| - 1]), commands[|commands| - 1])
    ensures Follows(lines, t', commands)
  {
    var init, last := commands[..|commands| - 1], commands[|commands| - 1];
    assert commands == init + [last];
    RoomAfterOneMore(LOBBY, init, last);
  }

  lemma BusyFollows(lines: seq<Line>, t: Thread, commands: seq<Command>, last: Command)
    requires t.adds == 1 && !InCleanup(t.pc) && !t.pc.Entering? && !t.pc.Chatting?
    requires Quit !in commands && last != Quit && BusyWith(lines, t, RoomAfter(LOBBY, commands), last)
    ensures Follows(lines, t, commands + [last])
  {
    assert (commands + [last])[..|commands|] == commands;
  }

  lemma StillFollows(lines: seq<Line>, t: Thread, commands: seq<Command>, last: Command)
    requires Follows(lines, t, commands) && t.pc.Chatting? && t.adds == 1
    requires last != Quit && NextRoom(t.room, last) == t.room
    ensures Follows(lines, t, commands + [last])
  {
    RoomAfterOneMore(LOBBY, commands, last);
  }

  lemma QuitFollows(lines: seq<Line>, t: Thread, commands: seq<Command>)
    requires t.adds == 1 && InCleanup(t.pc) && Quit !in commands
    ensures Follows(lines, t, commands + [Quit])
  {
    assert (commands + [Quit])[..|commands|] == commands;
  }

  lemma ObeyFollows(lines: seq<Line>, t: Thread, command: Command, commands: seq<Command>)
    requires Follows(lines, t, commands) && t.pc.Chatting? && t.adds == 1
    ensures Follows(lines, Obeyed(t, command), commands + [command])
  {
    match command
    case Quit => QuitFollows(lines, Obeyed(t, Quit), commands);
    case Nothing => StillFollows(lines, t, commands, command);
    case Refused(_) => StillFollows(lines, t, commands, command);
    case LeaveRoom =>
      if t.room == [] {
        StillFollows(lines, t, commands, command);
      } else {
        BusyFollows(lines, Obeyed(t, command), commands, command);
      }
    case _ => BusyFollows(lines, Obeyed(t, command), commands, command);
  }

  lemma HearFollows(lines: seq<Line>, t: Thread, line: Bytes, commands: seq<Command>)
    requires Follows(lines, t, commands) && t.pc.Chatting? && t.adds == 1
    ensures Follows(lines, ServerSystem.Heard(t, line), commands + [CommandOf(line)])
  {
    if line == [] {
      QuitFollows(lines, ServerSystem.Heard(t, line), commands);
    } else {
      ObeyFollows(lines, t, LineCommand(line), commands);
    }
  }

  lemma DepartureFollows(lines: seq<Line>, t: Thread, commands: seq<Command>)
    requires Follows(lines, t, commands) && t.pc.Leaving? && t.adds == 1
    ensures Follows(lines, Departed(t), commands)
  {
    if t.pc.next.None? {
      ChattingFollows(lines, t, Departed(t), commands);
    }
  }

  /** Joined, or done with a line. */
  lemma ReturnFollows(lines: seq<Line>, t: Thread, commands: seq<Command>)
    requires Follows(lines, t, commands) && t.adds == 1
    requires t.pc.Joining? || t.pc.Relaying? || t.pc.Paging?
    ensures Follows(lines, t.(pc := Chatting), commands)
  {
    ChattingFollows(lines, t, t.(pc := Chatting), commands);
  }

  lemma SameLinesFollow(lines: seq<Line>, lines': seq<Line>, t: Thread, t': Thread, commands: seq<Command>)
    requires Follows(lines, t, commands) && |lines| <= |lines'|
    requires forall l :: 0 <= l < |lines| ==> SameLine(lines[l], lines'[l])
    requires t'.pc == t.pc && t'.room == t.room && t'.adds == t.adds
    ensures Follows(lines', t', commands)
  {
    if t.pc.Relaying? && t.pc.line < |lines| {
      assert SameLine(lines[t.pc.line], lines'[t.pc.line]);
    }
  }

  // The steps of handler i itself.

  /** From s to s' handler i goes on as it should. */
  ghost predicate GoesOn(s: State, s': State, i: Sid, commands: seq<Command>, heard: seq<Command>) {
    i < |s.threads| && i < |s'.threads| &&
    (Follows(s.lines, s.threads[i], commands) ==> Follows(s'.lines, s'.threads[i], commands + heard))
  }

  lemma MenuStepFollows(s: State, i: Sid, step: HandlerStep, commands: seq<Command>)
    requires Inv(s) && i < |s.threads| && HandlerEnabled(s, s.threads[i], step) && IsMenu(step)
    ensures GoesOn(s, HandlerNext(s, i, s.threads[i], step), i, commands, [])
  {
    InvOwn(s, i);
    assert commands + [] == commands;
  }

  lemma RegisterStepFollows(s: State, i: Sid, step: HandlerStep, commands: seq<Command>)
    requires Inv(s) && i < |s.threads| && HandlerEnabled(s, s.threads[i], step) && step.CallRegister?
    ensures GoesOn(s, HandlerNext(s, i, s.threads[i], step), i, commands, [])
  {
    InvOwn(s, i);
    assert commands + [] == commands;
  }

  lemma NameStepFollows(s: State, i: Sid, commands: seq<Command>)
    requires Inv(s) && i < |s.threads| && HandlerEnabled(s, s.threads[i], SetName)
    ensures GoesOn(s, HandlerNext(s, i, s.threads[i], SetName), i, commands, [])
  {
    InvOwn(s, i);
    assert commands + [] == commands;
  }

  lemma EntryStepFollows(s: State, i: Sid, step: HandlerStep, commands: seq<Command>)
    requires Inv(s) && i < |s.threads| && HandlerEnabled(s, s.threads[i], step) && (step.AddClient? || step.Enter?)
    ensures GoesOn(s, HandlerNext(s, i, s.threads[i], step), i, commands, [])
  {
    InvOwn(s, i);
    assert commands + [] == commands;
  }

  lemma HearStepFollows(s: State, i: Sid, step: HandlerStep, commands: seq<Command>)
    requires Inv(s) && i < |s.threads| && HandlerEnabled(s, s.threads[i], step) && step.Hear?
    ensures GoesOn(s, HandlerNext(s, i, s.threads[i], step), i, commands, [CommandOf(step.line)])
  {
    InvOwn(s, i);
    if Follows(s.lines, s.threads[i], commands) {
      HearFollows(s.lines, s.threads[i], step.line, commands);
    }
  }

  lemma MoveStepFollows(s: State, i: Sid, step: HandlerStep, commands: seq<Command>)
    requires Inv(s) && i < |s.threads| && HandlerEnabled(s, s.threads[i], step)
    requires step.LeaveCurrent? || step.JoinCurrent? || step.EndRelay?
    ensures GoesOn(s, HandlerNext(s, i, s.threads[i], step), i, commands, [])
  {
    InvOwn(s, i);
    assert commands + [] == commands;
    if Follows(s.lines, s.threads[i], commands) {
      if step.LeaveCurrent? {
        DepartureFollows(s.lines, s.threads[i], commands);
      } else {
        ReturnFollows(s.lines, s.threads[i], commands);
      }
    }
  }

  lemma RelayFollows(s: State, i: Sid, line: Line, audience: set<Sid>, commands: seq<Command>)
    requires i < |s.threads| && s.threads[i].adds == 1 && Follows(s.lines, s.threads[i], commands)
    requires s.threads[i].pc.Speaking? ==> !line.scope.OneUser? && line.text == s.threads[i].pc.text
    requires s.threads[i].pc.Paging? ==> line.scope == OneUser(s.threads[i].pc.to) && line.text == s.threads[i].pc.text
    requires s.threads[i].pc.Speaking? || s.threads[i].pc.Paging?
    ensures Follows(s.lines + [line], s.threads[i].(pc := Relaying(|s.lines|, audience)), commands)
  {
  }

  lemma SpeakStepFollows(s: State, i: Sid, commands: seq<Command>)
    requires Inv(s) && i < |s.threads| && HandlerEnabled(s, s.threads[i], Speak)
    ensures GoesOn(s, HandlerNext(s, i, s.threads[i], Speak), i, commands, [])
  {
    InvOwn(s, i);
    SpeakerIsReady(s, i);
    assert commands + [] == commands;
    var s' := HandlerNext(s, i, s.threads[i], Speak);
    if Follows(s.lines, s.threads[i], commands) {
      RelayFollows(s, i, s'.lines[|s.lines|], s'.threads[i].pc.rest, commands);
    }
  }

  lemma PageStepFollows(s: State, i: Sid, commands: seq<Command>)
    requires Inv(s) && i < |s.threads| && HandlerEnabled(s, s.threads[i], Page)
    ensures GoesOn(s, HandlerNext(s, i, s.threads[i], Page), i, commands, [])
  {
    InvOwn(s, i);
    PageGoesOn(s, i, commands);
  }

  lemma PageGoesOn(s: State, i: Sid, commands: seq<Command>)
    requires i < |s.threads| && s.threads[i].adds == 1 && HandlerEnabled(s, s.threads[i], Page)
    ensures GoesOn(s, HandlerNext(s, i, s.threads[i], Page), i, commands, [])
  {
    assert commands + [] == commands;
    var s' := HandlerNext(s, i, s.threads[i], Page);
    if Follows(s.lines, s.threads[i], commands) {
      if s'.threads[i].pc.Chatting? {
        ReturnFollows(s.lines, s.threads[i], commands);
      } else {
        RelayFollows(s, i, s'.lines[|s.lines|], s'.threads[i].pc.rest, commands);
      }
    }
  }

  /** One more member of the audience has been served. */
  lemma RestFollows(lines: seq<Line>, lines': seq<Line>, t: Thread, t': Thread, commands: seq<Command>)
    requires Follows(lines, t, commands) && t.pc.Relaying? && t.adds == 1 && t'.room == t.room && t'.adds == 1
    requires t'.pc.Relaying? && t'.pc.line == t.pc.line && t.pc.line < |lines| == |lines'|
    requires SameLine(lines[t.pc.line], lines'[t.pc.line])
    ensures Follows(lines', t', commands)
  {
  }

  lemma DeliveryKeepsOwnPlace(s: State, i: Sid, step: HandlerStep)
    requires i < |s.threads| && HandlerEnabled(s, s.threads[i], step) && step.Deliver?
    ensures var s' := HandlerNext(s, i, s.threads[i], step);
            && |s'.threads| == |s.threads| && |s'.lines| == |s.lines|
            && var t, t' := s.threads[i], s'.threads[i];
               && t'.pc.Relaying? && t'.pc.line == t.pc.line && t'.room == t.room && t'.adds == t.adds
               && SameLine(s.lines[t.pc.line], s'.lines[t.pc.line])
  {
  }

  lemma DeliverStepFollows(s: State, i: Sid, step: HandlerStep, commands: seq<Command>)
    requires Inv(s) && i < |s.threads| && HandlerEnabled(s, s.threads[i], step) && step.Deliver?
    ensures GoesOn(s, HandlerNext(s, i, s.threads[i], step), i, commands, [])
  {
    InvOwn(s, i);
    DeliveryKeepsOwnPlace(s, i, step);
    RelayGoesOn(s, HandlerNext(s, i, s.threads[i], step), i, commands);
  }

  lemma RelayGoesOn(s: State, s': State, i: Sid, commands: seq<Command>)
    requires i < |s.threads| == |s'.threads| && |s.lines| == |s'.lines|
    requires s.threads[i].pc.Relaying? && s'.threads[i].pc.Relaying? && s.threads[i].adds == 1
    requires s'.threads[i].pc.line == s.threads[i].pc.line < |s.lines|
    requires s'.threads[i].room == s.threads[i].room && s'.threads[i].adds == s.threads[i].adds
    requires SameLine(s.lines[s.threads[i].pc.line], s'.lines[s.threads[i].pc.line])
    ensures GoesOn(s, s', i, commands, [])
  {
    assert commands + [] == commands;
    if Follows(s.lines, s.threads[i], commands) {
      RestFollows(s.lines, s'.lines, s.threads[i], s'.threads[i], commands);
    }
  }

  lemma LateStepFollows(s: State, i: Sid, step: HandlerStep, commands: seq<Command>)
    requires Inv(s) && i < |s.threads| && HandlerEnabled(s, s.threads[i], step) && !IsEarly(step) && !IsChat(step)
    ensures GoesOn(s, HandlerNext(s, i, s.threads[i], step), i, commands, [])
  {
    InvOwn(s, i);
    HandlerFrame(s, i, s.threads[i], step);
    assert commands + [] == commands;
  }

  lemma OwnStepFollows(s: State, i: Sid, step: HandlerStep, commands: seq<Command>)
    requires Inv(s) && i < |s.threads| && HandlerEnabled(s, s.threads[i], step)
    ensures GoesOn(s, HandlerNext(s, i, s.threads[i], step), i, commands, HeardIn(OfHandler(i, step), i))
  {
    if step.Hear? {
      HearStepFollows(s, i, step, commands);
    } else if step.AddClient? || step.Enter? {
      EntryStepFollows(s, i, step, commands);
    } else if IsMenu(step) {
      MenuStepFollows(s, i, step, commands);
    } else if step.CallRegister? {
      RegisterStepFollows(s, i, step, commands);
    } else if step.SetName? {
      NameStepFollows(s, i, commands);
    } else if step.Speak? {
      SpeakStepFollows(s, i, commands);
    } else if step.Page? {
      PageStepFollows(s, i, commands);
    } else if step.Deliver? {
      DeliverStepFollows(s, i, step, commands);
    } else if IsChat(step) {
      MoveStepFollows(s, i, step, commands);
    } else {
      LateStepFollows(s, i, step, commands);
    }
  }

  // Whole runs.

  lemma OtherStepFollows(s: State, e: Event, i: Sid, commands: seq<Command>)
    requires Inv(s) && Enabled(s, e) && i < |s.threads| && !(e.OfHandler? && e.i == i)
    ensures GoesOn(s, Next(s, e), i, commands, [])
  {
    if e.OfHandler? {
      OtherStepKeepsPosition(s, i, e.i, e.step);
    } else {
      MainStepKeepsPosition(s, i, e.act);
    }
    StepSpeech(s, e);
    assert commands + [] == commands;
    if Follows(s.lines, s.threads[i], commands) {
      SameLinesFollow(s.lines, Next(s, e).lines, s.threads[i], Next(s, e).threads[i], commands);
    }
  }

  lemma StepFollows(s: State, e: Event, i: Sid, commands: seq<Command>)
    requires Inv(s) && Enabled(s, e) && i < |s.threads|
    ensures GoesOn(s, Next(s, e), i, commands, HeardIn(e, i))
  {
    if e.OfHandler? && e.i == i {
      OwnStepFollows(s, i, e.step, commands);
    } else {
      OtherStepFollows(s, e, i, commands);
    }
  }

  lemma NewThreads(s: State, e: Event, i: Sid)
    requires Enabled(s, e) && i >= |s.threads|
    ensures i < |Next(s, e).threads| ==> Next(s, e).threads[i].adds == 0
    ensures HeardIn(e, i) == []
  {
    match e
    case OfHandler(j, step) => HandlerFrame(s, j, s.threads[j], step);
    case OfMain(act) => NewThreadsOfMain(s, act, i);
  }

  lemma NewThreadsOfMain(s: State, act: MainStep, i: Sid)
    requires MainEnabled(s, act) && i >= |s.threads|
    ensures i < |MainNext(s, act).threads| ==> MainNext(s, act).threads[i].adds == 0
  {
  }

  /** Handler i in state s, if it is there yet. */
  ghost predicate Tracks(s: State, i: Sid, commands: seq<Command>) {
    if i < |s.threads| then Follows(s.lines, s.threads[i], commands) else commands == []
  }

  lemma RunTracks(states: seq<State>, events: seq<Event>, i: Sid, k: nat, commands: seq<Command>)
    requires IsRun(states, events) && k < |events| && Tracks(states[k], i, commands)
    ensures Tracks(states[k + 1], i, commands + HeardIn(events[k], i))
  {
    RunKeepsInv(states, events, k);
    if i < |states[k].threads| {
      StepFollows(states[k], events[k], i, commands);
    } else {
      NewThreads(states[k], events[k], i);
    }
  }

  /**
   * In every run: where a handler is in its chat, in which room, and what it is about to do or
   * say, is what it was told by the lines it has heard.
   */
  lemma {:induction false} HandlersDoAsTheyHear(states: seq<State>, events: seq<Event>, i: Sid, k: nat)
    requires IsRun(states, events) && k <= |events|
    ensures Tracks(states[k], i, HeardBy(events, i, k))
  {
    if k > 0 {
      HandlersDoAsTheyHear(states, events, i, k - 1);
      RunTracks(states, events, i, k - 1, HeardBy(events, i, k - 1));
    }
  }

  // Nothing is lost, added or said twice.

  /** What these commands say, and where: to the room that the session is in then, or to everybody. */
  function SaidOf(commands: seq<Command>): seq<(Scope, Bytes)> {
    if commands == [] then []
    else
      var init, last := commands[..|commands| - 1], commands[|commands| - 1];
      SaidOf(init) + if last.Say? then [(ScopeOf(RoomAfter(LOBBY, init)), last.text)] else []
  }

  /** What handler i has said to a room or to everybody. */
  function SpokenBy(lines: seq<Line>, i: Sid): seq<(Scope, Bytes)> {
    if lines == [] then []
    else
      var last := lines[|lines| - 1];
      SpokenBy(lines[..|lines| - 1], i) +
      if last.speaker == i && !last.scope.OneUser? then [(last.scope, last.text)] else []
  }

  /** What it is about to say. */
  function Pending(t: Thread): seq<(Scope, Bytes)> {
    if t.pc.Speaking? then [(ScopeOf(t.room), t.pc.text)] else []
  }

  predicate Conserved(lines: seq<Line>, t: Thread, i: Sid, commands: seq<Command>) {
    SaidOf(commands) == SpokenBy(lines, i) + Pending(t)
  }

  lemma {:induction false} SameLinesAreSpoken(lines: seq<Line>, lines': seq<Line>, i: Sid)
    requires |lines| == |lines'| && forall l :: 0 <= l < |lines| ==> SameLine(lines[l], lines'[l])
    ensures SpokenBy(lines', i) == SpokenBy(lines, i)
  {
    if lines != [] {
      var n := |lines| - 1;
      assert SameLine(lines[n], lines'[n]);
      SameLinesAreSpoken(lines[..n], lines'[..n], i);
    }
  }

  lemma SaidOneMore(commands: seq<Command>, last: Command)
    ensures SaidOf(commands + [last]) ==
            SaidOf(commands) + if last.Say? then [(ScopeOf(RoomAfter(LOBBY, commands)), last.text)] else []
  {
    assert (commands + [last])[..|commands|] == commands;
  }

  /** A step that is no speech of handler i adds nothing to what it has said. */
  lemma OthersAddNothing(s: State, e: Event, s': State, i: Sid)
    requires SpeechStep(s, e, s') && (|s'.lines| > |s.lines| ==> e.i != i || e.step.Page?)
    requires |s'.lines| > |s.lines| && e.step.Page? ==> s'.lines[|s.lines|].scope.OneUser?
    ensures SpokenBy(s'.lines, i) == SpokenBy(s.lines, i)
  {
    var n := |s.lines|;
    if |s'.lines| > n {
      assert s'.lines[..n] == s.lines;
    } else {
      SameLinesAreSpoken(s.lines, s'.lines, i);
    }
  }

  lemma PendingOfHeard(t: Thread, line: Bytes)
    requires t.pc.Chatting?
    ensures var command := CommandOf(line);
            Pending(ServerSystem.Heard(t, line)) == if command.Say? then [(ScopeOf(t.room), command.text)] else []
  {
  }

  lemma HearConserves(lines: seq<Line>, t: Thread, t': Thread, command: Command, i: Sid, commands: seq<Command>)
    requires t.pc.Chatting? && t.room == RoomAfter(LOBBY, commands) && Conserved(lines, t, i, commands)
    requires Pending(t') == if command.Say? then [(ScopeOf(t.room), command.text)] else []
    ensures Conserved(lines, t', i, commands + [command])
  {
    SaidOneMore(commands, command);
  }

  lemma SpokenOneMore(lines: seq<Line>, lines': seq<Line>, t: Thread, t': Thread, i: Sid, commands: seq<Command>)
    requires Conserved(lines, t, i, commands) && t.pc.Speaking? && !t'.pc.Speaking?
    requires |lines'| == |lines| + 1 && lines'[..|lines|] == lines
    requires lines'[|lines|].speaker == i
    requires lines'[|lines|].scope == ScopeOf(t.room) && lines'[|lines|].text == t.pc.text
    ensures Conserved(lines', t', i, commands)
  {
    assert SpokenBy(lines', i) == SpokenBy(lines, i) + Pending(t);
  }

  lemma SpeakRelays(s: State, i: Sid)
    requires i < |s.threads| && HandlerEnabled(s, s.threads[i], Speak)
    ensures i < |HandlerNext(s, i, s.threads[i], Speak).threads|
    ensures !HandlerNext(s, i, s.threads[i], Speak).threads[i].pc.Speaking?
  {
  }

  lemma SpeakConserves(s: State, i: Sid, commands: seq<Command>)
    requires Inv(s) && i < |s.threads| && HandlerEnabled(s, s.threads[i], Speak)
    requires Conserved(s.lines, s.threads[i], i, commands)
    ensures i < |HandlerNext(s, i, s.threads[i], Speak).threads|
    ensures var s' := HandlerNext(s, i, s.threads[i], Speak); Conserved(s'.lines, s'.threads[i], i, commands)
  {
    var s' := HandlerNext(s, i, s.threads[i], Speak);
    SpeakerIsReady(s, i);
    SpeakAddsLine(s, i);
    SpeakRelays(s, i);
    SpokenOneMore(s.lines, s'.lines, s.threads[i], s'.threads[i], i, commands);
  }

  // Only hearing a line makes a handler speak, and only speaking ends that.

  lemma EarlyStepsKeepPending(s: State, i: Sid, step: HandlerStep)
    requires i < |s.threads| && HandlerEnabled(s, s.threads[i], step) && IsEarly(step) && !step.Hear?
    ensures i < |HandlerNext(s, i, s.threads[i], step).threads|
    ensures Pending(HandlerNext(s, i, s.threads[i], step).threads[i]) == Pending(s.threads[i])
  {
  }

  lemma ChatStepsKeepPending(s: State, i: Sid, step: HandlerStep)
    requires i < |s.threads| && HandlerEnabled(s, s.threads[i], step)
    requires step.LeaveCurrent? || step.JoinCurrent? || step.EndRelay?
    ensures i < |HandlerNext(s, i, s.threads[i], step).threads|
    ensures Pending(HandlerNext(s, i, s.threads[i], step).threads[i]) == Pending(s.threads[i])
  {
  }

  lemma PageKeepsPending(s: State, i: Sid)
    requires i < |s.threads| && HandlerEnabled(s, s.threads[i], Page)
    ensures i < |HandlerNext(s, i, s.threads[i], Page).threads|
    ensures Pending(HandlerNext(s, i, s.threads[i], Page).threads[i]) == Pending(s.threads[i])
  {
  }

  lemma LateStepsKeepPending(s: State, i: Sid, step: HandlerStep)
    requires i < |s.threads| && HandlerEnabled(s, s.threads[i], step) && !IsEarly(step) && !IsChat(step)
    ensures i < |HandlerNext(s, i, s.threads[i], step).threads|
    ensures Pending(HandlerNext(s, i, s.threads[i], step).threads[i]) == Pending(s.threads[i])
  {
  }

  lemma OtherStepsKeepPending(s: State, i: Sid, step: HandlerStep)
    requires i < |s.threads| && HandlerEnabled(s, s.threads[i], step) && !step.Hear? && !step.Speak?
    ensures i < |HandlerNext(s, i, s.threads[i], step).threads|
    ensures Pending(HandlerNext(s, i, s.threads[i], step).threads[i]) == Pending(s.threads[i])
  {
    if IsEarly(step) {
      EarlyStepsKeepPending(s, i, step);
    } else if step.Deliver? {
      DeliveryKeepsOwnPlace(s, i, step);
    } else if step.Page? {
      PageKeepsPending(s, i);
    } else if IsChat(step) {
      ChatStepsKeepPending(s, i, step);
    } else {
      LateStepsKeepPending(s, i, step);
    }
  }

  lemma PagesAreForOneUser(s: State, i: Sid)
    requires Inv(s) && i < |s.threads| && HandlerEnabled(s, s.threads[i], Page)
    ensures var s' := HandlerNext(s, i, s.threads[i], Page);
            |s'.lines| > |s.lines| ==> s'.lines[|s.lines|].scope.OneUser?
  {
    SpeakerIsReady(s, i);
    PageAddsLine(s, i);
  }

  lemma HearStepConserves(s: State, i: Sid, step: HandlerStep, commands: seq<Command>)
    requires Inv(s) && i < |s.threads| && HandlerEnabled(s, s.threads[i], step) && step.Hear?
    requires Conserved(s.lines, s.threads[i], i, commands) && Follows(s.lines, s.threads[i], commands)
    ensures var s' := HandlerNext(s, i, s.threads[i], step);
            && i < |s'.threads|
            && Conserved(s'.lines, s'.threads[i], i, commands + [CommandOf(step.line)])
  {
    var t := s.threads[i];
    InvOwn(s, i);
    PendingOfHeard(t, step.line);
    HearConserves(s.lines, t, ServerSystem.Heard(t, step.line), CommandOf(step.line), i, commands);
  }

  lemma OwnStepConserves(s: State, i: Sid, step: HandlerStep, commands: seq<Command>)
    requires Inv(s) && i < |s.threads| && HandlerEnabled(s, s.threads[i], step)
    requires Conserved(s.lines, s.threads[i], i, commands) && Follows(s.lines, s.threads[i], commands)
    ensures var s' := HandlerNext(s, i, s.threads[i], step);
            i < |s'.threads| && Conserved(s'.lines, s'.threads[i], i, commands + HeardIn(OfHandler(i, step), i))
  {
    assert commands + [] == commands;
    if step.Hear? {
      HearStepConserves(s, i, step, commands);
    } else if step.Speak? {
      SpeakConserves(s, i, commands);
    } else {
      OtherOwnStepConserves(s, i, step, commands);
    }
  }

  lemma OtherOwnStepConserves(s: State, i: Sid, step: HandlerStep, commands: seq<Command>)
    requires Inv(s) && i < |s.threads| && HandlerEnabled(s, s.threads[i], step) && !step.Hear? && !step.Speak?
    requires Conserved(s.lines, s.threads[i], i, commands)
    ensures var s' := HandlerNext(s, i, s.threads[i], step);
            i < |s'.threads| && Conserved(s'.lines, s'.threads[i], i, commands)
  {
    OtherStepsKeepPending(s, i, step);
    HandlerSpeech(s, i, step);
    if step.Page? {
      PagesAreForOneUser(s, i);
    }
    OthersAddNothing(s, OfHandler(i, step), HandlerNext(s, i, s.threads[i], step), i);
  }

  lemma StepConserves(s: State, e: Event, i: Sid, commands: seq<Command>)
    requires Inv(s) && Enabled(s, e) && i < |s.threads|
    requires Conserved(s.lines, s.threads[i], i, commands) && Follows(s.lines, s.threads[i], commands)
    ensures i < |Next(s, e).threads|
    ensures Conserved(Next(s, e).lines, Next(s, e).threads[i], i, commands + HeardIn(e, i))
  {
    if e.OfHandler? && e.i == i {
      OwnStepConserves(s, i, e.step, commands);
    } else {
      assert commands + [] == commands;
      OtherStepConserves(s, e, i, commands);
    }
  }

  lemma OthersKeepPending(s: State, e: Event, i: Sid)
    requires Enabled(s, e) && i < |s.threads| && !(e.OfHandler? && e.i == i)
    ensures i < |Next(s, e).threads| && Pending(Next(s, e).threads[i]) == Pending(s.threads[i])
  {
    if e.OfHandler? {
      OtherStepKeepsPosition(s, i, e.i, e.step);
    } else {
      MainStepKeepsPosition(s, i, e.act);
    }
  }

  lemma OtherStepConserves(s: State, e: Event, i: Sid, commands: seq<Command>)
    requires Inv(s) && Enabled(s, e) && i < |s.threads| && !(e.OfHandler? && e.i == i)
    requires Conserved(s.lines, s.threads[i], i, commands)
    ensures i < |Next(s, e).threads| && Conserved(Next(s, e).lines, Next(s, e).threads[i], i, commands)
  {
    OthersKeepPending(s, e, i);
    StepSpeech(s, e);
    if e.OfHandler? && e.step.Page? {
      PagesAreForOneUser(s, e.i);
    }
    OthersAddNothing(s, e, Next(s, e), i);
  }

  /** Nobody that is not there yet has said anything. */
  lemma {:induction false} StrangersAreSilent(lines: seq<Line>, i: Sid)
    requires forall l :: 0 <= l < |lines| ==> lines[l].speaker != i
    ensures SpokenBy(lines, i) == []
  {
    if lines != [] {
      StrangersAreSilent(lines[..|lines| - 1], i);
    }
  }

  lemma SpeakersAreThere(s: State, i: Sid)
    requires Inv(s) && i >= |s.threads|
    ensures SpokenBy(s.lines, i) == []
  {
    forall l | 0 <= l < |s.lines|
      ensures s.lines[l].speaker != i
    {
      assert LineOk(s, l);
    }
    StrangersAreSilent(s.lines, i);
  }

  /** Handler i in state s: all it was told to say, it has said or is about to. */
  ghost predicate HasSaid(s: State, i: Sid, commands: seq<Command>) {
    if i < |s.threads| then Conserved(s.lines, s.threads[i], i, commands)
    else SaidOf(commands) == SpokenBy(s.lines, i) == []
  }

  lemma NewThreadIsSilent(s: State, e: Event, i: Sid)
    requires Inv(s) && Enabled(s, e) && i >= |s.threads|
    ensures i < |Next(s, e).threads| ==> Pending(Next(s, e).threads[i]) == [] && Next(s, e).lines == s.lines
  {
    match e
    case OfHandler(j, step) => HandlerFrame(s, j, s.threads[j], step);
    case OfMain(act) => MainSpeech(s, act);
  }

  lemma RunConserves(states: seq<State>, events: seq<Event>, i: Sid, k: nat, commands: seq<Command>)
    requires IsRun(states, events) && k < |events|
    requires Tracks(states[k], i, commands) && HasSaid(states[k], i, commands)
    ensures HasSaid(states[k + 1], i, commands + HeardIn(events[k], i))
  {
    RunKeepsInv(states, events, k);
    RunKeepsInv(states, events, k + 1);
    if i < |states[k].threads| {
      StepConserves(states[k], events[k], i, commands);
    } else {
      NewThreads(states[k], events[k], i);
      NewThreadIsSilent(states[k], events[k], i);
      if i >= |states[k + 1].threads| {
        SpeakersAreThere(states[k + 1], i);
      }
    }
  }

  /**
   * In every run: the lines that a handler has said, in order, each to the room it was in then, are
   * those that it was told to say, except for one that it may be about to say.
   */
  lemma {:induction false} EachLineIsSaidOnce(states: seq<State>, events: seq<Event>, i: Sid, k: nat)
    requires IsRun(states, events) && k <= |events|
    ensures HasSaid(states[k], i, HeardBy(events, i, k))
  {
    if k > 0 {
      HandlersDoAsTheyHear(states, events, i, k - 1);
      EachLineIsSaidOnce(states, events, i, k - 1);
      RunConserves(states, events, i, k - 1, HeardBy(events, i, k - 1));
    }
  }
}
