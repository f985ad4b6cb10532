// Who says what to whom, over whole runs of the server: a line goes to those who are in the
// speaker's room when the snapshot is taken, and what a handler does is what it has heard.

module ServerSpeech {
  import opened ByteStrings
  import opened RoomTables
  import opened ServerInvariant
  import opened ServerSteps
  import opened ServerSystem

  // Snapshots.

  /** A line as it stays; only its fates are still to come. */
  predicate SameLine(line: Line, line': Line) {
    && line'.speaker == line.speaker && line'.sender == line.sender && line'.scope == line.scope
    && line'.text == line.text && line'.audience == line.audience
  }

  /** What handler i says in state s, and to whom: the room, everybody active of another name, or one session. */
  ghost predicate Snapshot(s: State, i: Sid, line: Line) {
    && i < |s.threads| && i in s.names && line.speaker == i && line.sender == s.names[i]
    && match s.threads[i].pc
       case Speaking(text) =>
         var room := s.threads[i].room;
         && line.text == text
         && (if room != [] then
               line.scope == InRoom(room) && forall x :: x in line.audience <==> Member(s.rooms, room, x)
             else
               && line.scope == Everyone
               && forall x :: x in line.audience <==>
                    x in s.clients.list && IsActive(s, x) && NameOf(s, x) != line.sender)
       case Paging(to, text) =>
         && line.text == text && line.scope == OneUser(to)
         && to in s.clients.index && IsActive(s, s.clients.index[to]) && line.audience == {s.clients.index[to]}
       case _ => false
  }

  /** One more line, as the snapshot has it. */
  ghost predicate AddsLine(s: State, s': State, i: Sid) {
    |s'.lines| == |s.lines| + 1 && s'.lines[..|s.lines|] == s.lines && Snapshot(s, i, s'.lines[|s.lines|])
  }

  lemma SpeakAddsLine(s: State, i: Sid)
    requires i < |s.threads| && i in s.names && HandlerEnabled(s, s.threads[i], Speak)
    requires s.threads[i].room != [] ==> s.threads[i].room in s.rooms
    ensures AddsLine(s, HandlerNext(s, i, s.threads[i], Speak), i)
  {
  }

  /** A private message to nobody, or to somebody inactive, is not sent. */
  lemma PageAddsLine(s: State, i: Sid)
    requires i < |s.threads| && i in s.names && HandlerEnabled(s, s.threads[i], Page)
    ensures var s', to := HandlerNext(s, i, s.threads[i], Page), s.threads[i].pc.to;
            if to in s.clients.index && IsActive(s, s.clients.index[to]) then AddsLine(s, s', i)
            else s'.lines == s.lines
  {
  }

  predicate IsSpeech(e: Event) {
    e.OfHandler? && (e.step.Speak? || e.step.Page?)
  }

  /** From s to s': all lines stay, and a new one is a snapshot. */
  ghost predicate SpeechStep(s: State, e: Event, s': State) {
    && |s.lines| <= |s'.lines|
    && (forall l :: 0 <= l < |s.lines| ==> SameLine(s.lines[l], s'.lines[l]))
    && (|s'.lines| > |s.lines| ==> IsSpeech(e) && AddsLine(s, s', e.i))
  }

  lemma DeliveryKeepsLines(s: State, i: Sid, step: HandlerStep)
    requires i < |s.threads| && HandlerEnabled(s, s.threads[i], step) && step.Deliver?
    ensures SpeechStep(s, OfHandler(i, step), HandlerNext(s, i, s.threads[i], step))
  {
  }

  lemma SameLinesAreSpeech(s: State, e: Event, s': State)
    requires s'.lines == s.lines || (IsSpeech(e) && AddsLine(s, s', e.i))
    ensures SpeechStep(s, e, s')
  {
    forall l | 0 <= l < |s.lines|
      ensures SameLine(s.lines[l], s'.lines[l])
    {
      assert s'.lines[l] == s'.lines[..|s.lines|][l];
    }
  }

  lemma SpeakerIsReady(s: State, i: Sid)
    requires Inv(s) && i < |s.threads| && (s.threads[i].pc.Speaking? || s.threads[i].pc.Paging?)
    ensures i in s.names
    ensures s.threads[i].pc.Speaking? && s.threads[i].room != [] ==> s.threads[i].room in s.rooms
  {
    InvOwn(s, i);
    if s.threads[i].pc.Speaking? && s.threads[i].room != [] {
      RoomAudience(s, i);
    }
  }

  lemma HandlerSpeech(s: State, i: Sid, step: HandlerStep)
    requires Inv(s) && i < |s.threads| && HandlerEnabled(s, s.threads[i], step)
    ensures SpeechStep(s, OfHandler(i, step), HandlerNext(s, i, s.threads[i], step))
  {
    if step.Deliver? {
      DeliveryKeepsLines(s, i, step);
      return;
    }
    if step.Speak? {
      SpeakerIsReady(s, i);
      SpeakAddsLine(s, i);
    } else if step.Page? {
      SpeakerIsReady(s, i);
      PageAddsLine(s, i);
    } else {
      HandlerFrame(s, i, s.threads[i], step);
    }
    SameLinesAreSpeech(s, OfHandler(i, step), HandlerNext(s, i, s.threads[i], step));
  }

  lemma MainSpeech(s: State, act: MainStep)
    requires MainEnabled(s, act)
    ensures SpeechStep(s, OfMain(act), MainNext(s, act)) && MainNext(s, act).lines == s.lines
  {
  }

  lemma StepSpeech(s: State, e: Event)
    requires Inv(s) && Enabled(s, e)
    ensures SpeechStep(s, e, Next(s, e))
  {
    match e
    case OfHandler(i, step) => HandlerSpeech(s, i, step);
    case OfMain(act) => MainSpeech(s, act);
  }

  lemma RunSpeech(states: seq<State>, events: seq<Event>, k: nat)
    requires IsRun(states, events) && k < |events|
    ensures SpeechStep(states[k], events[k], states[k + 1])
  {
    RunKeepsInv(states, events, k);
    StepSpeech(states[k], events[k]);
  }

  lemma SnapshotOfSame(s: State, i: Sid, line: Line, line': Line)
    requires Snapshot(s, i, line) && SameLine(line, line')
    ensures Snapshot(s, i, line')
  {
  }

  lemma {:induction false} SnapshotAlong(states: seq<State>, events: seq<Event>, n: nat, l: nat) returns (k: nat)
    requires |states| == |events| + 1 && states[0].lines == []
    requires forall m :: 0 <= m < |events| ==> SpeechStep(states[m], events[m], states[m + 1])
    requires n <= |events| && l < |states[n].lines|
    ensures k < n && |states[k].lines| == l && IsSpeech(events[k])
    ensures Snapshot(states[k], events[k].i, states[n].lines[l])
  {
    if n == 0 {
      assert false;
    } else {
      assert SpeechStep(states[n - 1], events[n - 1], states[n - 1 + 1]);
      if l < |states[n - 1].lines| {
        k := SnapshotAlong(states, events, n - 1, l);
        SnapshotOfSame(states[k], events[k].i, states[n - 1].lines[l], states[n].lines[l]);
      } else {
        k := n - 1;
      }
    }
  }

  /** Every line of a run was a snapshot of the state in which its speaker took it. */
  lemma LineIsSnapshot(states: seq<State>, events: seq<Event>, l: nat) returns (k: nat)
    requires IsRun(states, events) && l < |states[|events|].lines|
    ensures k < |events| && |states[k].lines| == l && IsSpeech(events[k])
    ensures Snapshot(states[k], events[k].i, states[|events|].lines[l])
    ensures Enabled(states[k], events[k])
  {
    forall m | 0 <= m < |events|
      ensures SpeechStep(states[m], events[m], states[m + 1])
    {
      RunSpeech(states, events, m);
    }
    k := SnapshotAlong(states, events, |events|, l);
  }

  lemma RoomIsWhereHandlersAre(s: State, room: Bytes, x: Sid)
    requires Inv(s) && room != []
    ensures Member(s.rooms, room, x) ==> x < |s.threads| && s.threads[x].room == room
    ensures x < |s.threads| && s.threads[x].pc.Chatting? && s.threads[x].room == room ==> Member(s.rooms, room, x)
  {
    if x < |s.threads| {
      InvOwn(s, x);
      MembersOf(s, x);
    }
  }

  /**
   * Room delivery and isolation: a line said in a room has as its audience exactly the members
   * of that room when it was said. They have the room as their current one, and whoever waits in
   * recv_line with that current room is among them.
   */
  lemma RoomLineGoesToTheRoom(states: seq<State>, events: seq<Event>, l: nat, x: Sid) returns (k: nat)
    requires IsRun(states, events)
    requires l < |states[|events|].lines| && states[|events|].lines[l].scope.InRoom?
    ensures k < |events| && |states[k].lines| == l && events[k] == OfHandler(states[|events|].lines[l].speaker, Speak)
    ensures var s, line := states[k], states[|events|].lines[l];
            && line.speaker < |s.threads| && s.threads[line.speaker].room == line.scope.room
            && s.threads[line.speaker].pc == Speaking(line.text)
            && (x in line.audience <==> Member(s.rooms, line.scope.room, x))
            && (x in line.audience ==> x < |s.threads| && s.threads[x].room == line.scope.room)
            && (x < |s.threads| && s.threads[x].pc.Chatting? && s.threads[x].room == line.scope.room ==>
                  x in line.audience)
  {
    k := LineIsSnapshot(states, events, l);
    RunKeepsInv(states, events, k);
    RoomIsWhereHandlersAre(states[k], states[|events|].lines[l].scope.room, x);
  }

  /** A line said in no room goes to everybody in the client list who is active and of another name. */
  lemma LineGoesToEverybody(states: seq<State>, events: seq<Event>, l: nat, x: Sid) returns (k: nat)
    requires IsRun(states, events)
    requires l < |states[|events|].lines| && states[|events|].lines[l].scope.Everyone?
    ensures k < |events| && |states[k].lines| == l && events[k] == OfHandler(states[|events|].lines[l].speaker, Speak)
    ensures var s, line := states[k], states[|events|].lines[l];
            && line.speaker < |s.threads| && s.threads[line.speaker].room == []
            && s.threads[line.speaker].pc == Speaking(line.text)
            && (x in line.audience <==> x in s.clients.list && IsActive(s, x) && NameOf(s, x) != line.sender)
  {
    k := LineIsSnapshot(states, events, l);
  }

  /** A private message goes to the session that the index gave for the name, and to no other. */
  lemma PmGoesToTheIndexed(states: seq<State>, events: seq<Event>, l: nat, x: Sid) returns (k: nat)
    requires IsRun(states, events)
    requires l < |states[|events|].lines| && states[|events|].lines[l].scope.OneUser?
    ensures k < |events| && |states[k].lines| == l && events[k] == OfHandler(states[|events|].lines[l].speaker, Page)
    ensures var s, line := states[k], states[|events|].lines[l];
            && line.speaker < |s.threads| && s.threads[line.speaker].pc == Paging(line.scope.to, line.text)
            && line.scope.to in s.clients.index && IsActive(s, s.clients.index[line.scope.to])
            && (x in line.audience <==> x == s.clients.index[line.scope.to])
  {
    k := LineIsSnapshot(states, events, l);
  }
}
