// Every step keeps the invariant.

module ServerSteps {
  import opened Accounts
  import opened ByteStrings
  import opened ChatCommands
  import opened ClientTables
  import opened RoomTables
  import opened ServerInvariant
  import opened ServerSystem

  /** What the invariant says about handler i alone. */
  ghost predicate OwnOk(s: State, i: Sid, t: Thread) {
    && ThreadOk(t, i in s.names)
    && DescriptorOk(t, SweepOf(s.main, i))
    && (i in s.clients.list ==> Connected(t))
    && (t.pc.Naming? ==> t.pc.name in s.users)
  }

  lemma InvOwn(s: State, i: Sid)
    requires Inv(s) && i < |s.threads|
    ensures OwnOk(s, i, s.threads[i]) && RoomNamesOk(s.threads[i])
  {
  }

  /** What a step that touches only handler i must respect. */
  ghost predicate OwnChange(s: State, i: Sid, t: Thread, t': Thread) {
    && OwnOk(s, i, t')
    && t'.adds == t.adds && t'.inbox == t.inbox
    && RoomNamesOk(t')
    && (t.pc.Done? ==> t'.pc.Done?)
    && (t.pc.Relaying? || t'.pc.Relaying? ==> t'.pc == t.pc)
  }

  /** The room table afterwards: nobody but i has moved. */
  ghost predicate OwnMove(s: State, i: Sid, t': Thread, rooms': Rooms<Sid>) {
    && NoEmptyRoom(rooms')
    && forall room, x: Sid {:trigger Member(rooms', room, x)} ::
         Member(rooms', room, x) <==> if x == i then RoomOf(t') == Some(room) else Member(s.rooms, room, x)
  }

  /** s' differs from s in the record of handler i, and perhaps in tables named elsewhere. */
  ghost predicate OnlyThread(s: State, s': State, i: Sid, t': Thread) {
    && i < |s.threads| && s'.threads == s.threads[i := t']
    && s'.main == s.main && s'.tids == s.tids && s'.joined == s.joined && s'.users == s.users
    && (s.main.Sweeping? ==> s'.clients == s.clients)
  }

  lemma ThreadsFrame(s: State, s': State, i: Sid, t': Thread)
    requires ThreadsOk(s) && NamesOk(s) && OnlyThread(s, s', i, t')
    requires s'.names == s.names && OwnOk(s', i, t')
    ensures ThreadsOk(s') && NamesOk(s')
  {
  }

  lemma DescriptorsFrame(s: State, s': State, i: Sid, t': Thread)
    requires DescriptorsOk(s) && OnlyThread(s, s', i, t') && DescriptorOk(t', SweepOf(s.main, i))
    ensures DescriptorsOk(s')
  {
  }

  lemma MainFrame(s: State, s': State, i: Sid, t': Thread)
    requires MainOk(s) && OnlyThread(s, s', i, t') && (s.threads[i].pc.Done? ==> t'.pc.Done?)
    ensures MainOk(s')
  {
  }

  /** The room table changes, if at all, only at i. */
  lemma RoomsFrame(s: State, s': State, i: Sid, t': Thread)
    requires RoomsOk(s) && i < |s.threads| && s'.threads == s.threads[i := t']
    requires OwnMove(s, i, t', s'.rooms) && RoomNamesOk(t')
    ensures RoomsOk(s')
  {
  }

  lemma StayIsMove(s: State, i: Sid, t': Thread)
    requires RoomsOk(s) && i < |s.threads| && RoomOf(t') == RoomOf(s.threads[i])
    ensures OwnMove(s, i, t', s.rooms)
  {
  }

  lemma OwnStep(s: State, i: Sid, t': Thread, rooms': Rooms<Sid>)
    requires Inv(s) && i < |s.threads| && OwnChange(s, i, s.threads[i], t') && OwnMove(s, i, t', rooms')
    ensures Inv(At(s, i, t').(rooms := rooms'))
  {
    var s' := At(s, i, t').(rooms := rooms');
    ThreadsFrame(s, s', i, t');
    DescriptorsFrame(s, s', i, t');
    MainFrame(s, s', i, t');
    ClientsFrame(s, s', i, t');
    RoomsFrame(s, s', i, t');
    LinesFrame(s, s');
    InboxesFrame(s, s');
  }

  lemma ClientsFrame(s: State, s': State, i: Sid, t': Thread)
    requires ClientsOk(s) && i < |s.threads| && s'.threads == s.threads[i := t']
    requires (i in s.clients.list ==> Connected(t')) && t'.adds == s.threads[i].adds
    requires s'.clients == s.clients && s'.latest == s.latest && s'.names == s.names
    ensures ClientsOk(s')
  {
  }

  /** A step of handler i that leaves its session in the same room. */
  lemma LocalStep(s: State, i: Sid, t': Thread)
    requires Inv(s) && i < |s.threads| && OwnChange(s, i, s.threads[i], t') && RoomOf(t') == RoomOf(s.threads[i])
    ensures Inv(At(s, i, t'))
  {
    StayIsMove(s, i, t');
    OwnStep(s, i, t', s.rooms);
  }

  /** The lines depend on the speakers' positions only. */
  lemma LinesFrame(s: State, s': State)
    requires LinesOk(s) && s'.lines == s.lines && |s'.threads| >= |s.threads|
    requires forall i :: i in s.names ==> i in s'.names && s'.names[i] == s.names[i]
    requires forall i :: i in s.names ==> i < |s.threads|
    requires forall i :: 0 <= i < |s.threads| ==>
               s'.threads[i].pc == s.threads[i].pc || (!s'.threads[i].pc.Relaying? && !s.threads[i].pc.Relaying?)
    requires forall i :: |s.threads| <= i < |s'.threads| ==> !s'.threads[i].pc.Relaying?
    ensures LinesOk(s')
  {
    forall l | 0 <= l < |s'.lines|
      ensures LineOk(s', l)
    {
      assert LineOk(s, l);
      assert Pending(s', l) == Pending(s, l);
    }
  }

  lemma InboxesFrame(s: State, s': State)
    requires InboxesOk(s) && s'.lines == s.lines && |s'.threads| == |s.threads|
    requires forall i :: 0 <= i < |s.threads| ==> s'.threads[i].inbox == s.threads[i].inbox
    ensures InboxesOk(s')
  {
    forall i | 0 <= i < |s'.threads|
      ensures InboxOk(s', i)
    {
      assert InboxOk(s, i);
      forall l
        ensures WasSent(s', l, i) <==> WasSent(s, l, i)
      {
      }
    }
  }

  // What the steps of a handler leave alone.

  /** Up to the chat. */
  predicate IsEarly(step: HandlerStep) {
    step.SendMenu? || step.Choose? || step.CallRegister? || step.CallAuthenticate? || step.SetName? || step.AddClient?
    || step.Enter? || step.Hear?
  }

  /** Those of them that touch only the handler's own record, with nothing heard yet. */
  predicate IsMenu(step: HandlerStep) {
    step.SendMenu? || step.Choose? || step.CallAuthenticate?
  }

  /** In the chat. */
  predicate IsChat(step: HandlerStep) {
    step.LeaveCurrent? || step.JoinCurrent? || step.Speak? || step.Page? || step.Deliver? || step.EndRelay?
  }

  /** Each table changes by the steps named for it only. */
  predicate LeavesAlone(s: State, s': State, step: HandlerStep) {
    && |s'.threads| == |s.threads|
    && (!step.SetName? ==> s'.names == s.names)
    && (!step.CallRegister? ==> s'.users == s.users)
    && (!step.AddClient? && !step.RemoveClient? ==> s'.clients == s.clients)
    && (!step.Deliver? && !step.Speak? && !step.Page? ==> s'.lines == s.lines)
  }

  lemma EarlyFrame(s: State, i: Sid, t: Thread, step: HandlerStep)
    requires i < |s.threads| && t == s.threads[i] && HandlerEnabled(s, t, step) && IsEarly(step)
    ensures LeavesAlone(s, HandlerNext(s, i, t, step), step)
  {
  }

  lemma ChatFrame(s: State, i: Sid, t: Thread, step: HandlerStep)
    requires i < |s.threads| && t == s.threads[i] && HandlerEnabled(s, t, step)
    requires step.LeaveCurrent? || step.JoinCurrent? || step.EndRelay?
    ensures LeavesAlone(s, HandlerNext(s, i, t, step), step)
  {
  }

  lemma SpeakFrame(s: State, i: Sid, t: Thread)
    requires i < |s.threads| && t == s.threads[i] && HandlerEnabled(s, t, Speak)
    ensures LeavesAlone(s, HandlerNext(s, i, t, Speak), Speak)
  {
  }

  lemma PageFrame(s: State, i: Sid, t: Thread)
    requires i < |s.threads| && t == s.threads[i] && HandlerEnabled(s, t, Page)
    ensures LeavesAlone(s, HandlerNext(s, i, t, Page), Page)
  {
  }

  lemma DeliverFrame(s: State, i: Sid, t: Thread, step: HandlerStep)
    requires i < |s.threads| && t == s.threads[i] && HandlerEnabled(s, t, step) && step.Deliver?
    ensures LeavesAlone(s, HandlerNext(s, i, t, step), step)
  {
  }

  lemma LateFrame(s: State, i: Sid, t: Thread, step: HandlerStep)
    requires i < |s.threads| && t == s.threads[i] && HandlerEnabled(s, t, step) && !IsEarly(step) && !IsChat(step)
    ensures LeavesAlone(s, HandlerNext(s, i, t, step), step)
  {
  }

  lemma HandlerFrame(s: State, i: Sid, t: Thread, step: HandlerStep)
    requires i < |s.threads| && t == s.threads[i] && HandlerEnabled(s, t, step)
    ensures LeavesAlone(s, HandlerNext(s, i, t, step), step)
  {
    if IsEarly(step) {
      EarlyFrame(s, i, t, step);
    } else if step.Deliver? {
      DeliverFrame(s, i, t, step);
    } else if step.Speak? {
      SpeakFrame(s, i, t);
    } else if step.Page? {
      PageFrame(s, i, t);
    } else if IsChat(step) {
      ChatFrame(s, i, t, step);
    } else {
      LateFrame(s, i, t, step);
    }
  }

  // Steps of a handler, by what they touch.

  lemma MenuChange(s: State, i: Sid, t: Thread)
    requires OwnOk(s, i, t) && RoomNamesOk(t)
    ensures t.pc.Menu? ==> forall sent :: (sent ==> t.active) ==> Stays(s, i, t, MenuSent(t, sent))
    ensures t.pc.Choosing? ==> forall choice :: Allowed(choice) ==> Stays(s, i, t, Chosen(t, choice))
  {
  }

  lemma VerdictChange(s: State, i: Sid, t: Thread)
    requires OwnOk(s, i, t) && RoomNamesOk(t) && (t.pc.SigningUp? || t.pc.SigningIn?)
    ensures Stays(s, i, t, Rejected(t))
    ensures t.pc.name in s.users ==> Stays(s, i, t, t.(pc := Naming(t.pc.name)))
  {
  }

  /** An own change that also keeps the session in its room. */
  ghost predicate Stays(s: State, i: Sid, t: Thread, t': Thread) {
    OwnChange(s, i, t, t') && RoomOf(t') == RoomOf(t)
  }

  lemma SwapChange(s: State, i: Sid, t: Thread)
    requires OwnOk(s, i, t) && RoomNamesOk(t)
    ensures t.deletes == 0 ==> Stays(s, i, t, t.(active := false))
    ensures (t.pc.Closing? || t.pc.Destroying?) && t.pc.stage == Swap ==> Stays(s, i, t, Swapped(t))
  {
  }

  lemma CloseChange(s: State, i: Sid, t: Thread)
    requires OwnOk(s, i, t) && RoomNamesOk(t)
    requires ((t.pc.Closing? || t.pc.Destroying?) && t.pc.stage == Close) || t.pc == Releasing(false)
    ensures Stays(s, i, t, Closed(t))
  {
  }

  lemma MarkChange(s: State, i: Sid, t: Thread)
    requires OwnOk(s, i, t) && RoomNamesOk(t)
    requires ((t.pc.Closing? || t.pc.Destroying?) && t.pc.stage == Mark) || t.pc == Releasing(true)
    ensures Stays(s, i, t, Marked(t))
  {
  }

  lemma MoveChange(s: State, i: Sid, t: Thread, command: Command)
    requires OwnOk(s, i, t) && RoomNamesOk(t) && t.pc.Chatting? && (command.JoinRoom? || command.LeaveRoom?)
    requires command.JoinRoom? ==> IsWord(command.room)
    ensures Stays(s, i, t, Obeyed(t, command))
  {
  }

  lemma TalkChange(s: State, i: Sid, t: Thread, command: Command)
    requires OwnOk(s, i, t) && RoomNamesOk(t) && t.pc.Chatting? && !command.JoinRoom? && !command.LeaveRoom?
    ensures Stays(s, i, t, Obeyed(t, command))
  {
  }

  lemma ObeyChange(s: State, i: Sid, t: Thread, command: Command)
    requires OwnOk(s, i, t) && RoomNamesOk(t) && t.pc.Chatting?
    requires command.JoinRoom? ==> IsWord(command.room)
    ensures Stays(s, i, t, Obeyed(t, command))
  {
    if command.JoinRoom? || command.LeaveRoom? {
      MoveChange(s, i, t, command);
    } else {
      TalkChange(s, i, t, command);
    }
  }

  lemma SignUpStep(s: State, i: Sid, written: bool)
    requires Inv(s) && i < |s.threads| && HandlerEnabled(s, s.threads[i], CallRegister(written))
    ensures Inv(HandlerNext(s, i, s.threads[i], CallRegister(written)))
  {
    var t := s.threads[i];
    InvOwn(s, i);
    VerdictChange(s, i, t);
    if t.pc.name in s.users || !written {
      LocalStep(s, i, Rejected(t));
    } else {
      var grown := s.(users := s.users[t.pc.name := t.pc.password]);
      GrowUsers(s, t.pc.name, t.pc.password);
      VerdictChange(grown, i, t);
      LocalStep(grown, i, t.(pc := Naming(t.pc.name)));
    }
  }

  lemma GrowUsers(s: State, name: Bytes, password: Bytes)
    requires Inv(s) && ValidUsername(name)
    ensures Inv(s.(users := s.users[name := password]))
  {
    var s' := s.(users := s.users[name := password]);
    assert NamesOk(s');
    LinesFrame(s, s');
    InboxesFrame(s, s');
  }

  // Steps that touch only the handler's own record.

  lemma MenuStep(s: State, i: Sid, step: HandlerStep)
    requires Inv(s) && i < |s.threads| && HandlerEnabled(s, s.threads[i], step)
    requires IsMenu(step)
    ensures Inv(HandlerNext(s, i, s.threads[i], step))
  {
    var t := s.threads[i];
    InvOwn(s, i);
    match step
    case SendMenu(sent) =>
      MenuChange(s, i, t);
      LocalStep(s, i, MenuSent(t, sent));
    case Choose(choice) =>
      MenuChange(s, i, t);
      LocalStep(s, i, Chosen(t, choice));
    case CallAuthenticate =>
      VerdictChange(s, i, t);
      LocalStep(s, i, if t.pc.name in s.users && s.users[t.pc.name] == t.pc.password
                      then t.(pc := Naming(t.pc.name)) else Rejected(t));
  }

  lemma HearStep(s: State, i: Sid, line: Bytes)
    requires Inv(s) && i < |s.threads| && s.threads[i].pc.Chatting?
    ensures Inv(At(s, i, Heard(s.threads[i], line)))
  {
    InvOwn(s, i);
    HeardChange(s, i, s.threads[i], line);
    LocalStep(s, i, Heard(s.threads[i], line));
  }

  lemma HeardChange(s: State, i: Sid, t: Thread, line: Bytes)
    requires OwnOk(s, i, t) && RoomNamesOk(t) && t.pc.Chatting?
    ensures Stays(s, i, t, Heard(t, line))
  {
    if line == [] {
      ObeyChange(s, i, t, Quit);
    } else {
      if LineCommand(line).JoinRoom? {
        JoinedRoomOfLine(line);
      }
      ObeyChange(s, i, t, LineCommand(line));
    }
  }

  lemma FlagStep(s: State, i: Sid, step: HandlerStep)
    requires Inv(s) && i < |s.threads| && HandlerEnabled(s, s.threads[i], step)
    requires step.SendFails? || step.SwapActive?
    ensures Inv(HandlerNext(s, i, s.threads[i], step))
  {
    var t := s.threads[i];
    InvOwn(s, i);
    SwapChange(s, i, t);
    LocalStep(s, i, if step.SendFails? then t.(active := false) else Swapped(t));
  }

  lemma CloseStep(s: State, i: Sid, step: HandlerStep)
    requires Inv(s) && i < |s.threads| && HandlerEnabled(s, s.threads[i], step)
    requires step.CloseFd? || step.MarkFd?
    ensures Inv(HandlerNext(s, i, s.threads[i], step))
  {
    var t := s.threads[i];
    InvOwn(s, i);
    if step.CloseFd? {
      CloseChange(s, i, t);
      LocalStep(s, i, Closed(t));
    } else {
      MarkChange(s, i, t);
      LocalStep(s, i, Marked(t));
    }
  }

  // Steps on the room table.

  lemma EnterChange(s: State, i: Sid, t: Thread)
    requires OwnOk(s, i, t) && RoomNamesOk(t)
    ensures t.pc.Entering? || t.pc.Joining? ==>
              OwnChange(s, i, t, t.(pc := Chatting)) && RoomOf(t.(pc := Chatting)) == Some(t.room) && RoomOf(t) == None
    ensures t.pc.Leaving? ==>
              OwnChange(s, i, t, Departed(t)) && RoomOf(Departed(t)) == None && RoomOf(t) == Some(t.room)
    ensures t.pc.LeavingAll? ==> OwnChange(s, i, t, t.(pc := Removing)) && RoomOf(t.(pc := Removing)) == None
  {
    assert IsWord(LOBBY);
  }

  lemma JoinStep(s: State, i: Sid)
    requires Inv(s) && i < |s.threads| && (s.threads[i].pc.Entering? || s.threads[i].pc.Joining?)
    ensures Inv(At(s, i, s.threads[i].(pc := Chatting)).(rooms := Join(s.rooms, s.threads[i].room, i)))
  {
    var t := s.threads[i];
    InvOwn(s, i);
    EnterChange(s, i, t);
    MembersOf(s, i);
    JoinMembers(s.rooms, t.room, i);
    OwnStep(s, i, t.(pc := Chatting), Join(s.rooms, t.room, i));
  }

  lemma LeaveStep(s: State, i: Sid)
    requires Inv(s) && i < |s.threads| && s.threads[i].pc.Leaving?
    ensures Inv(At(s, i, Departed(s.threads[i])).(rooms := Leave(s.rooms, s.threads[i].room, i)))
  {
    var t := s.threads[i];
    InvOwn(s, i);
    EnterChange(s, i, t);
    MembersOf(s, i);
    LeaveMembers(s.rooms, t.room, i);
    OwnStep(s, i, Departed(t), Leave(s.rooms, t.room, i));
  }

  lemma LeaveAllStep(s: State, i: Sid)
    requires Inv(s) && i < |s.threads| && s.threads[i].pc.LeavingAll?
    ensures Inv(At(s, i, s.threads[i].(pc := Removing)).(rooms := LeaveAll(s.rooms, i)))
  {
    var t := s.threads[i];
    InvOwn(s, i);
    EnterChange(s, i, t);
    LeaveAllMembers(s.rooms, i);
    OwnStep(s, i, t.(pc := Removing), LeaveAll(s.rooms, i));
  }

  lemma MembersOf(s: State, i: Sid)
    requires Inv(s) && i < |s.threads|
    ensures forall room :: Member(s.rooms, room, i) <==> RoomOf(s.threads[i]) == Some(room)
  {
  }

  // Steps on the client list.

  /** Everything but client list and name table follows from the handler's own record. */
  lemma OwnStepFrame(s: State, s': State, i: Sid, t': Thread)
    requires Inv(s) && OnlyThread(s, s', i, t')
    requires s'.rooms == s.rooms && s'.lines == s.lines
    requires ThreadsOk(s') && NamesOk(s') && ClientsOk(s')
    requires forall x :: x in s.names ==> x in s'.names && s'.names[x] == s.names[x]
    requires DescriptorOk(t', SweepOf(s.main, i)) && RoomNamesOk(t') && RoomOf(t') == RoomOf(s.threads[i])
    requires t'.inbox == s.threads[i].inbox && !s.threads[i].pc.Done?
    requires !s.threads[i].pc.Relaying? && !t'.pc.Relaying?
    ensures Inv(s')
  {
    PlaceFrame(s, s', i, t');
    SilentFrame(s, s', i, t');
  }

  /** A handler that speaks neither before nor afterwards leaves the lines alone. */
  lemma SilentFrame(s: State, s': State, i: Sid, t': Thread)
    requires LinesOk(s) && InboxesOk(s) && OnlyThread(s, s', i, t') && s'.lines == s.lines
    requires forall x :: x in s.names ==> x < |s.threads| && x in s'.names && s'.names[x] == s.names[x]
    requires t'.inbox == s.threads[i].inbox && !s.threads[i].pc.Relaying? && !t'.pc.Relaying?
    ensures LinesOk(s') && InboxesOk(s')
  {
    LinesFrame(s, s');
    InboxesFrame(s, s');
  }

  lemma PlaceFrame(s: State, s': State, i: Sid, t': Thread)
    requires DescriptorsOk(s) && MainOk(s) && RoomsOk(s)
    requires OnlyThread(s, s', i, t') && s'.rooms == s.rooms && (s.threads[i].pc.Done? ==> t'.pc.Done?)
    requires DescriptorOk(t', SweepOf(s.main, i)) && RoomNamesOk(t') && RoomOf(t') == RoomOf(s.threads[i])
    ensures DescriptorsOk(s') && MainOk(s') && RoomsOk(s')
  {
    DescriptorsFrame(s, s', i, t');
    MainFrame(s, s', i, t');
    StayIsMove(s, i, t');
    RoomsFrame(s, s', i, t');
  }

  lemma SetNameStep(s: State, i: Sid)
    requires Inv(s) && i < |s.threads| && s.threads[i].pc.Naming?
    ensures Inv(HandlerNext(s, i, s.threads[i], SetName))
  {
    var t := s.threads[i];
    var s' := HandlerNext(s, i, t, SetName);
    InvOwn(s, i);
    var t' := t.(pc := Adding);
    SetNameTables(s, s', i);
    OwnStepFrame(s, s', i, t');
  }

  lemma SetNameTables(s: State, s': State, i: Sid)
    requires ThreadsOk(s) && NamesOk(s) && ClientsOk(s)
    requires i < |s.threads| && s.threads[i].pc.Naming? && i !in s.clients.list
    requires s' == At(s, i, s.threads[i].(pc := Adding)).(names := s.names[i := s.threads[i].pc.name])
    ensures ThreadsOk(s') && NamesOk(s') && ClientsOk(s')
  {
    assert ThreadOk(s.threads[i], i in s.names);
    SetNameClients(s, s', i, s.threads[i].(pc := Adding));
  }

  lemma SetNameClients(s: State, s': State, i: Sid, t': Thread)
    requires ClientsOk(s) && i < |s.threads| && s.threads[i].pc.Naming?
    requires i !in s.names && i !in s.clients.list
    requires t'.adds == s.threads[i].adds
    requires s'.threads == s.threads[i := t'] && s'.clients == s.clients && s'.latest == s.latest
    requires s'.names == s.names[i := s.threads[i].pc.name]
    ensures ClientsOk(s')
  {
    NamingKeepsIndexed(s.clients, s.latest, s.names, i, s.threads[i].pc.name);
  }

  lemma AddClientStep(s: State, i: Sid)
    requires Inv(s) && i < |s.threads| && HandlerEnabled(s, s.threads[i], AddClient)
    ensures Inv(HandlerNext(s, i, s.threads[i], AddClient))
  {
    InvOwn(s, i);
    ClientAdded(s, HandlerNext(s, i, s.threads[i], AddClient), i);
  }

  lemma ClientAdded(s: State, s': State, i: Sid)
    requires Inv(s) && i < |s.threads| && s.threads[i].pc.Adding? && BroadcastFree(s)
    requires OwnOk(s, i, s.threads[i]) && RoomNamesOk(s.threads[i])
    requires s' == At(s, i, s.threads[i].(pc := Entering, adds := s.threads[i].adds + 1))
                     .(clients := Add(s.clients, i, NameOf(s, i)), latest := s.latest[NameOf(s, i) := i])
    ensures Inv(s')
  {
    var t' := s.threads[i].(pc := Entering, adds := s.threads[i].adds + 1);
    AddClientTable(s, s', i);
    EnteringIsOk(s.threads[i], SweepOf(s.main, i));
    ThreadsFrame(s, s', i, t');
    OwnStepFrame(s, s', i, t');
  }

  lemma EnteringIsOk(t: Thread, sweep: Stage)
    requires ThreadOk(t, true) && DescriptorOk(t, sweep) && RoomNamesOk(t) && t.pc.Adding?
    ensures var t' := t.(pc := Entering, adds := t.adds + 1);
            && ThreadOk(t', true) && DescriptorOk(t', sweep) && RoomNamesOk(t') && Connected(t')
            && RoomOf(t') == RoomOf(t)
  {
  }

  lemma AddClientTable(s: State, s': State, i: Sid)
    requires ClientsOk(s) && i < |s.threads| && i in s.names
    requires s.threads[i].pc.Adding? && s.threads[i].adds == 0
    requires s'.threads == s.threads[i := s.threads[i].(pc := Entering, adds := 1)] && s'.names == s.names
    requires s'.clients == Add(s.clients, i, s.names[i]) && s'.latest == s.latest[s.names[i] := i]
    ensures ClientsOk(s')
  {
    AddKeepsIndexed(s.clients, s.latest, s.names, i);
  }

  lemma RemoveClientStep(s: State, i: Sid)
    requires Inv(s) && i < |s.threads| && HandlerEnabled(s, s.threads[i], RemoveClient)
    ensures Inv(HandlerNext(s, i, s.threads[i], RemoveClient))
  {
    InvOwn(s, i);
    ClientRemoved(s, HandlerNext(s, i, s.threads[i], RemoveClient), i);
  }

  lemma ClientRemoved(s: State, s': State, i: Sid)
    requires Inv(s) && i < |s.threads| && s.threads[i].pc.Removing? && BroadcastFree(s)
    requires OwnOk(s, i, s.threads[i]) && RoomNamesOk(s.threads[i])
    requires s' == At(s, i, s.threads[i].(pc := Closing(Swap))).(clients := Remove(s.clients, i, NameOf(s, i)))
    ensures Inv(s')
  {
    var t' := s.threads[i].(pc := Closing(Swap));
    RemoveClientTable(s, s', i);
    ClosingIsOk(s.threads[i], SweepOf(s.main, i));
    ThreadsFrame(s, s', i, t');
    OwnStepFrame(s, s', i, t');
  }

  lemma ClosingIsOk(t: Thread, sweep: Stage)
    requires ThreadOk(t, true) && DescriptorOk(t, sweep) && RoomNamesOk(t) && t.pc.Removing? && sweep == Swap
    ensures var t' := t.(pc := Closing(Swap));
            ThreadOk(t', true) && DescriptorOk(t', sweep) && RoomNamesOk(t') && RoomOf(t') == RoomOf(t)
  {
  }

  lemma RemoveClientTable(s: State, s': State, i: Sid)
    requires ClientsOk(s) && i < |s.threads|
    requires s'.threads == s.threads[i := s.threads[i].(pc := Closing(Swap))] && s'.names == s.names
    requires s'.clients == Remove(s.clients, i, NameOf(s, i)) && s'.latest == s.latest
    ensures ClientsOk(s') && i !in s'.clients.list
  {
    RemoveKeepsIndexed(s.clients, s.latest, s.names, i, NameOf(s, i));
    WithoutElements(s.clients.list, i);
  }

  // Steps of a relay.

  /** The invariant but for the lines and the inboxes. */
  ghost predicate TablesOk(s: State) {
    ThreadsOk(s) && NamesOk(s) && DescriptorsOk(s) && MainOk(s) && ClientsOk(s) && RoomsOk(s)
  }

  lemma RelayStep(s: State, i: Sid, scope: Scope, text: Bytes, audience: set<Sid>)
    requires Inv(s) && i < |s.threads| && (s.threads[i].pc.Speaking? || s.threads[i].pc.Paging?)
    requires forall x :: x in audience ==> x < |s.threads| && x in s.names
    requires scope.InRoom? ==> IsWord(scope.room)
    ensures Inv(Relay(s, i, scope, text, audience))
  {
    InvOwn(s, i);
    RelayTables(s, i, scope, text, audience);
    RelayLines(s, i, scope, text, audience);
    RelayInboxes(s, i, scope, text, audience);
  }

  lemma RelayTables(s: State, i: Sid, scope: Scope, text: Bytes, audience: set<Sid>)
    requires TablesOk(s) && i < |s.threads| && (s.threads[i].pc.Speaking? || s.threads[i].pc.Paging?)
    requires OwnOk(s, i, s.threads[i]) && RoomNamesOk(s.threads[i])
    ensures TablesOk(Relay(s, i, scope, text, audience))
  {
    var t' := s.threads[i].(pc := Relaying(|s.lines|, audience));
    RelayChange(s, i, s.threads[i], |s.lines|, audience);
    PositionFrame(s, Relay(s, i, scope, text, audience), i, t');
  }

  lemma RelayChange(s: State, i: Sid, t: Thread, l: nat, audience: set<Sid>)
    requires OwnOk(s, i, t) && RoomNamesOk(t) && (t.pc.Speaking? || t.pc.Paging?)
    ensures var t' := t.(pc := Relaying(l, audience)); OwnOk(s, i, t') && RoomNamesOk(t') && RoomOf(t') == RoomOf(t)
  {
  }

  /** Into, within or out of a relay only the handler's position changes. */
  lemma PositionFrame(s: State, s': State, i: Sid, t': Thread)
    requires TablesOk(s)
    requires OnlyThread(s, s', i, t') && OwnOk(s, i, t') && RoomNamesOk(t')
    requires s'.names == s.names && s'.clients == s.clients && s'.latest == s.latest && s'.rooms == s.rooms
    requires RoomOf(t') == RoomOf(s.threads[i]) && t'.adds == s.threads[i].adds
    requires s.threads[i].pc.Done? ==> t'.pc.Done?
    ensures TablesOk(s')
  {
    ThreadsFrame(s, s', i, t');
    PlaceFrame(s, s', i, t');
    ClientsFrame(s, s', i, t');
  }

  lemma RelayLines(s: State, i: Sid, scope: Scope, text: Bytes, audience: set<Sid>)
    requires LinesOk(s) && i < |s.threads| && !s.threads[i].pc.Relaying? && i in s.names
    requires forall x :: x in audience ==> x < |s.threads| && x in s.names
    requires scope.InRoom? ==> IsWord(scope.room)
    ensures LinesOk(Relay(s, i, scope, text, audience))
  {
    var s' := Relay(s, i, scope, text, audience);
    forall l | 0 <= l < |s'.lines|
      ensures LineOk(s', l)
    {
      if l < |s.lines| {
        assert LineOk(s, l) && Pending(s', l) == Pending(s, l);
      } else {
        assert Pending(s', l) == audience;
      }
    }
  }

  lemma RelayInboxes(s: State, i: Sid, scope: Scope, text: Bytes, audience: set<Sid>)
    requires InboxesOk(s) && i < |s.threads|
    ensures InboxesOk(Relay(s, i, scope, text, audience))
  {
    var s' := Relay(s, i, scope, text, audience);
    forall x | 0 <= x < |s'.threads|
      ensures InboxOk(s', x)
    {
      assert InboxOk(s, x);
      forall l
        ensures WasSent(s', l, x) <==> WasSent(s, l, x)
      {
      }
    }
  }

  lemma EndRelayStep(s: State, i: Sid)
    requires Inv(s) && i < |s.threads| && HandlerEnabled(s, s.threads[i], EndRelay)
    ensures Inv(HandlerNext(s, i, s.threads[i], EndRelay))
  {
    InvOwn(s, i);
    RelayEnded(s, HandlerNext(s, i, s.threads[i], EndRelay), i);
  }

  lemma RelayEnded(s: State, s': State, i: Sid)
    requires Inv(s) && i < |s.threads| && s.threads[i].pc.Relaying? && s.threads[i].pc.rest == {}
    requires OwnOk(s, i, s.threads[i]) && RoomNamesOk(s.threads[i])
    requires s' == At(s, i, s.threads[i].(pc := Chatting))
    ensures Inv(s')
  {
    EndChange(s, i, s.threads[i]);
    PositionFrame(s, s', i, s.threads[i].(pc := Chatting));
    EndRelayLines(s, s', i);
    InboxesFrame(s, s');
  }

  lemma EndChange(s: State, i: Sid, t: Thread)
    requires OwnOk(s, i, t) && RoomNamesOk(t) && t.pc.Relaying?
    ensures var t' := t.(pc := Chatting); OwnOk(s, i, t') && RoomNamesOk(t') && RoomOf(t') == RoomOf(t)
  {
  }

  lemma EndRelayLines(s: State, s': State, i: Sid)
    requires LinesOk(s) && i < |s.threads| && s.threads[i].pc.Relaying? && s.threads[i].pc.rest == {}
    requires s' == At(s, i, s.threads[i].(pc := Chatting))
    ensures LinesOk(s')
  {
    forall l | 0 <= l < |s'.lines|
      ensures LineOk(s', l)
    {
      assert LineOk(s, l) && Pending(s', l) == Pending(s, l);
    }
  }

  lemma SpeakStep(s: State, i: Sid)
    requires Inv(s) && i < |s.threads| && HandlerEnabled(s, s.threads[i], Speak)
    ensures Inv(HandlerNext(s, i, s.threads[i], Speak))
  {
    var t := s.threads[i];
    InvOwn(s, i);
    if t.room == [] {
      RelayStep(s, i, Everyone, t.pc.text, ActiveOthers(s, NameOf(s, i)));
    } else {
      RoomAudience(s, i);
      assert forall x :: x in s.rooms[t.room] ==> ThreadOk(s.threads[x], x in s.names);
      RelayStep(s, i, InRoom(t.room), t.pc.text, s.rooms[t.room]);
    }
  }

  /** The room lookup of a speaker never misses, and its members are in that room. */
  lemma RoomAudience(s: State, i: Sid)
    requires RoomsOk(s) && i < |s.threads| && RoomOf(s.threads[i]).Some?
    ensures var room := RoomOf(s.threads[i]).value;
            && room in s.rooms
            && forall x :: x in s.rooms[room] ==> x < |s.threads| && RoomOf(s.threads[x]) == Some(room)
  {
    var room := RoomOf(s.threads[i]).value;
    assert Member(s.rooms, room, i);
    forall x: Sid | x in s.rooms[room]
      ensures x < |s.threads| && RoomOf(s.threads[x]) == Some(room)
    {
      assert Member(s.rooms, room, x);
    }
  }

  lemma PageStep(s: State, i: Sid)
    requires Inv(s) && i < |s.threads| && HandlerEnabled(s, s.threads[i], Page)
    ensures Inv(HandlerNext(s, i, s.threads[i], Page))
  {
    var t := s.threads[i];
    InvOwn(s, i);
    if t.pc.to in s.clients.index && IsActive(s, s.clients.index[t.pc.to]) {
      RelayStep(s, i, OneUser(t.pc.to), t.pc.text, {s.clients.index[t.pc.to]});
    } else {
      IdleChange(s, i, t);
      LocalStep(s, i, t.(pc := Chatting));
    }
  }

  lemma IdleChange(s: State, i: Sid, t: Thread)
    requires OwnOk(s, i, t) && RoomNamesOk(t) && t.pc.Paging?
    ensures Stays(s, i, t, t.(pc := Chatting))
  {
  }

  lemma DeliverStep(s: State, i: Sid, to: Sid, sent: bool)
    requires Inv(s) && i < |s.threads| && HandlerEnabled(s, s.threads[i], Deliver(to, sent))
    ensures Inv(HandlerNext(s, i, s.threads[i], Deliver(to, sent)))
  {
    var t := s.threads[i];
    InvOwn(s, i);
    InvOwn(s, to);
    DeliverTables(s, i, t.pc.line, t.pc.rest, to, sent);
    DeliverLines(s, i, t.pc.line, t.pc.rest, to, sent);
    DeliverInboxes(s, i, t.pc.line, t.pc.rest, to, sent);
  }

  lemma DeliverTables(s: State, i: Sid, l: nat, rest: set<Sid>, to: Sid, sent: bool)
    requires TablesOk(s)
    requires i < |s.threads| && l < |s.lines| && to < |s.threads| && s.threads[i].pc == Relaying(l, rest)
    requires OwnOk(s, i, s.threads[i]) && RoomNamesOk(s.threads[i])
    requires OwnOk(s, to, s.threads[to]) && RoomNamesOk(s.threads[to])
    ensures TablesOk(Delivered(s, i, l, rest, to, sent))
  {
    var t := s.threads[i];
    var s1 := At(s, i, t.(pc := Relaying(l, rest - {to})));
    RestTables(s, s1, i, rest - {to});
    if to == i {
      RestChange(s, i, t, rest - {to});
    }
    ReceiverChange(s, s1, i, l, rest, to, sent);
    ReceiverTables(s1, Delivered(s, i, l, rest, to, sent), to);
  }

  lemma RestTables(s: State, s1: State, i: Sid, rest: set<Sid>)
    requires TablesOk(s) && i < |s.threads| && s.threads[i].pc.Relaying?
    requires OwnOk(s, i, s.threads[i]) && RoomNamesOk(s.threads[i])
    requires s1 == At(s, i, s.threads[i].(pc := Relaying(s.threads[i].pc.line, rest)))
    ensures TablesOk(s1)
  {
    RestChange(s, i, s.threads[i], rest);
    PositionFrame(s, s1, i, s.threads[i].(pc := Relaying(s.threads[i].pc.line, rest)));
  }

  /** At the receiver a delivery adds to the inbox, clears `active`, or changes nothing. */
  ghost predicate OnlyReceived(s: State, s': State, to: Sid)
    requires to < |s.threads|
  {
    && |s'.threads| == |s.threads| && OnlyThread(s, s', to, s'.threads[to])
    && s'.names == s.names && s'.clients == s.clients && s'.latest == s.latest && s'.rooms == s.rooms
    && var t, t' := s.threads[to], s'.threads[to];
       t' == t.(inbox := t'.inbox) || (!IsDying(t.pc) && t' == t.(active := false))
  }

  lemma ReceiverChange(s: State, s1: State, i: Sid, l: nat, rest: set<Sid>, to: Sid, sent: bool)
    requires i < |s.threads| && l < |s.lines| && to < |s.threads| && s.threads[i].pc == Relaying(l, rest)
    requires s1 == At(s, i, s.threads[i].(pc := Relaying(l, rest - {to})))
    ensures OnlyReceived(s1, Delivered(s, i, l, rest, to, sent), to)
  {
  }

  lemma ReceiverTables(s: State, s': State, to: Sid)
    requires TablesOk(s) && to < |s.threads| && OwnOk(s, to, s.threads[to]) && RoomNamesOk(s.threads[to])
    requires OnlyReceived(s, s', to)
    ensures TablesOk(s')
  {
    var t := s.threads[to];
    if !IsDying(t.pc) {
      SwapChange(s, to, t);
    }
    InboxChange(s, to, t, s'.threads[to].inbox);
    PositionFrame(s, s', to, s'.threads[to]);
  }

  lemma RestChange(s: State, i: Sid, t: Thread, rest: set<Sid>)
    requires OwnOk(s, i, t) && RoomNamesOk(t) && t.pc.Relaying?
    ensures var t' := t.(pc := Relaying(t.pc.line, rest)); OwnOk(s, i, t') && RoomNamesOk(t') && RoomOf(t') == RoomOf(t)
  {
  }

  lemma InboxChange(s: State, i: Sid, t: Thread, inbox: seq<nat>)
    requires OwnOk(s, i, t) && RoomNamesOk(t)
    ensures var t' := t.(inbox := inbox); OwnOk(s, i, t') && RoomNamesOk(t') && RoomOf(t') == RoomOf(t)
  {
  }

  lemma DeliverLines(s: State, i: Sid, l: nat, rest: set<Sid>, to: Sid, sent: bool)
    requires LinesOk(s) && i < |s.threads| && s.threads[i].pc == Relaying(l, rest) && to in rest && to < |s.threads|
    requires l < |s.lines|
    ensures LinesOk(Delivered(s, i, l, rest, to, sent))
  {
    var s' := Delivered(s, i, l, rest, to, sent);
    assert LineOk(s, l);
    assert Pending(s, l) == rest && Pending(s', l) == rest - {to};
    forall l' | 0 <= l' < |s'.lines|
      ensures LineOk(s', l')
    {
      assert LineOk(s, l');
      if l' != l {
        assert Pending(s', l') == Pending(s, l');
      }
    }
  }

  lemma DeliverInboxes(s: State, i: Sid, l: nat, rest: set<Sid>, to: Sid, sent: bool)
    requires LinesOk(s) && InboxesOk(s)
    requires i < |s.threads| && s.threads[i].pc == Relaying(l, rest) && to in rest && to < |s.threads|
    requires l < |s.lines|
    ensures InboxesOk(Delivered(s, i, l, rest, to, sent))
  {
    var s' := Delivered(s, i, l, rest, to, sent);
    assert LineOk(s, l) && Pending(s, l) == rest;
    forall x | 0 <= x < |s'.threads|
      ensures InboxOk(s', x)
    {
      assert InboxOk(s, x);
      assert !WasSent(s, l, to);
      forall l'
        ensures WasSent(s', l', x) <==> WasSent(s, l', x) || (l' == l && x == to && s'.lines[l].fates[to] == Sent)
      {
      }
    }
  }

  // Steps of the main thread.

  lemma SpawnStep(s: State)
    requires Inv(s) && s.main.Accepting?
    ensures Inv(MainNext(s, Spawn))
  {
    var s' := MainNext(s, Spawn);
    var n := |s.threads|;
    assert Iota(n + 1) == Iota(n) + [n];
    assert s'.joined + TodoOf(s'.main) + s'.tids == s.joined + TodoOf(s.main) + s.tids + [n];
    SpawnTables(s, s');
    SpawnPlaces(s, s');
    LinesFrame(s, s');
    SpawnInboxes(s, s');
  }

  lemma SpawnTables(s: State, s': State)
    requires ThreadsOk(s) && NamesOk(s) && DescriptorsOk(s) && s.main.Accepting?
    requires s'.threads == s.threads + [NEW_THREAD] && s'.names == s.names && s'.users == s.users && s'.main == s.main
    ensures ThreadsOk(s') && NamesOk(s') && DescriptorsOk(s')
  {
  }

  lemma SpawnPlaces(s: State, s': State)
    requires ClientsOk(s) && RoomsOk(s) && s'.threads == s.threads + [NEW_THREAD] && s'.names == s.names
    requires s'.clients == s.clients && s'.latest == s.latest && s'.rooms == s.rooms
    ensures ClientsOk(s') && RoomsOk(s')
  {
    assert IsWord(LOBBY);
  }

  lemma SpawnInboxes(s: State, s': State)
    requires LinesOk(s) && InboxesOk(s) && (forall x :: x in s.names ==> x < |s.threads|)
    requires s'.threads == s.threads + [NEW_THREAD] && s'.lines == s.lines
    ensures InboxesOk(s')
  {
    forall x | 0 <= x < |s'.threads|
      ensures InboxOk(s', x)
    {
      if x < |s.threads| {
        assert InboxOk(s, x);
      }
      forall l: nat
        ensures WasSent(s', l, x) <==> x < |s.threads| && WasSent(s, l, x)
      {
        if l < |s.lines| {
          assert LineOk(s, l);
        }
      }
    }
  }

  /** shutdown_all at the client it has reached. */
  lemma SweepStep(s: State, i: Sid, act: MainStep)
    requires Inv(s) && MainEnabled(s, act) && (act.SweepSwap? || act.SweepClose? || act.SweepMark?)
    requires i == s.main.todo[0]
    ensures Inv(MainNext(s, act))
  {
    SweptIsConnected(s, i);
    SweepChange(s, i, act);
    SweepKeepsInv(s, MainNext(s, act), i);
  }

  lemma SweepKeepsInv(s: State, s': State, i: Sid)
    requires Inv(s) && i < |s.threads| && Connected(s.threads[i]) && OneSwept(s, s', i)
    ensures Inv(s')
  {
    SweepDescriptors(s, s', i);
    SweepTables(s, s', i, s'.threads[i]);
    SweepMain(s, s', i);
  }

  lemma SweptIsConnected(s: State, i: Sid)
    requires MainOk(s) && ClientsOk(s) && s.main.Sweeping? && s.main.todo != [] && i == s.main.todo[0]
    ensures i < |s.threads| && Connected(s.threads[i])
  {
    assert i in s.main.todo;
  }

  /** What shutdown_all does at session i: close_session in three steps, or nothing if it is not active. */
  ghost predicate OneSwept(s: State, s': State, i: Sid)
    requires i < |s.threads|
  {
    && s.main.Sweeping? && s.main.todo != [] && s.main.todo[0] == i
    && i < |s'.threads| && s' == s.(threads := s.threads[i := s'.threads[i]], main := s'.main)
    && var t, t' := s.threads[i], s'.threads[i];
       if s.main.stage == Swap && t.active then
         t' == t.(active := false) && s'.main == Sweeping(s.main.todo, Close)
       else if s.main.stage == Close then
         t' == CloseIfOpen(t) && s'.main == Sweeping(s.main.todo, Mark)
       else
         (t' == if s.main.stage == Mark then t.(fdOpen := false) else t) && s'.main == Sweeping(s.main.todo[1..], Swap)
  }

  lemma SweepChange(s: State, i: Sid, act: MainStep)
    requires MainEnabled(s, act) && (act.SweepSwap? || act.SweepClose? || act.SweepMark?)
    requires i == s.main.todo[0] && i < |s.threads|
    ensures OneSwept(s, MainNext(s, act), i)
  {
    match act
    case SweepSwap => assert MainNext(s, act) == SweptSwap(s, i);
    case SweepClose => assert MainNext(s, act) == SweptClose(s, i);
    case SweepMark => assert MainNext(s, act) == SweptMark(s, i);
  }

  lemma SweepTables(s: State, s': State, i: Sid, t': Thread)
    requires ThreadsOk(s) && NamesOk(s) && ClientsOk(s) && RoomsOk(s) && LinesOk(s) && InboxesOk(s)
    requires i < |s.threads|
    requires t' == s.threads[i].(active := t'.active, fdOpen := t'.fdOpen, closes := t'.closes)
    requires s' == s.(threads := s.threads[i := t'], main := s'.main)
    ensures ThreadsOk(s') && NamesOk(s') && ClientsOk(s') && RoomsOk(s') && LinesOk(s') && InboxesOk(s')
  {
    assert ThreadOk(t', i in s.names) && RoomNamesOk(t');
    StayIsMove(s, i, t');
    RoomsFrame(s, s', i, t');
    ClientsFrame(s, s', i, t');
    LinesFrame(s, s');
    InboxesFrame(s, s');
  }

  lemma SweepDescriptors(s: State, s': State, i: Sid)
    requires DescriptorsOk(s) && i < |s.threads| && Connected(s.threads[i]) && OneSwept(s, s', i)
    ensures DescriptorsOk(s')
  {
    assert DescriptorOk(s.threads[i], s.main.stage);
    forall x | 0 <= x < |s'.threads|
      ensures DescriptorOk(s'.threads[x], SweepOf(s'.main, x))
    {
      assert DescriptorOk(s.threads[x], SweepOf(s.main, x));
    }
  }

  lemma SweepMain(s: State, s': State, i: Sid)
    requires MainOk(s) && i < |s.threads| && OneSwept(s, s', i)
    ensures MainOk(s')
  {
  }

  predicate IsPhase(act: MainStep) {
    act.StartShutdown? || act.SweepEnd? || act.StartJoin? || act.JoinOne? || act.EndJoin?
  }

  lemma MainPhaseStep(s: State, act: MainStep)
    requires Inv(s) && MainEnabled(s, act) && IsPhase(act)
    ensures Inv(MainNext(s, act))
  {
    var s' := MainNext(s, act);
    PhaseDescriptors(s, s', act);
    PhaseMain(s, act);
    PhaseTables(s, act);
    LinesFrame(s, s');
    InboxesFrame(s, s');
  }

  lemma PhaseTables(s: State, act: MainStep)
    requires ThreadsOk(s) && NamesOk(s) && RoomsOk(s) && ClientsOk(s) && MainEnabled(s, act) && IsPhase(act)
    ensures var s' := MainNext(s, act); ThreadsOk(s') && NamesOk(s') && RoomsOk(s') && ClientsOk(s')
    ensures var s' := MainNext(s, act);
            s'.threads == s.threads && s'.names == s.names && s'.lines == s.lines
  {
    ClearedIsIndexed(s.latest, s.names);
  }

  lemma PhaseDescriptors(s: State, s': State, act: MainStep)
    requires DescriptorsOk(s) && MainEnabled(s, act) && s' == MainNext(s, act)
    requires IsPhase(act)
    ensures DescriptorsOk(s')
  {
    forall x | 0 <= x < |s'.threads|
      ensures DescriptorOk(s'.threads[x], SweepOf(s'.main, x))
    {
      assert DescriptorOk(s.threads[x], SweepOf(s.main, x));
    }
  }

  lemma PhaseMain(s: State, act: MainStep)
    requires MainOk(s) && MainEnabled(s, act)
    requires IsPhase(act)
    ensures MainOk(MainNext(s, act))
  {
    var s' := MainNext(s, act);
    assert s'.joined + TodoOf(s'.main) + s'.tids == s.joined + TodoOf(s.main) + s.tids;
  }

  /** Every step of every thread keeps the invariant. */
  lemma StepKeepsInv(s: State, e: Event)
    requires Inv(s) && Enabled(s, e)
    ensures Inv(Next(s, e))
  {
    match e
    case OfHandler(i, step) => HandlerKeepsInv(s, i, step);
    case OfMain(act) =>
      if act.Spawn? {
        SpawnStep(s);
      } else if act.SweepSwap? || act.SweepClose? || act.SweepMark? {
        SweepStep(s, s.main.todo[0], act);
      } else {
        MainPhaseStep(s, act);
      }
  }

  lemma HandlerKeepsInv(s: State, i: Sid, step: HandlerStep)
    requires Inv(s) && i < |s.threads| && HandlerEnabled(s, s.threads[i], step)
    ensures Inv(HandlerNext(s, i, s.threads[i], step))
  {
    if IsMenu(step) {
      MenuStep(s, i, step);
    } else if IsEarly(step) {
      EarlyKeepsInv(s, i, step);
    } else if IsChat(step) {
      ChatKeepsInv(s, i, step);
    } else {
      LateKeepsInv(s, i, step);
    }
  }

  lemma EarlyKeepsInv(s: State, i: Sid, step: HandlerStep)
    requires Inv(s) && i < |s.threads| && HandlerEnabled(s, s.threads[i], step) && IsEarly(step) && !IsMenu(step)
    ensures Inv(HandlerNext(s, i, s.threads[i], step))
  {
    match step
    case CallRegister(written) => SignUpStep(s, i, written);
    case SetName => SetNameStep(s, i);
    case AddClient => AddClientStep(s, i);
    case Enter => JoinStep(s, i);
    case Hear(line) => HearStep(s, i, line);
  }

  lemma ChatKeepsInv(s: State, i: Sid, step: HandlerStep)
    requires Inv(s) && i < |s.threads| && HandlerEnabled(s, s.threads[i], step) && IsChat(step)
    ensures Inv(HandlerNext(s, i, s.threads[i], step))
  {
    match step
    case LeaveCurrent => LeaveStep(s, i);
    case JoinCurrent => JoinStep(s, i);
    case Speak => SpeakStep(s, i);
    case Page => PageStep(s, i);
    case Deliver(to, sent) => DeliverStep(s, i, to, sent);
    case EndRelay => EndRelayStep(s, i);
  }

  lemma LateKeepsInv(s: State, i: Sid, step: HandlerStep)
    requires Inv(s) && i < |s.threads| && HandlerEnabled(s, s.threads[i], step) && !IsEarly(step) && !IsChat(step)
    ensures Inv(HandlerNext(s, i, s.threads[i], step))
  {
    match step
    case LeaveRooms => LeaveAllStep(s, i);
    case RemoveClient => RemoveClientStep(s, i);
    case CloseFd => CloseStep(s, i, step);
    case MarkFd => CloseStep(s, i, step);
    case _ => FlagStep(s, i, step);
  }

  lemma InitialInv(s: State)
    requires Initial(s)
    ensures Inv(s)
  {
    assert Iota(0) == [];
    assert Indexed(s.clients, s.latest, s.names);
  }

  lemma {:induction false} RunKeepsInv(states: seq<State>, events: seq<Event>, k: nat)
    requires IsRun(states, events) && k <= |events|
    ensures Inv(states[k])
  {
    if k == 0 {
      InitialInv(states[0]);
    } else {
      RunKeepsInv(states, events, k - 1);
      StepKeepsInv(states[k - 1], events[k - 1]);
    }
  }

  lemma ReachableInv(s: State)
    requires Reachable(s)
    ensures Inv(s)
  {
    var states, events :| IsRun(states, events) && states[|events|] == s;
    RunKeepsInv(states, events, |events|);
  }
}
