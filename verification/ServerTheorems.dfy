// What the invariant means: the promises of the server over every reachable state.

module ServerTheorems {
  import opened Accounts
  import opened ByteStrings
  import opened ChatCommands
  import opened ChatSessions
  import opened ClientTables
  import opened Delivery
  import FileIo
  import Registry
  import opened RoomTables
  import opened ServerInvariant
  import opened ServerSteps
  import opened ServerSystem

  // Rooms.

  /** A session is in at most one room, its handler's current one, and no room is empty. */
  lemma AtMostOneRoom(s: State, room: Bytes, i: Sid)
    requires Reachable(s) && Member(s.rooms, room, i)
    ensures i < |s.threads| && s.threads[i].room == room
    ensures forall other :: Member(s.rooms, other, i) ==> other == room
    ensures NoEmptyRoom(s.rooms)
  {
    ReachableInv(s);
  }

  /** Between commands a session is exactly in its current room, or in none if that is empty. */
  lemma ChattersAreInTheirRoom(s: State, i: Sid, room: Bytes)
    requires Reachable(s) && i < |s.threads| && s.threads[i].pc.Chatting?
    ensures Member(s.rooms, room, i) <==> room != [] && room == s.threads[i].room
  {
    ReachableInv(s);
    InvOwn(s, i);
    MembersOf(s, i);
  }

  /** Hearing a command, and leaving if need be, puts the handler where the command says. */
  lemma CommandMovesHandler(t: Thread, command: Command)
    requires t.pc.Chatting?
    ensures var t' := Obeyed(t, command);
            (if t'.pc.Leaving? then Departed(t') else t').room == NextRoom(t.room, command)
  {
  }

  /** Which sessions are in which rooms is determined by where the handlers are, whatever led there. */
  lemma RoomsAreDetermined(s: State, s': State)
    requires Reachable(s) && Reachable(s') && s.threads == s'.threads
    ensures s.rooms == s'.rooms
  {
    ReachableInv(s);
    ReachableInv(s');
    TableIsItsMembers(s.rooms, s'.rooms);
  }

  // Lifetime of sessions and descriptors.

  ghost predicate Referenced(s: State, i: Sid) {
    || i in s.clients.list
    || (exists u :: u in s.clients.index && s.clients.index[u] == i)
    || (exists room :: Member(s.rooms, room, i))
    || (s.main.Sweeping? && i in s.main.todo)
  }

  /** No table, and not the sweep of shutdown_all, ever holds a deleted session. */
  lemma ReferencedIsAlive(s: State, i: Sid)
    requires Reachable(s) && Referenced(s, i)
    ensures i < |s.threads| && s.threads[i].deletes == 0 && s.threads[i].adds == 1
    ensures var pc := s.threads[i].pc; !pc.Closing? && !pc.Destroying? && !pc.Releasing? && !pc.Done?
  {
    ReachableInv(s);
    ReferencedIsThere(s, i);
    InvOwn(s, i);
  }

  lemma ReferencedIsThere(s: State, i: Sid)
    requires ClientsOk(s) && RoomsOk(s) && MainOk(s) && Referenced(s, i)
    ensures i < |s.threads| && (Connected(s.threads[i]) || RoomOf(s.threads[i]).Some?)
  {
    if exists room :: Member(s.rooms, room, i) {
      var room :| Member(s.rooms, room, i);
    } else {
      assert i in s.clients.list;
    }
  }

  /** One of the three places that can call ::close on descriptor i is about to, or just did. */
  predicate HandlerCloses(t: Thread) {
    (t.pc.Closing? && t.pc.stage != Swap) || (t.pc.Destroying? && t.pc.stage != Swap) || t.pc.Releasing?
  }

  /** A descriptor is closed at most once, never by two at a time, and exactly once in the end. */
  lemma ClosedOnce(s: State, i: Sid)
    requires Reachable(s) && i < |s.threads|
    ensures s.threads[i].closes <= 1
    ensures s.threads[i].active ==> s.threads[i].closes == 0 && s.threads[i].fdOpen
    ensures !(HandlerCloses(s.threads[i]) && SweepOf(s.main, i) != Swap)
    ensures s.threads[i].pc.Done? ==> s.threads[i].closes == 1 && s.threads[i].deletes == 1
  {
    ReachableInv(s);
    InvOwn(s, i);
  }

  /** When all handlers are done, the tables are empty and every session was deleted and closed once. */
  lemma NothingIsLeft(s: State)
    requires Reachable(s)
    requires forall i :: 0 <= i < |s.threads| ==> s.threads[i].pc.Done?
    ensures s.clients == Cleared() && s.rooms == map[]
    ensures forall i :: 0 <= i < |s.threads| ==> s.threads[i].deletes == 1 && s.threads[i].closes == 1
  {
    ReachableInv(s);
    NobodyIsConnected(s);
    NobodyIsInARoom(s);
    forall i | 0 <= i < |s.threads|
      ensures s.threads[i].deletes == 1 && s.threads[i].closes == 1
    {
      InvOwn(s, i);
    }
  }

  lemma NobodyIsConnected(s: State)
    requires ClientsOk(s) && forall i :: 0 <= i < |s.threads| ==> s.threads[i].pc.Done?
    ensures s.clients == Cleared()
  {
    if s.clients.list != [] {
      HasElement(s.clients.list);
    }
    assert s.clients.index == map[];
  }

  lemma NobodyIsInARoom(s: State)
    requires RoomsOk(s) && forall i :: 0 <= i < |s.threads| ==> s.threads[i].pc.Done?
    ensures s.rooms == map[]
  {
    forall room | room in s.rooms
      ensures false
    {
      var x :| x in s.rooms[room];
      assert Member(s.rooms, room, x);
    }
  }

  lemma HasElement(list: seq<Sid>)
    requires list != []
    ensures exists i :: i in list
  {
    assert list[0] in list;
  }

  lemma IotaElements(n: nat)
    ensures |Iota(n)| == n && forall i :: 0 <= i < n ==> Iota(n)[i] == i
  {
  }

  /** shutdown returns only when each handler thread was joined exactly once and nothing is left. */
  lemma ShutdownIsComplete(s: State)
    requires Reachable(s) && s.main.Stopped?
    ensures s.joined == Iota(|s.threads|) && s.tids == []
    ensures s.clients == Cleared() && s.rooms == map[]
    ensures forall i :: 0 <= i < |s.threads| ==> s.threads[i].deletes == 1 && s.threads[i].closes == 1
  {
    ReachableInv(s);
    IotaElements(|s.threads|);
    assert s.joined == s.joined + [] + [];
    forall i | 0 <= i < |s.threads|
      ensures s.threads[i].pc.Done?
    {
      assert s.joined[i] == i && i in s.joined;
    }
    NothingIsLeft(s);
  }

  // Authentication before visibility.

  /** Whoever is connected or in a room goes by the name of an account. */
  lemma VisibleIsAuthenticated(s: State, i: Sid)
    requires Reachable(s) && Referenced(s, i)
    ensures i in s.names && s.names[i] in s.users && ValidUsername(s.names[i])
  {
    ReferencedIsAlive(s, i);
    ReachableInv(s);
    InvOwn(s, i);
  }

  /** At most three menus, one add_client, and no room before it. */
  lemma HandlerBounds(s: State, i: Sid)
    requires Reachable(s) && i < |s.threads|
    ensures s.threads[i].menus <= MAX_AUTH_ATTEMPTS && s.threads[i].adds <= 1
    ensures s.threads[i].adds == 0 ==> forall room :: !Member(s.rooms, room, i)
  {
    ReachableInv(s);
    InvOwn(s, i);
    MembersOf(s, i);
  }

  /** Names stay, and accounts stay with their passwords. */
  ghost predicate Grown(s: State, s': State) {
    && (forall i :: i in s.names ==> i in s'.names && s'.names[i] == s.names[i])
    && Grows(s.users, s'.users)
  }

  lemma HandlerKeepsNames(s: State, i: Sid, t: Thread, step: HandlerStep)
    requires i < |s.threads| && t == s.threads[i] && HandlerEnabled(s, t, step)
    ensures Grown(s, HandlerNext(s, i, t, step))
  {
    HandlerFrame(s, i, t, step);
  }

  lemma MainKeepsNames(s: State, act: MainStep)
    requires MainEnabled(s, act)
    ensures Grown(s, MainNext(s, act))
  {
  }

  lemma StepKeepsNames(s: State, e: Event)
    requires Enabled(s, e)
    ensures Grown(s, Next(s, e))
  {
    match e
    case OfHandler(i, step) => HandlerKeepsNames(s, i, s.threads[i], step);
    case OfMain(act) => MainKeepsNames(s, act);
  }

  lemma GrownTransitive(s: State, s': State, s'': State)
    requires Grown(s, s') && Grown(s', s'')
    ensures Grown(s, s'')
  {
  }

  lemma RunKeepsNames(states: seq<State>, events: seq<Event>, k: nat)
    requires IsRun(states, events) && k < |events|
    ensures Grown(states[k], states[k + 1])
  {
    StepKeepsNames(states[k], events[k]);
  }

  lemma {:induction false} GrownAlong(states: seq<State>, j: nat, k: nat)
    requires j <= k < |states|
    requires forall m :: 0 <= m < |states| - 1 ==> Grown(states[m], states[m + 1])
    ensures Grown(states[j], states[k])
  {
    if j < k {
      GrownAlong(states, j, k - 1);
      assert Grown(states[k - 1], states[k - 1 + 1]);
      GrownTransitive(states[j], states[k - 1], states[k]);
    }
  }

  /** Along a run a name is set once, and accounts only grow. */
  lemma NamesNeverChange(states: seq<State>, events: seq<Event>, j: nat, k: nat)
    requires IsRun(states, events) && j <= k <= |events|
    ensures Grown(states[j], states[k])
  {
    forall m | 0 <= m < |events|
      ensures Grown(states[m], states[m + 1])
    {
      RunKeepsNames(states, events, m);
    }
    GrownAlong(states, j, k);
  }

  // The name index.

  /**
   * A private message for u finds a session exactly when the latest login of u is still
   * connected, and then it finds the last session of that name in the list.
   */
  lemma NameIndex(s: State, u: Bytes)
    requires Reachable(s)
    ensures u in s.clients.index <==> u in s.latest && s.latest[u] in s.clients.list
    ensures u in s.clients.index ==> s.clients.index[u] == s.latest[u]
    ensures u in s.clients.index ==>
              exists k :: 0 <= k < |s.clients.list| && s.clients.list[k] == s.clients.index[u]
                && NameOf(s, s.clients.list[k]) == u
                && forall j :: k < j < |s.clients.list| ==> NameOf(s, s.clients.list[j]) != u
    ensures NoDup(s.clients.list)
  {
    ReachableInv(s);
    if u in s.clients.index {
      IndexedIsLast(s.clients, s.latest, s.names, u);
    }
  }

  /** Whoever is added has no namesake in the index. */
  predicate AddsNewName(s: State, e: Event) {
    e.OfHandler? && e.step.AddClient? ==> NameOf(s, e.i) !in s.clients.index
  }

  lemma AddClientCompleteIff(s: State, i: Sid)
    requires Inv(s) && i < |s.threads| && s.threads[i].pc.Adding? && Complete(s.clients, s.names)
    ensures Complete(Add(s.clients, i, NameOf(s, i)), s.names) <==> NameOf(s, i) !in s.clients.index
  {
    InvOwn(s, i);
    AddIsCompleteIff(s.clients, s.names, i);
  }

  lemma RemoveClientComplete(s: State, i: Sid)
    requires Inv(s) && i < |s.threads| && s.threads[i].pc.Removing? && Complete(s.clients, s.names)
    ensures Complete(Remove(s.clients, i, NameOf(s, i)), s.names)
  {
    InvOwn(s, i);
    RemoveKeepsComplete(s.clients, s.names, i, NameOf(s, i));
  }

  lemma SetNameComplete(s: State, i: Sid, names': map<Sid, Bytes>)
    requires Inv(s) && i < |s.threads| && s.threads[i].pc.Naming? && Complete(s.clients, s.names)
    requires names' == s.names[i := s.threads[i].pc.name]
    ensures Complete(s.clients, names')
  {
    InvOwn(s, i);
  }

  lemma HandlerCompleteIff(s: State, i: Sid, step: HandlerStep)
    requires Inv(s) && i < |s.threads| && HandlerEnabled(s, s.threads[i], step) && Complete(s.clients, s.names)
    ensures var s' := HandlerNext(s, i, s.threads[i], step);
            Complete(s'.clients, s'.names) <==> AddsNewName(s, OfHandler(i, step))
  {
    if step.AddClient? {
      AddClientCompleteIff(s, i);
    } else if step.RemoveClient? {
      RemoveClientComplete(s, i);
    } else if step.SetName? {
      InvOwn(s, i);
      SetNameComplete(s, i, s.names[i := s.threads[i].pc.name]);
    } else {
      HandlerFrame(s, i, s.threads[i], step);
    }
  }

  lemma MainKeepsComplete(s: State, act: MainStep)
    requires MainEnabled(s, act) && Complete(s.clients, s.names)
    ensures Complete(MainNext(s, act).clients, MainNext(s, act).names)
  {
    MainClients(s, act);
    ClearedIsComplete(s.names);
  }

  lemma MainClients(s: State, act: MainStep)
    requires MainEnabled(s, act)
    ensures MainNext(s, act).names == s.names
    ensures MainNext(s, act).clients == if act.SweepEnd? then Cleared() else s.clients
  {
  }

  lemma StepCompleteIff(s: State, e: Event)
    requires Inv(s) && Enabled(s, e) && Complete(s.clients, s.names)
    ensures Complete(Next(s, e).clients, Next(s, e).names) <==> AddsNewName(s, e)
  {
    match e
    case OfHandler(i, step) => HandlerCompleteIff(s, i, step);
    case OfMain(act) => MainKeepsComplete(s, act);
  }

  lemma RunCompleteIff(states: seq<State>, events: seq<Event>, k: nat)
    requires IsRun(states, events) && k < |events| && Complete(states[k].clients, states[k].names)
    ensures Complete(states[k + 1].clients, states[k + 1].names) <==> AddsNewName(states[k], events[k])
  {
    RunKeepsInv(states, events, k);
    StepCompleteIff(states[k], events[k]);
  }

  /** The index is exactly the index of the client list all along a run iff every login found its name free. */
  lemma IndexIsExactIff(states: seq<State>, events: seq<Event>)
    requires IsRun(states, events)
    ensures (forall k :: 0 <= k <= |events| ==> Complete(states[k].clients, states[k].names)) <==>
            (forall k :: 0 <= k < |events| ==> AddsNewName(states[k], events[k]))
  {
    if forall k :: 0 <= k < |events| ==> AddsNewName(states[k], events[k]) {
      forall k | 0 <= k <= |events|
        ensures Complete(states[k].clients, states[k].names)
      {
        GuardedRunIsExact(states, events, k);
      }
    }
    if forall k :: 0 <= k <= |events| ==> Complete(states[k].clients, states[k].names) {
      forall k | 0 <= k < |events|
        ensures AddsNewName(states[k], events[k])
      {
        assert Complete(states[k + 1].clients, states[k + 1].names);
        RunCompleteIff(states, events, k);
      }
    }
  }

  lemma {:induction false} GuardedRunIsExact(states: seq<State>, events: seq<Event>, k: nat)
    requires IsRun(states, events) && k <= |events|
    requires forall j :: 0 <= j < |events| ==> AddsNewName(states[j], events[j])
    ensures Complete(states[k].clients, states[k].names)
  {
    if k > 0 {
      GuardedRunIsExact(states, events, k - 1);
      RunCompleteIff(states, events, k - 1);
    }
  }

  // Delivery.

  /** A room message goes to the members of the speaker's room, and they have that current room. */
  lemma RoomSnapshot(s: State, i: Sid)
    requires Reachable(s) && i < |s.threads| && s.threads[i].pc.Speaking? && s.threads[i].room != []
    ensures var room := s.threads[i].room;
            && room in s.rooms && i in s.rooms[room]
            && forall x :: x in s.rooms[room] ==>
                 x < |s.threads| && s.threads[x].room == room && s.threads[x].deletes == 0
  {
    ReachableInv(s);
    InvOwn(s, i);
    RoomAudience(s, i);
    MembersOf(s, i);
    forall x | x in s.rooms[s.threads[i].room]
      ensures s.threads[x].deletes == 0
    {
      InvOwn(s, x);
    }
  }

  /** One delivery: the one recipient gets the line iff it is alive, active and not the sender's namesake. */
  lemma DeliveryEffect(s: State, i: Sid, to: Sid, sent: bool)
    requires i < |s.threads| && HandlerEnabled(s, s.threads[i], Deliver(to, sent))
    ensures var s' := HandlerNext(s, i, s.threads[i], Deliver(to, sent));
            var l := s.threads[i].pc.line;
            var taken := sent && !IsDying(s.threads[to].pc) && s.threads[to].active
                         && !(s.lines[l].scope.InRoom? && NameOf(s, to) == s.lines[l].sender);
            && s'.threads[to].inbox == s.threads[to].inbox + (if taken then [l] else [])
            && forall x :: 0 <= x < |s.threads| && x != to ==> s'.threads[x].inbox == s.threads[x].inbox
  {
  }

  ghost predicate Finished(s: State, l: nat)
    requires l < |s.lines|
  {
    forall i :: 0 <= i < |s.threads| ==> !(s.threads[i].pc.Relaying? && s.threads[i].pc.line == l)
  }

  /**
   * A line that is out was tried at every member of its audience once, arrived at most once at
   * each, at nobody else, and in a room never at a session of the sender's name.
   */
  lemma DeliveredOnce(s: State, l: nat, i: Sid)
    requires Reachable(s) && l < |s.lines| && Finished(s, l) && i < |s.threads|
    ensures s.lines[l].fates.Keys == s.lines[l].audience
    ensures multiset(s.threads[i].inbox)[l] ==
            if i in s.lines[l].audience && s.lines[l].fates[i] == Sent then 1 else 0
    ensures s.lines[l].scope.InRoom? && NameOf(s, i) == s.lines[l].sender ==> l !in s.threads[i].inbox
  {
    ReachableInv(s);
    assert LineOk(s, l) && Pending(s, l) == {};
    assert InboxOk(s, i);
    assert l in s.threads[i].inbox <==> WasSent(s, l, i);
    CountInNoDup(s.threads[i].inbox, l);
  }

  lemma {:induction false} CountInNoDup(inbox: seq<nat>, l: nat)
    requires NoDup(inbox)
    ensures multiset(inbox)[l] == if l in inbox then 1 else 0
  {
    if inbox != [] {
      CountInNoDup(inbox[1..], l);
      assert inbox == [inbox[0]] + inbox[1..];
    }
  }

  /** Two room lines that look the same to a recipient are by the same user, in the same room, with the same text. */
  lemma RoomLinesAreUnambiguous(s: State, l: nat, l': nat)
    requires Reachable(s) && l < |s.lines| && l' < |s.lines|
    requires s.lines[l].scope.InRoom? && s.lines[l'].scope.InRoom?
    ensures RoomPayload(s.lines[l].sender, s.lines[l].scope.room, s.lines[l].text) ==
            RoomPayload(s.lines[l'].sender, s.lines[l'].scope.room, s.lines[l'].text) <==>
            s.lines[l].sender == s.lines[l'].sender && s.lines[l].scope.room == s.lines[l'].scope.room
            && s.lines[l].text == s.lines[l'].text
  {
    ReachableInv(s);
    RoomLineNames(s, l);
    RoomLineNames(s, l');
    RoomPayloadIsUnambiguous(s.lines[l].sender, s.lines[l].scope.room, s.lines[l].text,
                             s.lines[l'].sender, s.lines[l'].scope.room, s.lines[l'].text);
  }

  lemma RoomLineNames(s: State, l: nat)
    requires LinesOk(s) && NamesOk(s) && l < |s.lines| && s.lines[l].scope.InRoom?
    ensures IsName(s.lines[l].sender) && IsWord(s.lines[l].scope.room)
  {
    assert LineOk(s, l);
    assert ValidUsername(s.names[s.lines[l].speaker]);
  }

  // Progress.

  /** The step that a handler in this position can take; `to` is some recipient still to be served. */
  function StepAt(pc: Pc, to: Sid): HandlerStep {
    match pc
    case Menu(_) => SendMenu(false)
    case Choosing(_) => Choose(Lost)
    case SigningUp(_, _, _) => CallRegister(true)
    case SigningIn(_, _, _) => CallAuthenticate
    case Naming(_) => SetName
    case Adding => AddClient
    case Entering => Enter
    case Chatting => Hear([])
    case Leaving(_) => LeaveCurrent
    case Joining => JoinCurrent
    case Speaking(_) => Speak
    case Paging(_, _) => Page
    case Relaying(_, rest) => if rest == {} then EndRelay else Deliver(to, true)
    case LeavingAll => LeaveRooms
    case Removing => RemoveClient
    case Closing(stage) => CloseStepAt(stage)
    case Destroying(stage) => CloseStepAt(stage)
    case Releasing(closed) => if closed then MarkFd else CloseFd
    case Done => SendFails
  }

  /** About to lock the client list. */
  predicate WaitsForClients(t: Thread) {
    t.pc.Adding? || t.pc.Removing? || t.pc.Paging? || (t.pc.Speaking? && t.room == [])
  }

  lemma StepAtIsEnabled(s: State, t: Thread, to: Sid)
    requires !t.pc.Done?
    requires t.pc.Relaying? && t.pc.rest != {} ==> t.pc.line < |s.lines| && to in t.pc.rest && to < |s.threads|
    ensures !StepAt(t.pc, to).SendFails?
    ensures HandlerEnabled(s, t, StepAt(t.pc, to)) || (s.main.Sweeping? && WaitsForClients(t))
  {
  }

  /** A handler that is not done has a next step, unless it needs the client list that shutdown_all has locked. */
  lemma HandlerNeverStuck(s: State, i: Sid)
    requires Reachable(s) && i < |s.threads| && !s.threads[i].pc.Done?
    ensures (exists step: HandlerStep :: !step.SendFails? && HandlerEnabled(s, s.threads[i], step)) ||
            (s.main.Sweeping? && WaitsForClients(s.threads[i]))
  {
    ReachableInv(s);
    var t := s.threads[i];
    if t.pc.Relaying? && t.pc.rest != {} {
      var to :| to in t.pc.rest;
      assert LineOk(s, t.pc.line) && Pending(s, t.pc.line) == t.pc.rest;
      StepAtIsEnabled(s, t, to);
    } else {
      StepAtIsEnabled(s, t, 0);
    }
  }

  /** Nothing that comes from outside is refused: no answer, no line, no result of a send, no shutdown. */
  lemma AnythingCanHappen(s: State, t: Thread, choice: Choice, line: Bytes, sent: bool)
    ensures t.pc.Menu? && (sent ==> t.active) ==> HandlerEnabled(s, t, SendMenu(sent))
    ensures t.pc.Choosing? && Allowed(choice) ==> HandlerEnabled(s, t, Choose(choice))
    ensures t.pc.SigningUp? ==> HandlerEnabled(s, t, CallRegister(sent))
    ensures t.pc.Chatting? ==> HandlerEnabled(s, t, Hear(line))
    ensures t.pc.Relaying? && t.pc.line < |s.lines| ==>
              forall to :: to in t.pc.rest && to < |s.threads| ==> HandlerEnabled(s, t, Deliver(to, sent))
    ensures s.main.Accepting? ==> MainEnabled(s, Spawn) && MainEnabled(s, StartShutdown)
  {
  }

  function CloseStepAt(stage: Stage): HandlerStep {
    match stage
    case Swap => SwapActive
    case Close => CloseFd
    case Mark => MarkFd
  }

  /** How much of the sweep is left. */
  function SweepLeft(m: Main): nat {
    if !m.Sweeping? then 0
    else if m.todo == [] then 1
    else
      match m.stage
      case Swap => 1 + 3 * |m.todo|
      case Close => 3 * |m.todo|
      case Mark => 3 * |m.todo| - 1
  }

  lemma SweepGoesOn(s: State, act: MainStep)
    requires s.main.Sweeping? && MainEnabled(s, act) && (s.main.todo != [] ==> s.main.todo[0] < |s.threads|)
    ensures SweepLeft(MainNext(s, act).main) < SweepLeft(s.main)
  {
  }

  /** The sweep itself never waits and gets shorter with every step: the lock is released. */
  lemma SweepFinishes(s: State) returns (act: MainStep)
    requires Reachable(s) && s.main.Sweeping?
    ensures MainEnabled(s, act) && SweepLeft(MainNext(s, act).main) < SweepLeft(s.main)
  {
    ReachableInv(s);
    act := SweepEnd;
    if s.main.todo != [] {
      SweptIsConnected(s, s.main.todo[0]);
      act := match s.main.stage case Swap => SweepSwap case Close => SweepClose case Mark => SweepMark;
    }
    SweepGoesOn(s, act);
  }

  /** How many steps cleanup_and_exit and the destructor take at most. */
  function CleanupLeft(pc: Pc): nat {
    match pc
    case Removing => 9
    case Closing(stage) => 6 + StagesLeft(stage)
    case Destroying(stage) => 3 + StagesLeft(stage)
    case Releasing(closed) => if closed then 1 else 2
    case Done => 0
    case _ => 10
  }

  function StagesLeft(stage: Stage): nat {
    match stage
    case Swap => 2
    case Close => 1
    case Mark => 0
  }

  /** A step of the code of handler i, as opposed to a failing reply. */
  predicate IsOwn(e: Event, i: Sid) {
    e.OfHandler? && e.i == i && !e.step.SendFails?
  }

  /** From s to s' a handler that is cleaning up goes on, by at least n steps. */
  predicate CleansUp(s: State, s': State, i: Sid, n: nat) {
    i < |s.threads| && InCleanup(s.threads[i].pc) ==>
      && i < |s'.threads| && InCleanup(s'.threads[i].pc)
      && n + CleanupLeft(s'.threads[i].pc) <= CleanupLeft(s.threads[i].pc)
  }

  /** From one position in cleanup to a later one. */
  predicate Nearer(pc: Pc, pc': Pc) {
    InCleanup(pc') && CleanupLeft(pc') < CleanupLeft(pc)
  }

  lemma SwappedIsNearer(t: Thread)
    requires (t.pc.Closing? || t.pc.Destroying?) && t.pc.stage == Swap
    ensures Nearer(t.pc, Swapped(t).pc)
  {
  }

  lemma ClosedIsNearer(t: Thread)
    requires ((t.pc.Closing? || t.pc.Destroying?) && t.pc.stage == Close) || t.pc == Releasing(false)
    ensures Nearer(t.pc, Closed(t).pc)
  {
  }

  lemma MarkedIsNearer(t: Thread)
    requires ((t.pc.Closing? || t.pc.Destroying?) && t.pc.stage == Mark) || t.pc == Releasing(true)
    ensures Nearer(t.pc, Marked(t).pc)
  {
  }

  lemma OwnStepCleansUp(s: State, i: Sid, step: HandlerStep)
    requires i < |s.threads| && InCleanup(s.threads[i].pc) && HandlerEnabled(s, s.threads[i], step)
    ensures |HandlerNext(s, i, s.threads[i], step).threads| == |s.threads|
    ensures var pc, pc' := s.threads[i].pc, HandlerNext(s, i, s.threads[i], step).threads[i].pc;
            if step.SendFails? then pc' == pc else Nearer(pc, pc')
  {
    match step
    case SwapActive => SwappedIsNearer(s.threads[i]);
    case CloseFd => ClosedIsNearer(s.threads[i]);
    case MarkFd => MarkedIsNearer(s.threads[i]);
    case LeaveRooms =>
    case RemoveClient =>
    case SendFails =>
  }

  /** Handler i is where it was. */
  predicate KeepsPosition(s: State, s': State, i: Sid) {
    i < |s.threads| ==>
      i < |s'.threads| &&
      var t, t' := s.threads[i], s'.threads[i];
      t'.pc == t.pc && t'.room == t.room && t'.adds == t.adds && (!t.active ==> !t'.active)
  }

  lemma DeliveryKeepsPosition(s: State, i: Sid, j: Sid, step: HandlerStep)
    requires j < |s.threads| && i != j && HandlerEnabled(s, s.threads[j], step) && step.Deliver?
    ensures KeepsPosition(s, HandlerNext(s, j, s.threads[j], step), i)
  {
  }

  lemma EarlyStepKeepsPosition(s: State, i: Sid, j: Sid, step: HandlerStep)
    requires j < |s.threads| && i != j && HandlerEnabled(s, s.threads[j], step) && IsEarly(step)
    ensures KeepsPosition(s, HandlerNext(s, j, s.threads[j], step), i)
  {
  }

  lemma RelayKeepsPosition(s: State, i: Sid, j: Sid, step: HandlerStep)
    requires j < |s.threads| && i != j && HandlerEnabled(s, s.threads[j], step) && (step.Speak? || step.Page?)
    ensures KeepsPosition(s, HandlerNext(s, j, s.threads[j], step), i)
  {
  }

  lemma ChatStepKeepsPosition(s: State, i: Sid, j: Sid, step: HandlerStep)
    requires j < |s.threads| && i != j && HandlerEnabled(s, s.threads[j], step)
    requires step.LeaveCurrent? || step.JoinCurrent? || step.EndRelay?
    ensures KeepsPosition(s, HandlerNext(s, j, s.threads[j], step), i)
  {
  }

  lemma LateStepKeepsPosition(s: State, i: Sid, j: Sid, step: HandlerStep)
    requires j < |s.threads| && i != j && HandlerEnabled(s, s.threads[j], step) && !IsEarly(step) && !IsChat(step)
    ensures KeepsPosition(s, HandlerNext(s, j, s.threads[j], step), i)
  {
  }

  lemma OtherStepKeepsPosition(s: State, i: Sid, j: Sid, step: HandlerStep)
    requires j < |s.threads| && i != j && HandlerEnabled(s, s.threads[j], step)
    ensures KeepsPosition(s, HandlerNext(s, j, s.threads[j], step), i)
  {
    if IsEarly(step) {
      EarlyStepKeepsPosition(s, i, j, step);
    } else if step.Deliver? {
      DeliveryKeepsPosition(s, i, j, step);
    } else if step.Speak? || step.Page? {
      RelayKeepsPosition(s, i, j, step);
    } else if IsChat(step) {
      ChatStepKeepsPosition(s, i, j, step);
    } else {
      LateStepKeepsPosition(s, i, j, step);
    }
  }

  lemma SweepStepKeepsPosition(s: State, i: Sid, act: MainStep)
    requires MainEnabled(s, act) && (act.SweepSwap? || act.SweepClose? || act.SweepMark?)
    ensures KeepsPosition(s, MainNext(s, act), i)
  {
  }

  lemma MainStepKeepsPosition(s: State, i: Sid, act: MainStep)
    requires MainEnabled(s, act)
    ensures KeepsPosition(s, MainNext(s, act), i)
  {
    if act.SweepSwap? || act.SweepClose? || act.SweepMark? {
      SweepStepKeepsPosition(s, i, act);
    }
  }

  /** Whatever happens, a handler in cleanup stays there, and each of its own steps brings it nearer to the end. */
  lemma CleanupGoesOn(s: State, e: Event, i: Sid)
    requires Enabled(s, e)
    ensures CleansUp(s, Next(s, e), i, if IsOwn(e, i) then 1 else 0)
  {
    if i < |s.threads| && InCleanup(s.threads[i].pc) {
      match e
      case OfHandler(j, step) =>
        if j == i {
          OwnStepCleansUp(s, i, step);
        } else {
          OtherStepKeepsPosition(s, i, j, step);
        }
      case OfMain(act) => MainStepKeepsPosition(s, i, act);
    }
  }

  // The accounts are a file.

  /** On a file that stands for the accounts, register_user and authenticate do what the steps say. */
  lemma RegistryFileRefinesSteps(s: State, i: Sid, text: Bytes, disk: FileIo.Disk)
    requires i < |s.threads| && Registry.WellFormed(text) && Registry.UsersIn(text) == s.users
    ensures s.threads[i].pc.SigningUp? && ValidUsername(s.threads[i].pc.name) ==>
              var pc := s.threads[i].pc;
              var (ok, text') := Registry.Registered(text, pc.name, pc.password, disk);
              var written := FileIo.Written(disk, |Registry.RecordsOf(text)| + 1);
              var s' := HandlerNext(s, i, s.threads[i], CallRegister(written));
              Registry.WellFormed(text') && Registry.UsersIn(text') == s'.users && (ok <==> s'.threads[i].pc.Naming?)
    ensures s.threads[i].pc.SigningIn? ==>
              var pc := s.threads[i].pc;
              var s' := HandlerNext(s, i, s.threads[i], CallAuthenticate);
              Registry.Authenticated(text, pc.name, pc.password) <==> s'.threads[i].pc.Naming?
  {
    var pc := s.threads[i].pc;
    if pc.SigningUp? && ValidUsername(pc.name) {
      Registry.RegisterRefines(text, pc.name, pc.password, disk);
    } else if pc.SigningIn? {
      Registry.AuthenticateRefines(text, pc.name, pc.password);
    }
  }
}
