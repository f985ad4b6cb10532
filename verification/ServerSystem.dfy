// The server as a step system: any number of client handlers (src/server/client_handler.cpp)
// and the main thread (src/server/server.cpp:83-98, 153-236) interleave. Each critical section
// of a mutex is one step, and so is each access to a session's atomic flag and descriptor.

module ServerSystem {
  import opened Accounts
  import opened ByteStrings
  import opened ChatCommands
  import opened ClientTables
  import opened Registry
  import opened RoomTables
  import opened Sessions

  /** Session, handler and thread of one client: their position in the order of arrival. */
  type Sid = nat

  /** How far a close has come: compare-and-swap on `active`, ::close, fd_ = -1. */
  datatype Stage = Swap | Close | Mark

  /** Where a handler is. */
  datatype Pc =
    | Menu(attempt: nat)                                      // about to send the menu
    | Choosing(attempt: nat)                                  // waiting for choice and credentials
    | SigningUp(attempt: nat, name: Bytes, password: Bytes)   // about to call register_user(name, encrypted password)
    | SigningIn(attempt: nat, name: Bytes, password: Bytes)   // about to call authenticate
    | Naming(name: Bytes)                                     // about to call set_username
    | Adding                                                  // about to call add_client
    | Entering                                                // about to join the lobby
    | Chatting                                                // in recv_line
    | Leaving(next: Option<Bytes>)                            // about to leave the current room
    | Joining                                                 // about to join the new current room
    | Speaking(text: Bytes)                                   // about to take a snapshot of the audience
    | Paging(to: Bytes, text: Bytes)                          // about to look up the addressee
    | Relaying(line: nat, rest: set<Sid>)                     // sending to the rest of the audience
    | LeavingAll                                              // cleanup: about to leave all rooms
    | Removing                                                // about to call remove_client
    | Closing(stage: Stage)                                   // in close_session
    | Destroying(stage: Stage)                                // in ~Session's close_session
    | Releasing(closed: bool)                                 // in ~UniqueFd
    | Done

  datatype Thread = Thread(
    pc: Pc,
    room: Bytes,          // current_room_
    active: bool,
    fdOpen: bool,         // fd_ >= 0
    closes: nat,          // ::close calls on the descriptor
    deletes: nat,         // deletes of the session
    menus: nat,           // MENU frames sent
    adds: nat,            // add_client calls
    inbox: seq<nat>)      // chat lines sent to this session

  datatype Scope = InRoom(room: Bytes) | Everyone | OneUser(to: Bytes)

  /** What became of a line at one member of its audience. */
  datatype Fate = Sent | Failed | Inactive | OwnName | Freed

  /** One chat line: its audience is the snapshot taken under the lock. */
  datatype Line = Line(
    speaker: Sid,
    sender: Bytes,
    scope: Scope,
    text: Bytes,
    audience: set<Sid>,
    fates: map<Sid, Fate>)

  datatype Main =
    | Accepting
    | Sweeping(todo: seq<Sid>, stage: Stage)   // in shutdown_all, holding the broadcast mutex
    | Swept
    | JoiningAll(todo: seq<Sid>)
    | Stopped

  datatype State = State(
    threads: seq<Thread>,
    names: map<Sid, Bytes>,        // the sessions' usernames, once set
    clients: Clients<Sid>,
    latest: map<Bytes, Sid>,       // history: the last session added under each name
    rooms: Rooms<Sid>,
    users: Users,
    lines: seq<Line>,              // history: every line relayed so far
    main: Main,
    tids: seq<Sid>,                // the thread group
    joined: seq<Sid>)              // history: pthread_join calls

  datatype Choice = Register(name: Bytes, password: Bytes) | Login(name: Bytes, password: Bytes) | Retry | Lost

  /** A step of handler i, by what it does next; the fields are what it learns from outside. */
  datatype HandlerStep =
    | SendMenu(sent: bool)
    | Choose(choice: Choice)
    | CallRegister(written: bool)
    | CallAuthenticate
    | SetName
    | AddClient
    | Enter
    | Hear(line: Bytes)
    | LeaveCurrent
    | JoinCurrent
    | Speak
    | Page
    | Deliver(to: Sid, sent: bool)
    | EndRelay
    | SendFails                 // any reply to the own client may fail
    | LeaveRooms
    | RemoveClient
    | SwapActive
    | CloseFd
    | MarkFd

  datatype MainStep =
    | Spawn
    | StartShutdown
    | SweepSwap
    | SweepClose
    | SweepMark
    | SweepEnd
    | StartJoin
    | JoinOne
    | EndJoin

  datatype Event = OfHandler(i: Sid, step: HandlerStep) | OfMain(act: MainStep)

  const LOBBY: Bytes := "lobby"

  // Steps.

  const NEW_THREAD := Thread(Menu(0), LOBBY, true, true, 0, 0, 0, 0, [])

  function At(s: State, i: Sid, t: Thread): State
    requires i < |s.threads|
  {
    s.(threads := s.threads[i := t])
  }

  predicate BroadcastFree(s: State) {
    !s.main.Sweeping?
  }

  /** get_username: sessions without a name share a placeholder. */
  function NameOf(s: State, i: Sid): Bytes {
    if i in s.names then s.names[i] else UNAUTHENTICATED
  }

  predicate Enabled(s: State, e: Event) {
    match e
    case OfHandler(i, step) => i < |s.threads| && HandlerEnabled(s, s.threads[i], step)
    case OfMain(act) => MainEnabled(s, act)
  }

  function Next(s: State, e: Event): State
    requires Enabled(s, e)
  {
    match e
    case OfHandler(i, step) => HandlerNext(s, i, s.threads[i], step)
    case OfMain(act) => MainNext(s, act)
  }

  predicate MainEnabled(s: State, act: MainStep) {
    match act
    case Spawn => s.main.Accepting?
    case StartShutdown => s.main.Accepting?
    case SweepSwap => s.main.Sweeping? && s.main.todo != [] && s.main.stage == Swap
    case SweepClose => s.main.Sweeping? && s.main.todo != [] && s.main.stage == Close
    case SweepMark => s.main.Sweeping? && s.main.todo != [] && s.main.stage == Mark
    case SweepEnd => s.main.Sweeping? && s.main.todo == []
    case StartJoin => s.main.Swept?
    case JoinOne =>
      s.main.JoiningAll? && s.main.todo != [] && s.main.todo[0] < |s.threads| && s.threads[s.main.todo[0]].pc.Done?
    case EndJoin => s.main.JoiningAll? && s.main.todo == []
  }

  function MainNext(s: State, act: MainStep): State
    requires MainEnabled(s, act)
  {
    match act
    case Spawn => s.(threads := s.threads + [NEW_THREAD], tids := s.tids + [|s.threads|])
    case StartShutdown => s.(main := Sweeping(s.clients.list, Swap))
    case SweepSwap => SweptSwap(s, s.main.todo[0])
    case SweepClose => SweptClose(s, s.main.todo[0])
    case SweepMark => SweptMark(s, s.main.todo[0])
    case SweepEnd => s.(clients := Cleared(), main := Swept)
    case StartJoin => s.(tids := [], main := JoiningAll(s.tids))
    case JoinOne => s.(joined := s.joined + [s.main.todo[0]], main := JoiningAll(s.main.todo[1..]))
    case EndJoin => s.(main := Stopped)
  }

  predicate HandlerEnabled(s: State, t: Thread, step: HandlerStep) {
    match step
    case SendMenu(sent) => t.pc.Menu? && (sent ==> t.active)
    case Choose(choice) => t.pc.Choosing? && Allowed(choice)
    case CallRegister(_) => t.pc.SigningUp?
    case CallAuthenticate => t.pc.SigningIn?
    case SetName => t.pc.Naming?
    case AddClient => t.pc.Adding? && BroadcastFree(s)
    case Enter => t.pc.Entering?
    case Hear(_) => t.pc.Chatting?
    case LeaveCurrent => t.pc.Leaving?
    case JoinCurrent => t.pc.Joining?
    case Speak => t.pc.Speaking? && (t.room == [] ==> BroadcastFree(s))
    case Page => t.pc.Paging? && BroadcastFree(s)
    case Deliver(to, _) => t.pc.Relaying? && t.pc.line < |s.lines| && to in t.pc.rest && to < |s.threads|
    case EndRelay => t.pc.Relaying? && t.pc.rest == {}
    case SendFails => t.deletes == 0
    case LeaveRooms => t.pc.LeavingAll?
    case RemoveClient => t.pc.Removing? && BroadcastFree(s)
    case SwapActive => (t.pc.Closing? || t.pc.Destroying?) && t.pc.stage == Swap
    case CloseFd => ((t.pc.Closing? || t.pc.Destroying?) && t.pc.stage == Close) || t.pc == Releasing(false)
    case MarkFd => ((t.pc.Closing? || t.pc.Destroying?) && t.pc.stage == Mark) || t.pc == Releasing(true)
  }

  /** What handle_register and handle_login let through to the registry. */
  predicate Allowed(choice: Choice) {
    match choice
    case Register(name, password) => ValidUsername(name) && password != []
    case Login(name, password) => name != [] && password != []
    case _ => true
  }

  /** shutdown_all at one client: close_session, if it is still active. */
  function SweptSwap(s: State, i: Sid): State
    requires s.main.Sweeping? && s.main.todo != []
  {
    if i < |s.threads| && s.threads[i].active
    then At(s, i, s.threads[i].(active := false)).(main := s.main.(stage := Close))
    else s.(main := Sweeping(s.main.todo[1..], Swap))
  }

  function SweptClose(s: State, i: Sid): State
    requires s.main.Sweeping?
  {
    if i < |s.threads| then At(s, i, CloseIfOpen(s.threads[i])).(main := s.main.(stage := Mark)) else s
  }

  function SweptMark(s: State, i: Sid): State
    requires s.main.Sweeping? && s.main.todo != []
  {
    if i < |s.threads|
    then At(s, i, s.threads[i].(fdOpen := false)).(main := Sweeping(s.main.todo[1..], Swap))
    else s
  }

  /** The first half of UniqueFd::reset. */
  function CloseIfOpen(t: Thread): Thread {
    if t.fdOpen then t.(closes := t.closes + 1) else t
  }

  function HandlerNext(s: State, i: Sid, t: Thread, step: HandlerStep): State
    requires i < |s.threads| && t == s.threads[i] && HandlerEnabled(s, t, step)
  {
    match step
    case SendMenu(sent) => At(s, i, MenuSent(t, sent))
    case Choose(choice) => At(s, i, Chosen(t, choice))
    case CallRegister(written) =>
      if t.pc.name in s.users || !written then At(s, i, Rejected(t))
      else At(s, i, t.(pc := Naming(t.pc.name))).(users := s.users[t.pc.name := t.pc.password])
    case CallAuthenticate =>
      At(s, i, if t.pc.name in s.users && s.users[t.pc.name] == t.pc.password
               then t.(pc := Naming(t.pc.name)) else Rejected(t))
    case SetName =>
      At(s, i, t.(pc := Adding)).(names := if i in s.names then s.names else s.names[i := t.pc.name])
    case AddClient =>
      At(s, i, t.(pc := Entering, adds := t.adds + 1))
        .(clients := Add(s.clients, i, NameOf(s, i)), latest := s.latest[NameOf(s, i) := i])
    case Enter => At(s, i, t.(pc := Chatting)).(rooms := Join(s.rooms, t.room, i))
    case Hear(line) => At(s, i, Heard(t, line))
    case LeaveCurrent => At(s, i, Departed(t)).(rooms := Leave(s.rooms, t.room, i))
    case JoinCurrent => At(s, i, t.(pc := Chatting)).(rooms := Join(s.rooms, t.room, i))
    case Speak =>
      if t.room == [] then Relay(s, i, Everyone, t.pc.text, ActiveOthers(s, NameOf(s, i)))
      else if t.room in s.rooms then Relay(s, i, InRoom(t.room), t.pc.text, s.rooms[t.room])
      else At(s, i, t.(pc := Chatting))
    case Page =>
      if t.pc.to in s.clients.index && IsActive(s, s.clients.index[t.pc.to])
      then Relay(s, i, OneUser(t.pc.to), t.pc.text, {s.clients.index[t.pc.to]})
      else At(s, i, t.(pc := Chatting))
    case Deliver(to, sent) => Delivered(s, i, t.pc.line, t.pc.rest, to, sent)
    case EndRelay => At(s, i, t.(pc := Chatting))
    case SendFails => At(s, i, t.(active := false))
    case LeaveRooms => At(s, i, t.(pc := Removing)).(rooms := LeaveAll(s.rooms, i))
    case RemoveClient => At(s, i, t.(pc := Closing(Swap))).(clients := Remove(s.clients, i, NameOf(s, i)))
    case SwapActive => At(s, i, Swapped(t))
    case CloseFd => At(s, i, Closed(t))
    case MarkFd => At(s, i, Marked(t))
  }

  /** The fourth time round, the goodbye is sent instead of the menu. */
  function MenuSent(t: Thread, sent: bool): Thread
    requires t.pc.Menu?
  {
    if t.pc.attempt >= MAX_AUTH_ATTEMPTS then t.(pc := LeavingAll)
    else if sent then t.(pc := Choosing(t.pc.attempt), menus := t.menus + 1)
    else t.(pc := LeavingAll, active := false)
  }

  /** A handler that cannot make sense of the answer goes on to the next attempt; a lost one cleans up. */
  function Chosen(t: Thread, choice: Choice): Thread
    requires t.pc.Choosing?
  {
    match choice
    case Register(name, password) => t.(pc := SigningUp(t.pc.attempt, name, password))
    case Login(name, password) => t.(pc := SigningIn(t.pc.attempt, name, password))
    case Retry => t.(pc := Menu(t.pc.attempt + 1))
    case Lost => t.(pc := LeavingAll)
  }

  function Rejected(t: Thread): Thread
    requires t.pc.SigningUp? || t.pc.SigningIn?
  {
    t.(pc := Menu(t.pc.attempt + 1))
  }

  /** recv_loop on one line; an empty line is a disconnect. */
  function Heard(t: Thread, line: Bytes): Thread {
    if line == [] then t.(pc := LeavingAll) else Obeyed(t, LineCommand(line))
  }

  function Obeyed(t: Thread, command: Command): Thread {
    match command
    case Quit => t.(pc := LeavingAll)
    case Nothing => t
    case Refused(_) => t
    case JoinRoom(room) => if t.room != [] then t.(pc := Leaving(Some(room))) else t.(pc := Joining, room := room)
    case LeaveRoom => if t.room != [] then t.(pc := Leaving(None)) else t
    case Private(to, text) => t.(pc := Paging(to, text))
    case Say(text) => t.(pc := Speaking(text))
  }

  /** After leave_room: current_room_ is the next room or none. */
  function Departed(t: Thread): Thread
    requires t.pc.Leaving?
  {
    if t.pc.next.Some? then t.(pc := Joining, room := t.pc.next.value) else t.(pc := Chatting, room := [])
  }

  // close_session, then ~Session's close_session, then ~UniqueFd.

  function AfterClose(pc: Pc): Pc {
    if pc.Closing? then Destroying(Swap) else Releasing(false)
  }

  function Swapped(t: Thread): Thread
    requires t.pc.Closing? || t.pc.Destroying?
  {
    if t.active then t.(pc := t.pc.(stage := Close), active := false) else t.(pc := AfterClose(t.pc))
  }

  function Closed(t: Thread): Thread
    requires t.pc.Closing? || t.pc.Destroying? || t.pc.Releasing?
  {
    CloseIfOpen(t).(pc := if t.pc.Releasing? then Releasing(true) else t.pc.(stage := Mark))
  }

  function Marked(t: Thread): Thread
    requires t.pc.Closing? || t.pc.Destroying? || t.pc.Releasing?
  {
    if t.pc.Releasing? then t.(pc := Done, fdOpen := false, deletes := t.deletes + 1)
    else t.(pc := AfterClose(t.pc), fdOpen := false)
  }

  predicate IsActive(s: State, i: Sid) {
    i < |s.threads| && s.threads[i].active
  }

  function ActiveOthers(s: State, sender: Bytes): set<Sid> {
    set i | i in s.clients.list && IsActive(s, i) && NameOf(s, i) != sender
  }

  function Relay(s: State, i: Sid, scope: Scope, text: Bytes, audience: set<Sid>): State
    requires i < |s.threads|
  {
    At(s, i, s.threads[i].(pc := Relaying(|s.lines|, audience)))
      .(lines := s.lines + [Line(i, NameOf(s, i), scope, text, audience, map[])])
  }

  /** In the destructor or past it. */
  predicate IsDying(pc: Pc) {
    pc.Destroying? || pc.Releasing? || pc.Done?
  }

  /** send_msg to one member of the audience. Nothing is claimed about a session whose destructor has begun. */
  function FateOf(s: State, line: Line, to: Sid, sent: bool): Fate
    requires to < |s.threads|
  {
    if IsDying(s.threads[to].pc) then Freed
    else if !s.threads[to].active then Inactive
    else if line.scope.InRoom? && NameOf(s, to) == line.sender then OwnName
    else if sent then Sent
    else Failed
  }

  function Delivered(s: State, i: Sid, l: nat, rest: set<Sid>, to: Sid, sent: bool): State
    requires i < |s.threads| && l < |s.lines| && to < |s.threads|
  {
    var fate := FateOf(s, s.lines[l], to, sent);
    var s1 := At(s, i, s.threads[i].(pc := Relaying(l, rest - {to})));
    var t := s1.threads[to];
    At(s1, to, if fate == Sent then t.(inbox := t.inbox + [l]) else if fate == Failed then t.(active := false) else t)
      .(lines := s.lines[l := s.lines[l].(fates := s.lines[l].fates[to := fate])])
  }

  // Runs.

  predicate Initial(s: State) {
    && s.threads == [] && s.names == map[] && s.clients == Cleared() && s.latest == map[] && s.rooms == map[]
    && s.lines == [] && s.main == Accepting && s.tids == [] && s.joined == []
    && forall name :: name in s.users ==> ValidUsername(name)
  }

  /** The states that a sequence of events leads through. */
  ghost predicate IsRun(states: seq<State>, events: seq<Event>) {
    && |states| == |events| + 1
    && Initial(states[0])
    && forall k :: 0 <= k < |events| ==> Enabled(states[k], events[k]) && states[k + 1] == Next(states[k], events[k])
  }

  ghost predicate Reachable(s: State) {
    exists states, events :: IsRun(states, events) && states[|events|] == s
  }
}
