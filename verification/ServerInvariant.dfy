// What holds in every reachable state of the server, for any number of clients and every
// interleaving: one inductive invariant that ties program counters to the shared tables.

module ServerInvariant {
  import opened Accounts
  import opened ByteStrings
  import opened ChatCommands
  import opened ClientTables
  import opened RoomTables
  import opened ServerSystem

  // One handler.

  /** Past set_username. */
  predicate IsNamed(pc: Pc) {
    !(pc.Menu? || pc.Choosing? || pc.SigningUp? || pc.SigningIn? || pc.Naming?)
  }

  /** Between add_client and cleanup. */
  predicate InChat(pc: Pc) {
    pc.Entering? || pc.Chatting? || pc.Leaving? || pc.Joining? || pc.Speaking? || pc.Paging? || pc.Relaying?
  }

  predicate InCleanup(pc: Pc) {
    pc.LeavingAll? || pc.Removing? || pc.Closing? || pc.Destroying? || pc.Releasing? || pc.Done?
  }

  /** The attempt that the handler is in, and whether its menu was sent. */
  predicate MenusOk(t: Thread) {
    match t.pc
    case Menu(k) => k <= MAX_AUTH_ATTEMPTS && t.menus <= k
    case Choosing(k) => k < MAX_AUTH_ATTEMPTS && t.menus <= k + 1
    case SigningUp(k, _, _) => k < MAX_AUTH_ATTEMPTS && t.menus <= k + 1
    case SigningIn(k, _, _) => k < MAX_AUTH_ATTEMPTS && t.menus <= k + 1
    case _ => t.menus <= MAX_AUTH_ATTEMPTS
  }

  predicate ThreadOk(t: Thread, named: bool) {
    && MenusOk(t)
    && t.adds <= 1
    && (named ==> IsNamed(t.pc))
    && (t.pc.SigningUp? ==> ValidUsername(t.pc.name))
    && (t.pc.Adding? ==> t.adds == 0)
    && (InChat(t.pc) ==> t.adds == 1)
    && (t.adds == 1 || t.pc.Adding? ==> named)
    && (t.adds == 0 || t.pc.Entering? ==> t.room == LOBBY)
    && (t.pc.Leaving? || t.pc.Joining? ==> t.room != [])
    && (t.deletes == if t.pc.Done? then 1 else 0)
  }

  /** Rooms are single words. */
  predicate RoomNamesOk(t: Thread) {
    && (t.room == [] || IsWord(t.room))
    && (t.pc.Leaving? && t.pc.next.Some? ==> IsWord(t.pc.next.value))
  }

  /** The room that the session of such a handler is in. */
  function RoomOf(t: Thread): Option<Bytes> {
    if t.room == [] || t.adds == 0 || t.pc.Entering? || t.pc.Joining? || (InCleanup(t.pc) && !t.pc.LeavingAll?)
    then None else Some(t.room)
  }

  /** Added and not yet removed by its own handler. */
  predicate Connected(t: Thread) {
    t.adds == 1 && (InChat(t.pc) || t.pc.LeavingAll? || t.pc.Removing?)
  }

  /** Descriptor and flag, given how far shutdown_all has come with this session. */
  predicate DescriptorOk(t: Thread, sweep: Stage) {
    && (t.pc.Closing? || t.pc.Destroying? || t.pc.Releasing? || t.pc.Done? ==> sweep == Swap)
    && ((t.pc.Closing? && t.pc.stage != Swap) || t.pc.Destroying? || t.pc.Releasing? || t.pc.Done? ==> !t.active)
    && (sweep != Swap ==> !t.active)
    && (t.active ==> t.fdOpen)
    && match t.pc
       case Closing(stage) => if stage == Swap then StageOk(t, sweep) else StageOk(t, stage)
       case Destroying(stage) => StageOk(t, stage)
       case Releasing(closed) => if closed then t.closes == 1 else StageOk(t, Swap)
       case Done => t.closes == 1 && !t.fdOpen
       case _ => StageOk(t, sweep)
  }

  predicate StageOk(t: Thread, stage: Stage) {
    match stage
    case Swap => t.closes == if t.fdOpen then 0 else 1
    case Close => t.fdOpen && t.closes == 0
    case Mark => t.fdOpen && t.closes == 1
  }

  /** The stage at which shutdown_all holds session i. */
  function SweepOf(m: Main, i: Sid): Stage {
    if m.Sweeping? && m.todo != [] && m.todo[0] == i then m.stage else Swap
  }

  // The shared tables.

  ghost predicate ThreadsOk(s: State) {
    && (forall i :: 0 <= i < |s.threads| ==> ThreadOk(s.threads[i], i in s.names))
    && (forall i :: i in s.names ==> i < |s.threads|)
  }

  ghost predicate DescriptorsOk(s: State) {
    forall i :: 0 <= i < |s.threads| ==> DescriptorOk(s.threads[i], SweepOf(s.main, i))
  }

  /** The room table is a function of the program counters. */
  ghost predicate RoomsOk(s: State) {
    && NoEmptyRoom(s.rooms)
    && (forall room, i: Sid {:trigger Member(s.rooms, room, i)} ::
          Member(s.rooms, room, i) <==> i < |s.threads| && RoomOf(s.threads[i]) == Some(room))
    && (forall i :: 0 <= i < |s.threads| ==> RoomNamesOk(s.threads[i]))
  }

  ghost predicate ClientsOk(s: State) {
    && Indexed(s.clients, s.latest, s.names)
    && (forall i :: i in s.clients.list ==> i < |s.threads| && Connected(s.threads[i]))
    && (forall u :: u in s.latest ==> s.latest[u] < |s.threads| && s.threads[s.latest[u]].adds == 1)
  }

  /** Every name stands for an account with a valid name. */
  ghost predicate NamesOk(s: State) {
    && (forall i :: i in s.names ==> s.names[i] in s.users)
    && (forall i :: 0 <= i < |s.threads| && s.threads[i].pc.Naming? ==> s.threads[i].pc.name in s.users)
    && (forall name :: name in s.users ==> ValidUsername(name))
  }

  // The relayed lines.

  /** Those that the speaker has still to send the line to. */
  function Pending(s: State, l: nat): set<Sid>
    requires l < |s.lines|
  {
    var line := s.lines[l];
    if line.speaker < |s.threads| && s.threads[line.speaker].pc.Relaying? && s.threads[line.speaker].pc.line == l
    then s.threads[line.speaker].pc.rest else {}
  }

  ghost predicate LineOk(s: State, l: nat)
    requires l < |s.lines|
  {
    var line := s.lines[l];
    && line.speaker in s.names && s.names[line.speaker] == line.sender
    && (forall i :: i in line.audience ==> i < |s.threads| && i in s.names)
    && Pending(s, l) <= line.audience
    && line.fates.Keys == line.audience - Pending(s, l)
    && (line.scope.InRoom? ==> IsWord(line.scope.room))
    && (line.scope.InRoom? ==> forall i :: i in line.fates && line.fates[i] == Sent ==> s.names[i] != line.sender)
  }

  ghost predicate LinesOk(s: State) {
    && (forall l :: 0 <= l < |s.lines| ==> LineOk(s, l))
    && (forall i :: 0 <= i < |s.threads| && s.threads[i].pc.Relaying? ==>
          s.threads[i].pc.line < |s.lines| && s.lines[s.threads[i].pc.line].speaker == i)
  }

  /** Session i was sent line l. */
  predicate WasSent(s: State, l: nat, i: Sid) {
    l < |s.lines| && i in s.lines[l].fates && s.lines[l].fates[i] == Sent
  }

  ghost predicate InboxOk(s: State, i: Sid)
    requires i < |s.threads|
  {
    && NoDup(s.threads[i].inbox)
    && (forall l {:trigger WasSent(s, l, i)} :: l in s.threads[i].inbox <==> WasSent(s, l, i))
  }

  ghost predicate InboxesOk(s: State) {
    forall i :: 0 <= i < |s.threads| ==> InboxOk(s, i)
  }

  // The main thread.

  function TodoOf(m: Main): seq<Sid> {
    if m.JoiningAll? then m.todo else []
  }

  /** All sessions so far, in order of arrival. */
  function Iota(n: nat): seq<Sid> {
    seq(n, i => i)
  }

  ghost predicate MainOk(s: State) {
    && (s.main.Sweeping? ==>
          && (forall i :: i in s.main.todo ==> i in s.clients.list)
          && (s.main.stage != Swap ==> s.main.todo != []))
    && s.joined + TodoOf(s.main) + s.tids == Iota(|s.threads|)
    && (s.main.JoiningAll? || s.main.Stopped? ==> s.tids == [])
    && (forall i :: i in s.joined ==> i < |s.threads| && s.threads[i].pc.Done?)
  }

  ghost predicate Inv(s: State) {
    && ThreadsOk(s)
    && DescriptorsOk(s)
    && RoomsOk(s)
    && ClientsOk(s)
    && NamesOk(s)
    && LinesOk(s)
    && InboxesOk(s)
    && MainOk(s)
  }
}
