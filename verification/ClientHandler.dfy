// src/server/client_handler.cpp: one handler from the first menu to the last close, as the
// code runs when no other thread gets in between. ServerSystem has the interleavings.

module Handlers {
  import opened Accounts
  import opened Admission
  import opened AuthProtocol
  import opened Broadcast
  import opened ByteStrings
  import opened ChatCommands
  import opened ChatSessions
  import opened Ciphers
  import opened ClientTables
  import opened Delivery
  import opened Dialogue
  import opened FileIo
  import opened Messages
  import opened RoomManagement
  import opened RoomTables
  import opened Sessions
  import opened Streams
  import Registry

  /** Where in the dialogue a send failed, and what had been sent before it. */
  datatype Stop = Stop(server: Server, out: Bytes)

  /** A proper part of the wire went out. */
  predicate CutShort(out: Bytes, wire: Bytes, sent: Bytes) {
    out <= sent < out + wire
  }

  lemma CutShortIsPrefix(out: Bytes, wire: Bytes, sent: Bytes)
    requires CutShort(out, wire, sent)
    ensures Arriving(sent) < Arriving(out + wire)
  {
    assert out + wire == sent + (out + wire)[|sent|..];
    ArrivingAppend(sent, (out + wire)[|sent|..]);
  }

  lemma SaidBeforeTheEnd(key: Byte, server: Server, arrivals: seq<Arrival>, out: Bytes, text: Bytes, disks: seq<Disk>)
    requires InTime(server) && ServerSendsNow(server)
    ensures Arriving(out + Line(key, SaidBy(server))) <=
            Converse(At(key, server, arrivals, out), text, disks).end.toClient
  {
    Says(key, server, arrivals, out, text, disks);
    ConverseExtends(At(key, AfterSending(server), arrivals, out + Line(key, SaidBy(server))), text, disks);
  }

  lemma WelcomeIsTheEnd(key: Byte, server: Server, arrivals: seq<Arrival>, out: Bytes, text: Bytes, disks: seq<Disk>)
    requires InTime(server) && server.SendOk?
    ensures var d := Converse(At(key, server, arrivals, out), text, disks);
            d.end.server.Chat? && d.end.server.name == server.name && d.end.toServer == arrivals && d.text == text
  {
    Says(key, server, arrivals, out, text, disks);
    IsOver(key, AfterSending(server), arrivals, out + Line(key, SaidBy(server)), text, disks);
  }

  class ClientHandler {
    const session: Session
    const broadcast: BroadcastManager
    const registry: Registry.UserRegistry
    const rooms: RoomManager
    const cipher: Cipher
    var currentRoom: Bytes
    var incoming: seq<Arrival>     // what ::recv still has for this connection
    const disks: seq<Disk>         // how the disk will treat each attempt to register
    ghost const peers: set<Session>
    ghost var stopped: Option<Stop>
    ghost const remainder: (Server, seq<Arrival>, Bytes, Bytes) -> Dialogue

    constructor (session: Session, broadcast: BroadcastManager, registry: Registry.UserRegistry, rooms: RoomManager,
                 cipher: Cipher, incoming: seq<Arrival>, disks: seq<Disk>, ghost peers: set<Session>)
      ensures this.session == session && this.broadcast == broadcast && this.registry == registry
      ensures this.rooms == rooms && this.cipher == cipher && this.incoming == incoming && currentRoom == "lobby"
      ensures this.disks == disks && this.peers == peers && stopped == None && FollowsProtocol()
    {
      this.session, this.broadcast, this.registry, this.rooms := session, broadcast, registry, rooms;
      this.cipher, this.incoming, currentRoom := cipher, incoming, "lobby";
      this.disks, this.peers, stopped := disks, peers, None;
      remainder := (server, arrivals, out, text) => Converse(At(cipher.key, server, arrivals, out), text, disks);
    }

    /**
     * `remainder` is the rest of the dialogue from a point on, as the server's state machine has it.
     * Contracts speak of `remainder` and not of Converse itself: Converse is recursive, and every
     * mention of it would have the verifier unroll the state machine. This predicate relates the
     * two, and the lemmas on one step of Converse are the only place where it is unrolled.
     */
    ghost predicate FollowsProtocol() {
      forall server, arrivals, out, text {:trigger Converse(At(cipher.key, server, arrivals, out), text, disks)} ::
        remainder(server, arrivals, out, text) == Converse(At(cipher.key, server, arrivals, out), text, disks)
    }

    method SendEncrypted(plain: Bytes) returns (ok: bool)
      requires session.Valid()
      modifies session`active, session`sent
      ensures session.Valid() && ok == session.active
      ensures Took(session, Xor(plain, cipher.key))
    {
      var wire := cipher.Encrypt(plain);
      ok := session.SendMsg(wire);
    }

    method ReceiveLine() returns (line: Bytes)
      modifies this`incoming
      ensures Received(line, incoming) == ReadLine(cipher.key, old(incoming))
    {
      line, incoming := RecvLine(cipher.key, incoming);
    }

    /** The rest of the dialogue from here, if the server is in that state and has not stopped before. */
    ghost function Rest(server: Server): Dialogue
      reads this, session, registry.file
    {
      if stopped.None? then remainder(server, incoming, session.sent, registry.file.Stored())
      else remainder(stopped.value.server, incoming, stopped.value.out, registry.file.Stored())
    }

    /** The session is active, or the dialogue stopped in the middle of what the server had to say. */
    ghost predicate Steady()
      reads this, session, session.clientFd
    {
      && session.Valid() && FollowsProtocol() && (session.active <==> stopped.None?)
      && (stopped.Some? ==>
            && InTime(stopped.value.server) && ServerSendsNow(stopped.value.server)
            && CutShort(stopped.value.out, Line(cipher.key, SaidBy(stopped.value.server)), session.sent))
    }

    /** Sends what the server has to say here, or stops here. */
    method Tell(ghost server: Server, plain: Bytes) returns (ok: bool)
      requires Steady() && InTime(server) && ServerSendsNow(server) && plain == SaidBy(server) + "\n"
      modifies session`active, session`sent, this`stopped
      ensures Steady() && (ok <==> stopped.None?)
      ensures stopped == if ok || old(stopped.Some?) then old(stopped) else Some(Stop(server, old(session.sent)))
      ensures Rest(AfterSending(server)) == old(Rest(server))
    {
      Says(cipher.key, server, incoming, session.sent, registry.file.Stored(), disks);
      ghost var out := session.sent;
      ok := SendEncrypted(plain);
      if !ok && stopped.None? {
        stopped := Some(Stop(server, out));
      }
    }

    /** -1 when the connection is lost. */
    method PresentMenu(ghost attempt: nat) returns (choice: int)
      requires Steady() && attempt < MAX_AUTH_ATTEMPTS
      modifies session`active, session`sent, this`incoming, this`stopped
      ensures Steady() && StoppedAt(SendMenu(attempt)) && (stopped.Some? ==> choice == -1)
      ensures Rest(AfterChoice(attempt, choice)) == old(Rest(SendMenu(attempt)))
    {
      var frame := Serialise(MENU);
      var ok := Tell(SendMenu(attempt), frame);
      if !ok {
        return -1;
      }
      Hears(cipher.key, AwaitChoice(attempt), incoming, session.sent, registry.file.Stored(), disks);
      var line := ReceiveLine();
      if line == [] {
        return -1;
      }
      var m := Parse(line);
      choice := Stoi(if m.kind == "CHOICE" then m.payload else m.kind);
    }

    /** Where it stopped before it still is; otherwise it can only have stopped here. */
    twostate predicate StoppedAt(server: Server)
      reads this
    {
      if old(stopped.Some?) then stopped == old(stopped) else stopped.Some? ==> stopped.value.server == server
    }

    /** The prompt and its answer; "" when either does not get through. */
    method Ask(ghost server: Server, prompt: Bytes) returns (line: Bytes)
      requires Steady() && (server.AskName? || server.AskPassword?) && InTime(server) && prompt == SaidBy(server)
      modifies session`active, session`sent, this`incoming, this`stopped
      ensures Steady() && StoppedAt(server) && (stopped.Some? ==> line == [])
      ensures Rest(AfterHearing(AfterSending(server), line)) == old(Rest(server))
    {
      var ok := Tell(server, prompt + "\n");
      if !ok {
        return [];
      }
      Hears(cipher.key, AfterSending(server), incoming, session.sent, registry.file.Stored(), disks);
      line := ReceiveLine();
    }

    method Reply(ghost server: Server, m: Message)
      requires Steady() && InTime(server) && ServerSendsNow(server) && Body(m) == SaidBy(server)
      modifies session`active, session`sent, this`stopped
      ensures Steady() && StoppedAt(server)
      ensures Rest(AfterSending(server)) == old(Rest(server))
    {
      var frame := Serialise(m);
      var ok := Tell(server, frame);
    }

    /** Listed first, welcomed afterwards. */
    method Admit(ghost attempt: nat, signUp: bool, username: Bytes)
      requires Steady() && stopped.None? && !session.usernameSet && attempt < MAX_AUTH_ATTEMPTS
      modifies session`active, session`sent, session`username, session`usernameSet, this`stopped, broadcast
      ensures Steady() && StoppedAt(SendOk(attempt, signUp, username))
      ensures session.usernameSet && session.username == username
      ensures broadcast.Table() == Add(old(broadcast.Table()), session, username)
      ensures Rest(Chat(attempt, username)) == old(Rest(List(attempt, signUp, username)))
    {
      Lists(cipher.key, List(attempt, signUp, username), incoming, session.sent, registry.file.Stored(), disks);
      session.SetUsername(username);
      broadcast.AddClient(session);
      Reply(SendOk(attempt, signUp, username), Ok(Welcome(signUp, username)));
    }

    /** The dialogue stopped in the welcome, and nowhere before. */
    ghost predicate StoppedInWelcome()
      reads this
    {
      stopped.Some? && stopped.value.server.SendOk?
    }

    /** One attempt has run its course; a refused one leaves no trace. */
    twostate predicate Attempted(ok: bool)
      reads this, session, session.clientFd, broadcast, registry.file
    {
      && Steady() && (session.usernameSet <==> ok) && (stopped.Some? ==> (ok <==> StoppedInWelcome()))
      && (StoppedInWelcome() ==> session.username == stopped.value.server.name)
      && broadcast.Table() ==
         (if ok then Add(old(broadcast.Table()), session, session.username) else old(broadcast.Table()))
      && (!ok ==> registry.file.Stored() == old(registry.file.Stored()))
    }

    /** Where an attempt leads. */
    ghost function Onward(attempt: nat, ok: bool): Server
      reads session
    {
      if ok then Chat(attempt, session.username) else SendMenu(attempt + 1)
    }

    method Enrol(attempt: nat, username: Bytes, password: Bytes) returns (ok: bool)
      requires Steady() && stopped.None? && attempt < MAX_AUTH_ATTEMPTS && attempt < |disks|
      modifies registry.file
      ensures !ok ==> registry.file.Stored() == old(registry.file.Stored())
      ensures Rest(AfterVerdict(attempt, true, username, ok)) == old(Rest(Decide(attempt, true, username, password)))
    {
      ghost var verdict := Decide(attempt, true, username, password);
      Decides(cipher.key, verdict, incoming, session.sent, registry.file.Stored(), disks);
      var encPass := cipher.Encrypt(password);
      ok := registry.RegisterUser(username, encPass, disks[attempt]);
    }

    /** handle_register from the call of register_user on. */
    method SignUp(attempt: nat, username: Bytes, password: Bytes) returns (ok: bool)
      requires Steady() && stopped.None? && !session.usernameSet && attempt < MAX_AUTH_ATTEMPTS && attempt < |disks|
      modifies session`active, session`sent, session`username, session`usernameSet, this`stopped
      modifies broadcast, registry.file
      ensures Attempted(ok)
      ensures Rest(Onward(attempt, ok)) ==
              old(Rest(Decide(attempt, true, username, password)))
    {
      ok := Enrol(attempt, username, password);
      if !ok {
        Reply(SendErr(attempt, UserExists), Err(USER_EXISTS));
        return false;
      }
      Admit(attempt, true, username);
    }

    /** handle_register once the password is there. */
    method RegisterWith(attempt: nat, username: Bytes, password: Bytes) returns (ok: bool)
      requires Steady() && stopped.None? && !session.usernameSet && attempt < MAX_AUTH_ATTEMPTS && attempt < |disks|
      requires password != []
      modifies session`active, session`sent, session`username, session`usernameSet, this`stopped
      modifies broadcast, registry.file
      ensures Attempted(ok)
      ensures Rest(Onward(attempt, ok)) == old(Rest(AfterPassword(attempt, true, username, password)))
    {
      var valid := ValidatePassword(password);
      if !valid {
        Reply(SendErr(attempt, BadPassword), Err(BAD_PASSWORD));
        return false;
      }
      ok := SignUp(attempt, username, password);
    }

    /** handle_register from the password prompt on. */
    method ChoosePassword(attempt: nat, username: Bytes) returns (ok: bool)
      requires Steady() && !StoppedInWelcome() && !session.usernameSet
      requires attempt < MAX_AUTH_ATTEMPTS && attempt < |disks|
      modifies this`incoming, session`active, session`sent, session`username, session`usernameSet, this`stopped
      modifies broadcast, registry.file
      ensures Attempted(ok)
      ensures Rest(Onward(attempt, ok)) ==
              old(Rest(AskPassword(attempt, true, username)))
    {
      var password := Ask(AskPassword(attempt, true, username), PASSWORD_PROMPT);
      if password == [] {
        return false;
      }
      ok := RegisterWith(attempt, username, password);
    }

    method HandleRegister(attempt: nat) returns (ok: bool)
      requires Steady() && !StoppedInWelcome() && !session.usernameSet
      requires attempt < MAX_AUTH_ATTEMPTS && attempt < |disks|
      modifies this`incoming, session`active, session`sent, session`username, session`usernameSet, this`stopped
      modifies broadcast, registry.file
      ensures Attempted(ok)
      ensures Rest(Onward(attempt, ok)) == old(Rest(AskName(attempt, true)))
    {
      var username := Ask(AskName(attempt, true), NAME_PROMPT);
      if username == [] {
        return false;
      }
      var valid := ValidateUsername(username);
      if !valid {
        Reply(SendErr(attempt, BadUsername), Err(BAD_USERNAME));
        return false;
      }
      ok := ChoosePassword(attempt, username);
    }

    method CheckPassword(ghost attempt: nat, username: Bytes, password: Bytes) returns (ok: bool)
      requires Steady() && stopped.None? && attempt < MAX_AUTH_ATTEMPTS
      ensures Rest(AfterVerdict(attempt, false, username, ok)) == Rest(Decide(attempt, false, username, password))
    {
      ghost var verdict := Decide(attempt, false, username, password);
      Decides(cipher.key, verdict, incoming, session.sent, registry.file.Stored(), disks);
      var encPass := cipher.Encrypt(password);
      ok := registry.Authenticate(username, encPass);
    }

    /** handle_login from the call of authenticate on. */
    method SignIn(ghost attempt: nat, username: Bytes, password: Bytes) returns (ok: bool)
      requires Steady() && stopped.None? && !session.usernameSet && attempt < MAX_AUTH_ATTEMPTS
      modifies session`active, session`sent, session`username, session`usernameSet, this`stopped, broadcast
      ensures Attempted(ok)
      ensures Rest(Onward(attempt, ok)) ==
              old(Rest(Decide(attempt, false, username, password)))
    {
      ok := CheckPassword(attempt, username, password);
      if !ok {
        Reply(SendErr(attempt, BadCredentials), Err(BAD_CREDENTIALS));
        return false;
      }
      Admit(attempt, false, username);
    }

    method HandleLogin(ghost attempt: nat) returns (ok: bool)
      requires Steady() && !StoppedInWelcome() && !session.usernameSet && attempt < MAX_AUTH_ATTEMPTS
      modifies this`incoming, session`active, session`sent, session`username, session`usernameSet, this`stopped
      modifies broadcast
      ensures Attempted(ok)
      ensures Rest(Onward(attempt, ok)) == old(Rest(AskName(attempt, false)))
    {
      var username := Ask(AskName(attempt, false), NAME_PROMPT);
      if username == [] {
        return false;
      }
      var password := Ask(AskPassword(attempt, false, username), PASSWORD_PROMPT);
      if password == [] {
        return false;
      }
      ok := SignIn(attempt, username, password);
    }

    method HandleChoice(attempt: nat, choice: int) returns (done: bool)
      requires Steady() && !StoppedInWelcome() && !session.usernameSet
      requires attempt < MAX_AUTH_ATTEMPTS && attempt < |disks| && 0 <= choice
      modifies this`incoming, session`active, session`sent, session`username, session`usernameSet, this`stopped
      modifies broadcast, registry.file
      ensures Attempted(done)
      ensures Rest(Onward(attempt, done)) == old(Rest(AfterChoice(attempt, choice)))
    {
      done := false;
      if choice == 1 {
        done := HandleRegister(attempt);
      } else if choice == 2 {
        done := HandleLogin(attempt);
      } else {
        Reply(SendErr(attempt, BadChoice), Err(BAD_CHOICE));
      }
    }

    /**
     * Up to three attempts: the dialogue is that of the protocol's state machine, to its end or to
     * the message in which the connection broke.
     */
    method TryAuthenticate() returns (ok: bool, ghost end: Server)
      requires Steady() && !StoppedInWelcome() && !session.usernameSet && |disks| == MAX_AUTH_ATTEMPTS
      modifies this`incoming, session`active, session`sent, session`username, session`usernameSet, this`stopped
      modifies broadcast, registry.file
      ensures Attempted(ok)
      ensures if ok then end.Chat? && end.name == session.username else end.GaveUp?
      ensures Rest(end) == old(Rest(SendMenu(0)))
    {
      for attempt := 0 to MAX_AUTH_ATTEMPTS
        invariant Attempted(false)
        invariant Rest(SendMenu(attempt)) == old(Rest(SendMenu(0)))
      {
        var choice := PresentMenu(attempt);
        if choice < 0 {
          return false, GaveUp;
        }
        var done := HandleChoice(attempt, choice);
        if done {
          return true, Chat(attempt, session.username);
        }
      }
      Reply(SendMenu(MAX_AUTH_ATTEMPTS), Err(TOO_MANY));
      return false, GaveUp;
    }

    /** In under this name, the registry file as the dialogue leaves it, and this still to be read. */
    ghost predicate GotThrough(d: Dialogue, rest: seq<Arrival>)
      reads session, registry.file
    {
      && d.end.server.Chat? && d.end.server.name == session.username
      && d.end.toServer == rest && d.text == registry.file.Stored()
    }

    /** The dialogue, also with a connection that breaks: then what was written is cut short. */
    method Converses() returns (ok: bool)
      requires session.Valid() && FollowsProtocol() && stopped.None?
      requires !session.usernameSet && |disks| == MAX_AUTH_ATTEMPTS
      modifies this`incoming, session`active, session`sent, session`username, session`usernameSet, this`stopped
      modifies broadcast, registry.file
      ensures Attempted(ok)
      ensures ok ==> GotThrough(old(Rest(SendMenu(0))), incoming)
      ensures Arriving(session.sent) <= old(Rest(SendMenu(0))).end.toClient
      ensures session.active <==> Arriving(session.sent) == old(Rest(SendMenu(0))).end.toClient
    {
      if !session.active {
        stopped := Some(Stop(SendMenu(0), session.sent));
        assert session.sent == session.sent + Line(cipher.key, Body(MENU))[..0];
      }
      ghost var end;
      ok, end := TryAuthenticate();
      ghost var text := registry.file.Stored();
      if stopped.None? {
        IsOver(cipher.key, end, incoming, session.sent, text, disks);
      } else {
        ghost var at, out := stopped.value.server, stopped.value.out;
        CutShortIsPrefix(out, Line(cipher.key, SaidBy(at)), session.sent);
        SaidBeforeTheEnd(cipher.key, at, incoming, out, text, disks);
        if at.SendOk? {
          WelcomeIsTheEnd(cipher.key, at, incoming, out, text, disks);
        }
      }
    }

    /** Whoever gets in, even if the welcome breaks off, got in by the protocol and with the right password. */
    method Authenticate() returns (ok: bool)
      requires session.Valid() && FollowsProtocol() && stopped.None?
      requires !session.usernameSet && |disks| == MAX_AUTH_ATTEMPTS
      modifies this`incoming, session`active, session`sent, session`username, session`usernameSet, this`stopped
      modifies broadcast, registry.file
      ensures Attempted(ok)
      ensures ok ==> GotThrough(old(Rest(SendMenu(0))), incoming)
      ensures ok && Registry.WellFormed(old(registry.file.Stored())) ==>
                GotIn(cipher.key, old(incoming), old(registry.file.Stored()), session.username,
                      registry.file.Stored(), incoming)
      ensures Arriving(session.sent) <= old(Rest(SendMenu(0))).end.toClient
      ensures session.active <==> Arriving(session.sent) == old(Rest(SendMenu(0))).end.toClient
    {
      if Registry.WellFormed(registry.file.Stored()) {
        WhoConversesIn(cipher.key, incoming, session.sent, registry.file.Stored(), disks);
      }
      ok := Converses();
    }

    // The chat. `peers` are the other sessions, `home` is the room table without this one.

    ghost predicate Surroundings(home: Rooms<Session>)
      reads session, session.clientFd, broadcast, peers, set p | p in peers :: p.clientFd
    {
      && rooms.broadcast == broadcast && broadcast.cipher.key == cipher.key
      && session.Valid() && session !in peers
      && (forall p :: p in peers ==> p.Valid() && p.clientFd != session.clientFd)
      && NoDup(broadcast.clients)
      && (forall s :: s in broadcast.clients ==> s in peers || s == session)
      && (forall u :: u in broadcast.byName ==> broadcast.byName[u] in peers || broadcast.byName[u] == session)
      && Absent(home, session)
      && (forall room :: room in home ==> home[room] <= peers)
    }

    ghost predicate World(home: Rooms<Session>)
      reads this, session, session.clientFd, broadcast, rooms, peers, set p | p in peers :: p.clientFd
    {
      Surroundings(home) && rooms.rooms == Placed(home, currentRoom, session)
    }

    /** The session and the tables as the others see them. */
    ghost function Outside(home: Rooms<Session>): View<Session>
      reads this, session, broadcast
    {
      View(cipher.key, session.username, home, broadcast.Table())
    }

    /** What p should get for this command; p stands for any session, the own one included. */
    ghost function Due(home: Rooms<Session>, p: Session, room: Bytes, command: Command): Bytes
      reads this, session, broadcast, p
    {
      Heard(Outside(home), session, p, p.username == session.username, room, command)
    }

    method Answer(m: Message, ghost home: Rooms<Session>, ghost p: Session)
      requires World(home) && p in peers + {session}
      modifies session`active, session`sent
      ensures World(home) && Took(p, if p == session then Xor(Frame(m), cipher.key) else [])
    {
      GotNothing(p.active, p.sent);
      var frame := Serialise(m);
      var ok := SendEncrypted(frame);
    }

    method LeaveCurrent(ghost home: Rooms<Session>)
      requires World(home) && currentRoom != []
      modifies rooms
      ensures rooms.rooms == home
    {
      LeaveUndoesJoin(home, currentRoom, session);
      rooms.LeaveRoom(currentRoom, session);
    }

    method StepOut(ghost home: Rooms<Session>)
      requires World(home) && currentRoom != []
      modifies this`currentRoom, rooms
      ensures World(home) && currentRoom == []
    {
      LeaveCurrent(home);
      currentRoom := [];
    }

    method MoveTo(room: Bytes, ghost home: Rooms<Session>)
      requires World(home) && room != []
      modifies this`currentRoom, rooms
      ensures World(home) && currentRoom == room
    {
      if currentRoom != [] {
        LeaveCurrent(home);
      }
      currentRoom := room;
      rooms.JoinRoom(currentRoom, session);
    }

    method DoJoin(room: Bytes, ghost home: Rooms<Session>, ghost p: Session)
      requires World(home) && p in peers + {session} && room != []
      modifies this`currentRoom, rooms, session`active, session`sent
      ensures World(home) && currentRoom == room
      ensures Took(p, old(Due(home, p, currentRoom, JoinRoom(room))))
    {
      MoveTo(room, home);
      Answer(Ok("Joined room: " + currentRoom), home, p);
    }

    method DoLeave(ghost home: Rooms<Session>, ghost p: Session)
      requires World(home) && p in peers + {session}
      modifies this`currentRoom, rooms, session`active, session`sent
      ensures World(home) && currentRoom == []
      ensures Took(p, old(Due(home, p, currentRoom, LeaveRoom)))
    {
      ghost var due := Due(home, p, currentRoom, LeaveRoom);
      assert due == Encrypted(if p == session then AnswerTo(currentRoom, LeaveRoom) else None, cipher.key);
      if currentRoom != [] {
        StepOut(home);
        Answer(Ok(LEFT_ROOM), home, p);
      } else {
        Answer(Err(IN_NO_ROOM), home, p);
      }
    }

    method DoPrivate(to: Bytes, text: Bytes, ghost home: Rooms<Session>, ghost p: Session)
      requires World(home) && p in peers + {session}
      modifies peers`active, peers`sent, session`active, session`sent
      ensures World(home) && Took(p, old(Due(home, p, currentRoom, Private(to, text))))
    {
      broadcast.SendPrivate(session.username, to, text);
    }

    method SayInRoom(text: Bytes, ghost home: Rooms<Session>, ghost p: Session)
      requires World(home) && p in peers + {session} && currentRoom != []
      modifies peers`active, peers`sent, session`active, session`sent
      ensures World(home)
      ensures Took(p, if p.username != session.username && Member(home, currentRoom, p)
                      then Xor(Frame(RoomFrame(session.username, currentRoom, text)), cipher.key) else [])
    {
      rooms.BroadcastToRoom(currentRoom, session.username, RoomTag(currentRoom, text));
      assert p in rooms.InRoom(currentRoom) <==> p == session || Member(home, currentRoom, p);
    }

    method SayToEverybody(text: Bytes, ghost home: Rooms<Session>, ghost p: Session)
      requires World(home) && p in peers + {session}
      modifies peers`active, peers`sent, session`active, session`sent
      ensures World(home)
      ensures Took(p, if p.username != session.username && p in broadcast.clients
                      then Xor(Frame(Bcast(session.username, text)), cipher.key) else [])
    {
      GotNothing(p.active, p.sent);
      broadcast.Broadcast(session.username, text);
    }

    method DoSay(text: Bytes, ghost home: Rooms<Session>, ghost p: Session)
      requires World(home) && p in peers + {session}
      modifies peers`active, peers`sent, session`active, session`sent
      ensures World(home) && Took(p, old(Due(home, p, currentRoom, Say(text))))
    {
      if currentRoom != [] {
        SayInRoom(text, home, p);
      } else {
        SayToEverybody(text, home, p);
      }
    }

    method Obey(command: Command, ghost home: Rooms<Session>, ghost p: Session)
      requires World(home) && p in peers + {session} && (command.JoinRoom? ==> command.room != [])
      modifies this`currentRoom, rooms, peers`active, peers`sent, session`active, session`sent
      ensures World(home) && currentRoom == NextRoom(old(currentRoom), command)
      ensures Took(p, old(Due(home, p, currentRoom, command)))
    {
      match command
      case Quit => Answer(Ok("Goodbye!"), home, p);
      case Nothing => GotNothing(p.active, p.sent);
      case JoinRoom(room) => DoJoin(room, home, p);
      case LeaveRoom => DoLeave(home, p);
      case Private(to, text) => DoPrivate(to, text, home, p);
      case Refused(why) => Answer(Err(ComplaintText(why)), home, p);
      case Say(text) => DoSay(text, home, p);
    }

    /** Where the lines still to come will take the session. */
    ghost function FinalRoom(): Bytes
      reads this
    {
      RoomAfter(currentRoom, Commands(cipher.key, incoming))
    }

    /** All that p should get for the lines still to come. */
    ghost function AllDue(home: Rooms<Session>, p: Session): Bytes
      reads this, session, broadcast, p
    {
      AllHeard(Outside(home), session, p, p.username == session.username, currentRoom, Commands(cipher.key, incoming))
    }

    /** One line: nothing when the peer is lost, otherwise its command is obeyed. */
    method HearLine(ghost home: Rooms<Session>, ghost p: Session) returns (more: bool, ghost obeyed: seq<Command>)
      requires World(home) && p in peers + {session}
      modifies this`currentRoom, this`incoming, rooms, peers`active, peers`sent, session`active, session`sent
      ensures World(home)
      ensures Commands(cipher.key, old(incoming)) == if more then obeyed + Commands(cipher.key, incoming) else obeyed
      ensures (obeyed == [] && !more) || |obeyed| == 1
      ensures currentRoom == if obeyed == [] then old(currentRoom) else NextRoom(old(currentRoom), obeyed[0])
      ensures Took(p, if obeyed == [] then [] else old(Due(home, p, currentRoom, obeyed[0])))
      ensures more ==> |incoming| < |old(incoming)|
    {
      var line := ReceiveLine();
      if line == [] {
        return false, [];
      }
      var command := LineCommand(line);
      if command.JoinRoom? {
        JoinedRoomOfLine(line);
      }
      Obey(command, home, p);
      return !command.Quit?, [command];
    }

    /** One turn of the loop, which sends p `due`. */
    method HearNext(ghost home: Rooms<Session>, ghost p: Session) returns (more: bool, ghost due: Bytes)
      requires World(home) && p in peers + {session}
      modifies this`currentRoom, this`incoming, rooms, peers`active, peers`sent, session`active, session`sent
      ensures World(home) && Took(p, due)
      ensures old(AllDue(home, p)) == due + if more then AllDue(home, p) else []
      ensures old(FinalRoom()) == if more then FinalRoom() else currentRoom
      ensures more ==> |incoming| < |old(incoming)|
    {
      ghost var v, namesake, room := Outside(home), p.username == session.username, currentRoom;
      ghost var all := Commands(cipher.key, incoming);
      ghost var obeyed;
      more, obeyed := HearLine(home, p);
      ghost var rest := Commands(cipher.key, incoming);
      due := if obeyed == [] then [] else Heard(v, session, p, namesake, room, obeyed[0]);
      RoomAdvances(room, all, obeyed, rest, more, currentRoom);
      HeardAdvances(v, session, p, namesake, room, all, obeyed, rest, more, currentRoom, due);
    }

    /** The same after p has got `heard` since it was active or not and had taken `sent`. */
    method HearOn(
      ghost home: Rooms<Session>, ghost p: Session, ghost active: bool, ghost sent: Bytes, ghost heard: Bytes)
      returns (more: bool, ghost heard': Bytes)
      requires World(home) && p in peers + {session} && Got(active, sent, p.active, p.sent, heard)
      modifies this`currentRoom, this`incoming, rooms, peers`active, peers`sent, session`active, session`sent
      ensures World(home) && Got(active, sent, p.active, p.sent, heard')
      ensures heard + old(AllDue(home, p)) == heard' + if more then AllDue(home, p) else []
      ensures old(FinalRoom()) == if more then FinalRoom() else currentRoom
      ensures more ==> |incoming| < |old(incoming)|
    {
      ghost var active1, sent1 := p.active, p.sent;
      ghost var due;
      more, due := HearNext(home, p);
      GotMore(active, sent, active1, sent1, p.active, p.sent, heard, due);
      heard' := heard + due;
      Appended(heard, due, if more then AllDue(home, p) else []);
    }

    /** Obeys every line until one that quits, or an empty one. */
    method Listen(ghost home: Rooms<Session>, ghost p: Session)
      requires World(home) && p in peers + {session}
      modifies this`currentRoom, this`incoming, rooms, peers`active, peers`sent, session`active, session`sent
      ensures World(home) && currentRoom == old(FinalRoom())
      ensures Took(p, old(AllDue(home, p)))
    {
      ghost var active, sent, heard: Bytes := p.active, p.sent, [];
      ghost var last, all := FinalRoom(), AllDue(home, p);
      GotNothing(p.active, p.sent);
      assert [] + all == all;
      var more := true;
      while more
        invariant World(home) && Got(active, sent, p.active, p.sent, heard)
        invariant last == if more then FinalRoom() else currentRoom
        invariant all == heard + if more then AllDue(home, p) else []
        decreases more, |incoming|
      {
        more, heard := HearOn(home, p, active, sent, heard);
      }
      assert heard + [] == heard;
    }

    method Greet(ghost home: Rooms<Session>, ghost p: Session)
      requires Surroundings(home) && rooms.rooms == home && currentRoom != [] && p in peers + {session}
      modifies rooms, session`active, session`sent
      ensures World(home) && Took(p, if p == session then Xor(BANNER, cipher.key) else [])
    {
      rooms.JoinRoom(currentRoom, session);
      GotNothing(p.active, p.sent);
      var ok := SendEncrypted(BANNER);
    }

    method RecvLoop(ghost home: Rooms<Session>, ghost p: Session)
      requires Surroundings(home) && rooms.rooms == home && currentRoom != [] && p in peers + {session}
      modifies this`currentRoom, this`incoming, rooms, peers`active, peers`sent, session`active, session`sent
      ensures World(home) && currentRoom == old(FinalRoom())
      ensures Took(p, (if p == session then Xor(BANNER, cipher.key) else []) + old(AllDue(home, p)))
    {
      ghost var due, active0, sent0 := AllDue(home, p), p.active, p.sent;
      Greet(home, p);
      ghost var active1, sent1 := p.active, p.sent;
      Listen(home, p);
      GotMore(active0, sent0, active1, sent1, p.active, p.sent,
              if p == session then Xor(BANNER, cipher.key) else [], due);
    }

    /** Takes the session out of all tables, closes its descriptor and deletes it. */
    method CleanupAndExit()
      requires session.Valid()
      modifies rooms, broadcast, session`active, session.clientFd
      ensures rooms.rooms == LeaveAll(old(rooms.rooms), session)
      ensures broadcast.Table() == Remove(old(broadcast.Table()), session, session.username)
      ensures !session.active && session.clientFd.closed == [session.peer]
    {
      rooms.LeaveAllRooms(session);
      broadcast.RemoveClient(session);
      session.CloseSession();
      session.Destroy();
    }

    /** What p is due for `chat`, said from this room; home and table are without the session. */
    ghost function ChatHeard(room: Bytes, home: Rooms<Session>, table: Clients<Session>, chat: seq<Arrival>, p: Session)
      : Bytes
      reads session, p
    {
      AllHeard(View(cipher.key, session.username, home, Add(table, session, session.username)),
               session, p, p.username == session.username, room, Commands(cipher.key, chat))
    }

    /** The chat and what follows, with the tables as `listed` before the session was added. */
    method ChatAndExit(ghost home: Rooms<Session>, ghost listed: Clients<Session>, ghost p: Session)
      requires Surroundings(home) && rooms.rooms == home && currentRoom != [] && p in peers + {session}
      requires broadcast.Table() == Add(listed, session, session.username)
      requires session !in listed.list && session !in listed.index.Values
      modifies this`currentRoom, this`incoming, rooms, broadcast, peers`active, peers`sent
      modifies session`active, session`sent, session.clientFd
      ensures rooms.rooms == home
      ensures broadcast.Table() == Clients(listed.list, listed.index - {session.username})
      ensures !session.active && session.clientFd.closed == [session.peer]
      ensures p != session ==> Took(p, ChatHeard(old(currentRoom), home, listed, old(incoming), p))
      ensures p == session && old(p.active) ==>
                old(p.sent) <= p.sent <=
                old(p.sent) + (Xor(BANNER, cipher.key) + ChatHeard(old(currentRoom), home, listed, old(incoming), p))
      ensures p == session && !old(p.active) ==> p.sent == old(p.sent)
    {
      ghost var due := AllDue(home, p);
      assert due == ChatHeard(currentRoom, home, listed, incoming, p);
      RecvLoop(home, p);
      assert [] + due == due;
      LeaveAllUndoesJoin(home, currentRoom, session);
      AddThenRemove(listed, session, session.username);
      CleanupAndExit();
    }

    twostate lemma ListedInSurroundings(home: Rooms<Session>)
      requires old(Surroundings(home)) && session.Valid()
      requires || broadcast.Table() == old(broadcast.Table())
               || broadcast.Table() == Add(old(broadcast.Table()), session, session.username)
      requires session !in old(broadcast.clients)
      requires forall p :: p in peers ==> unchanged(p) && unchanged(p.clientFd)
      ensures Surroundings(home)
    {
      assert forall p :: p in peers ==> p.Valid();
    }

    /** Nobody got in, so there is nothing to take back. */
    method TurnAway()
      requires session.Valid() && Absent(rooms.rooms, session)
      requires session !in broadcast.clients && session !in broadcast.byName.Values
      modifies rooms, broadcast, session`active, session.clientFd
      ensures rooms.rooms == old(rooms.rooms) && broadcast.Table() == old(broadcast.Table())
      ensures !session.active && session.clientFd.closed == [session.peer]
    {
      LeaveAllUndoesJoin(rooms.rooms, [], session);
      RemoveStranger(broadcast.Table(), session, session.username);
      CleanupAndExit();
    }

    /** The chat for whoever got in, and the end for everybody; `table` is without the session. */
    method Finish(ok: bool, ghost table: Clients<Session>, ghost p: Session)
      requires Surroundings(rooms.rooms) && currentRoom != [] && p in peers + {session}
      requires session !in table.list && session !in table.index.Values
      requires broadcast.Table() == if ok then Add(table, session, session.username) else table
      modifies this`currentRoom, this`incoming, rooms, broadcast, peers`active, peers`sent
      modifies session`active, session`sent, session.clientFd
      ensures rooms.rooms == old(rooms.rooms)
      ensures broadcast.Table() == if ok then Clients(table.list, table.index - {session.username}) else table
      ensures !session.active && session.clientFd.closed == [session.peer]
      ensures p != session ==>
                Took(p, if ok then ChatHeard(old(currentRoom), old(rooms.rooms), table, old(incoming), p) else [])
      ensures p == session ==>
                if ok && old(p.active)
                then old(p.sent) <= p.sent <=
                     old(p.sent) + (Xor(BANNER, cipher.key) +
                                    ChatHeard(old(currentRoom), old(rooms.rooms), table, old(incoming), p))
                else p.sent == old(p.sent)
    {
      GotNothing(p.active, p.sent);
      if ok {
        ChatAndExit(rooms.rooms, table, p);
      } else {
        TurnAway();
      }
    }

    /**
     * The whole life of a client: the tables end as they were, except that the name it signed in
     * under is no longer indexed, and its descriptor is closed once. Another session p takes
     * exactly what the client's lines send it, the client itself its dialogue `said`, then the
     * greeting and the replies; the lines, and the registry file, are those that the protocol's
     * state machine leaves.
     */
    method Run(ghost p: Session) returns (ok: bool, ghost chat: seq<Arrival>, ghost said: Bytes)
      requires FollowsProtocol() && stopped.None? && |disks| == MAX_AUTH_ATTEMPTS && currentRoom != []
      requires Surroundings(rooms.rooms) && p in peers + {session} && !session.usernameSet
      requires session !in broadcast.clients && session !in broadcast.byName.Values
      modifies this`currentRoom, this`incoming, this`stopped, rooms, broadcast, registry.file
      modifies peers`active, peers`sent
      modifies session`active, session`sent, session`username, session`usernameSet, session.clientFd
      ensures rooms.rooms == old(rooms.rooms)
      ensures broadcast.clients == old(broadcast.clients)
      ensures broadcast.byName == if ok then old(broadcast.byName) - {session.username} else old(broadcast.byName)
      ensures !session.active && session.clientFd.closed == [session.peer]
      ensures !ok ==> registry.file.Stored() == old(registry.file.Stored())
      ensures ok ==> GotThrough(old(Rest(SendMenu(0))), chat)
      ensures Arriving(said) <= old(Rest(SendMenu(0))).end.toClient
      ensures p != session ==>
        Took(p, if ok then ChatHeard(old(currentRoom), old(rooms.rooms), old(broadcast.Table()), chat, p) else [])
      ensures p == session ==>
        if ok && Arriving(said) == old(Rest(SendMenu(0))).end.toClient
        then said <= p.sent <=
             said + (Xor(BANNER, cipher.key) +
                     ChatHeard(old(currentRoom), old(rooms.rooms), old(broadcast.Table()), chat, p))
        else p.sent == said
    {
      ghost var table := broadcast.Table();
      ok := Authenticate();
      ListedInSurroundings(rooms.rooms);
      chat, said := incoming, session.sent;
      Finish(ok, table, p);
    }
  }
}
