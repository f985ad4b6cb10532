// End to end: what one user types in the chat, this user and the others read. The pieces are the
// contracts of Client.SendLoop, ClientHandler.RecvLoop and Run, and Client.RecvLoop.

module Conversation {
  import opened ByteStrings
  import opened ChatCommands
  import opened ChatSessions
  import opened Ciphers
  import opened ClientProgram
  import opened Delivery
  import opened Messages
  import opened RoomTables
  import opened Streams

  /** What the server makes of the lines typed into the client. */
  function Understood(typed: seq<Bytes>): seq<Command> {
    if typed == [] then []
    else if typed[0] == "/help" then Understood(typed[1..])
    else if IsQuit(typed[0]) then [Quit]
    else
      var command := MsgCommand(StripLineEnds(typed[0]));
      if command.Quit? then [Quit] else [command] + Understood(typed[1..])
  }

  lemma ExitIsQuit()
    ensures Body(EXIT) == "EXIT" && LineCommand(Body(EXIT)) == Quit
  {
    assert ParsedFrame("EXIT") == EXIT by {
      assert "EXIT" == "EXIT" + [];
      StripOfSuffix("EXIT", []);
      SplitOfBody(EXIT);
    }
  }

  lemma CommandOfFirst(key: Byte, line: Bytes, more: Bytes, arrivals: seq<Arrival>)
    requires '\n' !in line && Carried(arrivals) == Some(Xor(Frame(Msg(line)) + more, key))
    ensures var command, rest := MsgCommand(StripLineEnds(line)), ReadLine(key, arrivals).rest;
            && Carried(rest) == Some(Xor(more, key))
            && Commands(key, arrivals) == if command.Quit? then [Quit] else [command] + Commands(key, rest)
  {
    FrameThenRest(key, Msg(line), more, arrivals);
    SaidText(line);
  }

  /** The server understands every typed line, however the bytes travel. */
  lemma {:induction false} CommandsOfTyped(key: Byte, typed: seq<Bytes>, arrivals: seq<Arrival>)
    requires forall i :: 0 <= i < |typed| ==> '\n' !in typed[i]
    requires Carried(arrivals) == Some(Xor(Stream(Frames(typed)), key))
    ensures Commands(key, arrivals) == Understood(typed)
    decreases |typed|
  {
    if typed == [] {
      NothingCarried(key, arrivals);
    } else if typed[0] == "/help" {
      CommandsOfTyped(key, typed[1..], arrivals);
    } else if IsQuit(typed[0]) {
      ExitIsQuit();
      FrameThenRest(key, EXIT, [], arrivals);
    } else {
      var more := Frames(typed[1..]);
      assert ([Msg(typed[0])] + more)[1..] == more;
      CommandOfFirst(key, typed[0], Stream(more), arrivals);
      CommandsOfTyped(key, typed[1..], ReadLine(key, arrivals).rest);
    }
  }

  // What can be said.

  predicate CleanText(text: Bytes) {
    text != [] && '\n' !in text && !IsLineEnd(text[|text| - 1])
  }

  predicate CleanCommand(command: Command) {
    match command
    case Say(text) => CleanText(text)
    case Private(_, text) => CleanText(text)
    case JoinRoom(room) => IsWord(room)
    case _ => true
  }

  lemma PrivateIsClean(text: Bytes)
    requires CleanText(text) && TextCommand(text).Private?
    ensures CleanText(TextCommand(text).text)
  {
    SlashSuffix(text);
    var args :| EndsLike(args, text) && TextCommand(text) == PrivateCommand(args);
    PrivateShape(args);
    PrivateTextIsSuffix(args);
    LastByte(PrivateCommand(args).text, args);
    LastByte(args, text);
  }

  lemma UnderstoodIsClean(line: Bytes)
    requires '\n' !in line
    ensures CleanCommand(MsgCommand(StripLineEnds(line)))
  {
    var text := StripLineEnds(line);
    if text != [] {
      CommandIsClean(text);
    }
  }

  lemma CommandIsClean(text: Bytes)
    requires CleanText(text)
    ensures CleanCommand(MsgCommand(text))
  {
    if TextCommand(text).Private? {
      PrivateIsClean(text);
    } else if TextCommand(text).JoinRoom? {
      JoinedRoomIsWord(text);
    }
  }

  lemma {:induction false} UnderstoodAreClean(typed: seq<Bytes>, k: nat)
    requires forall i :: 0 <= i < |typed| ==> '\n' !in typed[i]
    requires k < |Understood(typed)|
    ensures CleanCommand(Understood(typed)[k])
    decreases |typed|
  {
    if typed[0] == "/help" {
      UnderstoodAreClean(typed[1..], k);
    } else if !IsQuit(typed[0]) {
      UnderstoodIsClean(typed[0]);
      if k > 0 {
        UnderstoodAreClean(typed[1..], k - 1);
      }
    }
  }

  // What arrives at a client, another's or the own one.

  /** The messages that these commands send to p. */
  function Inbox<S(==)>(v: View<S>, self: S, p: S, namesake: bool, room: Bytes, commands: seq<Command>): seq<Message>
    decreases commands
  {
    if commands == [] then []
    else
      var m, later := MessageFor(v, self, p, namesake, room, commands[0]),
                      Inbox(v, self, p, namesake, NextRoom(room, commands[0]), commands[1..]);
      if m.Some? then [m.value] + later else later
  }

  lemma EncryptedFirst(m: Option<Message>, later: seq<Message>, key: Byte)
    ensures Encrypted(m, key) + Xor(Stream(later), key) ==
            Xor(Stream(if m.Some? then [m.value] + later else later), key)
  {
    if m.Some? {
      StreamOfFirst(m.value, later, key);
    } else {
      assert [] + Xor(Stream(later), key) == Xor(Stream(later), key);
    }
  }

  /** What p gets, byte by byte, is the stream of these messages. */
  lemma {:induction false} HeardIsInbox<S>(
    v: View<S>, self: S, p: S, namesake: bool, room: Bytes, commands: seq<Command>)
    ensures AllHeard(v, self, p, namesake, room, commands) ==
            Xor(Stream(Inbox(v, self, p, namesake, room, commands)), v.key)
    decreases commands
  {
    if commands != [] {
      var m, room' := MessageFor(v, self, p, namesake, room, commands[0]), NextRoom(room, commands[0]);
      HeardIsInbox(v, self, p, namesake, room', commands[1..]);
      EncryptedFirst(m, Inbox(v, self, p, namesake, room', commands[1..]), v.key);
    }
  }

  /** What a client shows of a message of one of the three kinds that it shows. */
  function OnScreen(m: Message): Bytes {
    if m.kind == "BCAST" then m.payload else "[SERVER] " + m.payload
  }

  function Screen(messages: seq<Message>): seq<Bytes> {
    if messages == [] then [] else [OnScreen(messages[0])] + Screen(messages[1..])
  }

  predicate IsShown(m: Message) {
    Streamable(m) && (m.kind == "BCAST" || m.kind == "OK" || m.kind == "ERR")
  }

  predicate AllShown(messages: seq<Message>) {
    forall i :: 0 <= i < |messages| ==> IsShown(messages[i])
  }

  lemma AddressedIsShown<S>(v: View<S>, p: S, namesake: bool, room: Bytes, command: Command)
    requires IsName(v.sender) && (room == [] || IsWord(room)) && CleanCommand(command)
    requires Addressed(v, p, namesake, room, command).Some?
    ensures var m := Addressed(v, p, namesake, room, command).value; IsShown(m) && m.kind == "BCAST"
  {
    match command
    case Say(text) =>
      if room != [] {
        RoomFrameIsStreamable(v.sender, room, text);
      } else {
        BcastIsStreamable(v.sender, text);
      }
    case Private(_, text) => BcastIsStreamable(v.sender, PrivateText(v.sender, text));
    case _ =>
  }

  lemma BcastIsStreamable(sender: Bytes, text: Bytes)
    requires IsName(sender) && CleanText(text)
    ensures Streamable(Bcast(sender, text))
  {
    var body := Body(Bcast(sender, text));
    assert '\n' !in sender;
    assert body[|body| - 1] == text[|text| - 1];
  }

  lemma CleanIsStreamable(kind: Bytes, text: Bytes)
    requires CleanText(text) && '\n' !in kind && ':' !in kind
    ensures Streamable(Message(kind, text))
  {
    var body := Body(Message(kind, text));
    assert body[|body| - 1] == text[|text| - 1];
  }

  lemma DetailIsShown(detail: Bytes)
    requires CleanText(detail)
    ensures IsShown(Ok(detail)) && IsShown(Err(detail))
  {
    CleanIsStreamable("OK", detail);
    CleanIsStreamable("ERR", detail);
  }

  lemma Join3IsClean(a: Bytes, b: Bytes, c: Bytes)
    requires '\n' !in a && '\n' !in b && CleanText(c)
    ensures CleanText(Join3(a, b, c))
  {
    assert Join3(a, b, c)[|Join3(a, b, c)| - 1] == c[|c| - 1];
  }

  lemma ComplaintIsClean(why: Complaint)
    ensures CleanText(ComplaintText(why))
  {
  }

  lemma JoinedIsClean(room: Bytes)
    requires IsWord(room)
    ensures CleanText("Joined room: " + room)
  {
    var detail := "Joined room: " + room;
    assert detail[|detail| - 1] == room[|room| - 1];
  }

  lemma LeaveAnswersAreClean()
    ensures CleanText(LEFT_ROOM) && CleanText(IN_NO_ROOM)
  {
    Join3IsClean("Left ", "current ", "room.");
    Join3IsClean("Not ", "in a ", "room.");
  }

  lemma AnswerIsClean(room: Bytes, command: Command)
    requires CleanCommand(command) && AnswerTo(room, command).Some?
    ensures CleanText(AnswerTo(room, command).value.payload)
  {
    match command
    case Quit =>
    case JoinRoom(next) => JoinedIsClean(next);
    case LeaveRoom => LeaveAnswersAreClean();
    case Refused(why) => ComplaintIsClean(why);
    case _ =>
  }

  lemma AnswerIsShown(room: Bytes, command: Command)
    requires CleanCommand(command) && AnswerTo(room, command).Some?
    ensures IsShown(AnswerTo(room, command).value)
  {
    AnswerIsClean(room, command);
    DetailIsShown(AnswerTo(room, command).value.payload);
  }

  lemma MessageIsShown<S>(v: View<S>, self: S, p: S, namesake: bool, room: Bytes, command: Command)
    requires IsName(v.sender) && (room == [] || IsWord(room)) && CleanCommand(command)
    requires MessageFor(v, self, p, namesake, room, command).Some?
    ensures IsShown(MessageFor(v, self, p, namesake, room, command).value)
  {
    if p == self && AnswerTo(room, command).Some? {
      AnswerIsShown(room, command);
    } else {
      AddressedIsShown(v, p, p == self || namesake, room, command);
    }
  }

  lemma {:induction false} InboxIsShown<S>(
    v: View<S>, self: S, p: S, namesake: bool, room: Bytes, commands: seq<Command>)
    requires IsName(v.sender) && (room == [] || IsWord(room))
    requires forall i :: 0 <= i < |commands| ==> CleanCommand(commands[i])
    ensures AllShown(Inbox(v, self, p, namesake, room, commands))
    decreases commands
  {
    if commands != [] {
      assert CleanCommand(commands[0]);
      var m, later := MessageFor(v, self, p, namesake, room, commands[0]),
                      Inbox(v, self, p, namesake, NextRoom(room, commands[0]), commands[1..]);
      InboxIsShown(v, self, p, namesake, NextRoom(room, commands[0]), commands[1..]);
      if m.Some? {
        MessageIsShown(v, self, p, namesake, room, commands[0]);
        assert Inbox(v, self, p, namesake, room, commands) == [m.value] + later;
      } else {
        assert Inbox(v, self, p, namesake, room, commands) == later;
      }
    }
  }

  lemma {:induction false} DisplayedIsScreen(messages: seq<Message>)
    requires AllShown(messages)
    ensures AllDisplayed(messages) == Screen(messages)
  {
    if messages != [] {
      assert IsShown(messages[0]);
      DisplayedIsScreen(messages[1..]);
    }
  }

  /** Whoever is sent these commands' messages shows each of them, in order, on a line of its own. */
  lemma CommandsAreShown<S>(
    v: View<S>, self: S, p: S, namesake: bool, room: Bytes, commands: seq<Command>, toPeer: seq<Arrival>)
    requires IsName(v.sender) && (room == [] || IsWord(room))
    requires forall i :: 0 <= i < |commands| ==> CleanCommand(commands[i])
    requires Carried(toPeer) == Some(AllHeard(v, self, p, namesake, room, commands))
    ensures AllDisplayed(ReadAll(v.key, toPeer)) == Screen(Inbox(v, self, p, namesake, room, commands))
  {
    var inbox := Inbox(v, self, p, namesake, room, commands);
    HeardIsInbox(v, self, p, namesake, room, commands);
    InboxIsShown(v, self, p, namesake, room, commands);
    StreamRoundTrip(v.key, inbox, toPeer);
    DisplayedIsScreen(inbox);
  }

  /**
   * From keyboard to screen: if the typed lines reach the server and p's share reaches p, then p
   * sees, in order, exactly what these lines say to it.
   */
  lemma TypedIsShown<S>(v: View<S>, self: S, p: S, namesake: bool, room: Bytes, typed: seq<Bytes>,
    toServer: seq<Arrival>, toPeer: seq<Arrival>)
    requires IsName(v.sender) && (room == [] || IsWord(room))
    requires forall i :: 0 <= i < |typed| ==> '\n' !in typed[i]
    requires Carried(toServer) == Some(Xor(Stream(Frames(typed)), v.key))
    requires Carried(toPeer) == Some(AllHeard(v, self, p, namesake, room, Commands(v.key, toServer)))
    ensures AllDisplayed(ReadAll(v.key, toPeer)) == Screen(Inbox(v, self, p, namesake, room, Understood(typed)))
  {
    CommandsOfTyped(v.key, typed, toServer);
    forall k | 0 <= k < |Understood(typed)|
      ensures CleanCommand(Understood(typed)[k])
    {
      UnderstoodAreClean(typed, k);
    }
    CommandsAreShown(v, self, p, namesake, room, Understood(typed), toPeer);
  }

  /** One typed line, from the bytes that reach the server to the screen of whoever p is. */
  lemma LineIsShown<S>(v: View<S>, self: S, p: S, namesake: bool, room: Bytes, line: Bytes, command: Command,
    toServer: seq<Arrival>, toPeer: seq<Arrival>)
    requires IsName(v.sender) && (room == [] || IsWord(room)) && '\n' !in line
    requires MsgCommand(StripLineEnds(line)) == command
    requires Carried(toServer) == Some(Xor(Frame(Msg(line)), v.key))
    requires Carried(toPeer) == Some(AllHeard(v, self, p, namesake, room, Commands(v.key, toServer)))
    ensures Commands(v.key, toServer) == [command]
    ensures AllDisplayed(ReadAll(v.key, toPeer)) == Screen(Inbox(v, self, p, namesake, room, [command]))
  {
    assert Frame(Msg(line)) + [] == Frame(Msg(line));
    CommandOfFirst(v.key, line, [], toServer);
    NothingCarried(v.key, ReadLine(v.key, toServer).rest);
    UnderstoodIsClean(line);
    CommandsAreShown(v, self, p, namesake, room, [command], toPeer);
  }

  lemma OneOnScreen<S>(v: View<S>, self: S, p: S, namesake: bool, room: Bytes, command: Command)
    ensures var m := MessageFor(v, self, p, namesake, room, command);
            Screen(Inbox(v, self, p, namesake, room, [command])) == if m.Some? then [OnScreen(m.value)] else []
  {
    assert Inbox(v, self, p, namesake, room, [command][1..]) == [];
    assert forall m: Message :: [m] + [] == [m] && [m][1..] == [];
  }

  lemma RelayedIsSaid(line: Bytes)
    requires Relayed(line)
    ensures MsgCommand(StripLineEnds(line)) == Say(StripLineEnds(line))
  {
    SaidIff(StripLineEnds(line));
  }

  /** A line said in a room is shown once, under both tags, to the other users in the room and to nobody else. */
  lemma LineReachesTheRoom<S>(v: View<S>, self: S, p: S, namesake: bool, room: Bytes, line: Bytes,
    toServer: seq<Arrival>, toPeer: seq<Arrival>)
    requires p != self && IsName(v.sender) && IsWord(room) && '\n' !in line && Relayed(line)
    requires Carried(toServer) == Some(Xor(Frame(Msg(line)), v.key))
    requires Carried(toPeer) == Some(AllHeard(v, self, p, namesake, room, Commands(v.key, toServer)))
    ensures AllDisplayed(ReadAll(v.key, toPeer)) ==
            if !namesake && Member(v.home, room, p)
            then ["[" + v.sender + "]: " + ("[" + room + "] " + ("[" + room + "] " + StripLineEnds(line)))] else []
  {
    RelayedIsSaid(line);
    LineIsShown(v, self, p, namesake, room, line, Say(StripLineEnds(line)), toServer, toPeer);
    OneOnScreen(v, self, p, namesake, room, Say(StripLineEnds(line)));
  }

  /** Said in no room it is shown once to every other user in the client list. */
  lemma LineReachesEverybody<S>(v: View<S>, self: S, p: S, namesake: bool, line: Bytes,
    toServer: seq<Arrival>, toPeer: seq<Arrival>)
    requires p != self && IsName(v.sender) && '\n' !in line && Relayed(line)
    requires Carried(toServer) == Some(Xor(Frame(Msg(line)), v.key))
    requires Carried(toPeer) == Some(AllHeard(v, self, p, namesake, [], Commands(v.key, toServer)))
    ensures AllDisplayed(ReadAll(v.key, toPeer)) ==
            if !namesake && p in v.clients.list then ["[" + v.sender + "]: " + StripLineEnds(line)] else []
  {
    RelayedIsSaid(line);
    LineIsShown(v, self, p, namesake, [], line, Say(StripLineEnds(line)), toServer, toPeer);
    OneOnScreen(v, self, p, namesake, [], Say(StripLineEnds(line)));
  }

  /** A private message is shown once to the session indexed under the name, and to nobody else. */
  lemma PmReachesOne<S>(v: View<S>, self: S, p: S, namesake: bool, room: Bytes, user: Bytes, text: Bytes,
    toServer: seq<Arrival>, toPeer: seq<Arrival>)
    requires IsName(v.sender) && (room == [] || IsWord(room)) && IsWord(user) && CleanText(text)
    requires Carried(toServer) == Some(Xor(Frame(Msg(PmLine(user, text))), v.key))
    requires Carried(toPeer) == Some(AllHeard(v, self, p, namesake, room, Commands(v.key, toServer)))
    ensures AllDisplayed(ReadAll(v.key, toPeer)) ==
            if user in v.clients.index && v.clients.index[user] == p
            then ["[" + v.sender + "]: " + ("[PM from " + v.sender + "]: " + text)] else []
  {
    PmIsPlain(user, text);
    PmIsUnderstood(user, text);
    LineIsShown(v, self, p, namesake, room, PmLine(user, text), Private(user, text), toServer, toPeer);
    PmOnScreen(v, self, p, namesake, room, user, text);
  }

  lemma PmIsPlain(user: Bytes, text: Bytes)
    requires IsWord(user) && CleanText(text)
    ensures '\n' !in PmLine(user, text)
  {
  }

  lemma PmOnScreen<S>(v: View<S>, self: S, p: S, namesake: bool, room: Bytes, user: Bytes, text: Bytes)
    ensures Screen(Inbox(v, self, p, namesake, room, [Private(user, text)])) ==
            if user in v.clients.index && v.clients.index[user] == p
            then ["[" + v.sender + "]: " + ("[PM from " + v.sender + "]: " + text)] else []
  {
    OneOnScreen(v, self, p, namesake, room, Private(user, text));
  }

  lemma PmIsUnderstood(user: Bytes, text: Bytes)
    requires IsWord(user) && CleanText(text)
    ensures MsgCommand(StripLineEnds(PmLine(user, text))) == Private(user, text)
  {
    PmInFrameReadsBack(user, text);
    SameInFrame(PmLine(user, text), Private(user, text));
  }

  // What the user reads after a line of its own.

  lemma LeaveOnScreen<S>(v: View<S>, self: S, namesake: bool, room: Bytes)
    ensures Screen(Inbox(v, self, self, namesake, room, [LeaveRoom])) ==
            ["[SERVER] " + if room != [] then "Left current room." else "Not in a room."]
  {
    OneOnScreen(v, self, self, namesake, room, LeaveRoom);
    LeaveTexts();
  }

  lemma LeaveTexts()
    ensures LEFT_ROOM == "Left current room." && IN_NO_ROOM == "Not in a room."
  {
  }

  /** A line that moves: the session is where it asks to be, and its user is told. */
  lemma MoveIsAnswered<S(!new)>(v: View<S>, self: S, namesake: bool, room: Bytes, line: Bytes, move: Command, r: Bytes,
    toServer: seq<Arrival>, toClient: seq<Arrival>)
    requires IsName(v.sender) && (room == [] || IsWord(room)) && '\n' !in line && Absent(v.home, self)
    requires MsgCommand(StripLineEnds(line)) == move && (move == LeaveRoom || (move.JoinRoom? && IsWord(move.room)))
    requires Carried(toServer) == Some(Xor(Frame(Msg(line)), v.key))
    requires Carried(toClient) == Some(AllHeard(v, self, self, namesake, room, Commands(v.key, toServer)))
    ensures Member(Placed(v.home, RoomAfter(room, Commands(v.key, toServer)), self), r, self) <==> move == JoinRoom(r)
    ensures AllDisplayed(ReadAll(v.key, toClient)) == Screen(Inbox(v, self, self, namesake, room, [move]))
  {
    LineIsShown(v, self, self, namesake, room, line, move, toServer, toClient);
    assert [] + [move] == [move];
    LastMoveDecides(v.home, room, [], move, self, r);
  }

  /** "/leave": the session is in no room any more, and its user is told, also when it was in none. */
  lemma LeaveIsAnswered<S(!new)>(v: View<S>, self: S, namesake: bool, room: Bytes, args: Bytes, r: Bytes,
    toServer: seq<Arrival>, toClient: seq<Arrival>)
    requires IsName(v.sender) && (room == [] || IsWord(room)) && '\n' !in args && EndsWord(args)
    requires Absent(v.home, self)
    requires Carried(toServer) == Some(Xor(Frame(Msg("/leave" + args)), v.key))
    requires Carried(toClient) == Some(AllHeard(v, self, self, namesake, room, Commands(v.key, toServer)))
    ensures !Member(Placed(v.home, RoomAfter(room, Commands(v.key, toServer)), self), r, self)
    ensures AllDisplayed(ReadAll(v.key, toClient)) ==
            ["[SERVER] " + if room != [] then "Left current room." else "Not in a room."]
  {
    LeaveIsUnderstood(args);
    MoveIsAnswered(v, self, namesake, room, "/leave" + args, LeaveRoom, r, toServer, toClient);
    LeaveOnScreen(v, self, namesake, room);
  }

  lemma LeaveIsUnderstood(args: Bytes)
    requires EndsWord(args)
    ensures MsgCommand(StripLineEnds("/leave" + args)) == LeaveRoom
  {
    LeaveInFrameReadsBack(args);
    SameInFrame("/leave" + args, LeaveRoom);
  }

  /** "/join next": the session is in that and in no other room, and its user is told. */
  lemma JoinIsAnswered<S(!new)>(v: View<S>, self: S, namesake: bool, room: Bytes, next: Bytes, r: Bytes,
    toServer: seq<Arrival>, toClient: seq<Arrival>)
    requires IsName(v.sender) && (room == [] || IsWord(room)) && IsWord(next) && Absent(v.home, self)
    requires Carried(toServer) == Some(Xor(Frame(Msg(JoinLine(next))), v.key))
    requires Carried(toClient) == Some(AllHeard(v, self, self, namesake, room, Commands(v.key, toServer)))
    ensures Member(Placed(v.home, RoomAfter(room, Commands(v.key, toServer)), self), r, self) <==> r == next
    ensures AllDisplayed(ReadAll(v.key, toClient)) == ["[SERVER] " + ("Joined room: " + next)]
  {
    JoinIsPlain(next);
    JoinIsUnderstood(next);
    MoveIsAnswered(v, self, namesake, room, JoinLine(next), JoinRoom(next), r, toServer, toClient);
    OneOnScreen(v, self, self, namesake, room, JoinRoom(next));
  }

  lemma JoinIsUnderstood(r: Bytes)
    requires IsWord(r)
    ensures MsgCommand(StripLineEnds(JoinLine(r))) == JoinRoom(r)
  {
    JoinInFrameReadsBack(r);
    SameInFrame(JoinLine(r), JoinRoom(r));
  }

  lemma SameInFrame(line: Bytes, command: Command)
    requires LineCommand(Body(Msg(line))) == command
    ensures MsgCommand(StripLineEnds(line)) == command
  {
    SaidText(line);
  }

  lemma JoinIsPlain(r: Bytes)
    requires IsWord(r)
    ensures '\n' !in JoinLine(r)
  {
  }

  /** What is refused moves nobody, and the user is told why; what is empty is passed over. */
  lemma RefusalIsAnswered<S>(v: View<S>, self: S, namesake: bool, room: Bytes, why: Complaint)
    ensures NextRoom(room, Refused(why)) == room && NextRoom(room, Nothing) == room
    ensures Screen(Inbox(v, self, self, namesake, room, [Refused(why)])) ==
            ["[SERVER] " + match why
                           case JoinUsage => "Usage: /join room"
                           case PmUsage => "Usage: /pm user message"
                           case UnknownCommand => "Unknown command."
                           case TooLong => "Message too long (max 4096 chars)."]
    ensures Screen(Inbox(v, self, self, namesake, room, [Nothing])) == []
  {
    OneOnScreen(v, self, self, namesake, room, Refused(why));
    OneOnScreen(v, self, self, namesake, room, Nothing);
  }

  // What the client itself sees, from the greeting on.

  lemma GreetingIsClean()
    ensures CleanText(GREETING)
  {
    Join3IsClean("Type your message ", "and press Enter. ", "Type 'exit' to ");
    assert GREETING[|GREETING| - 1] == '.';
  }

  const COMMANDS: Message := Message("Commands", HINT)

  lemma HintIsNotShown()
    ensures Streamable(COMMANDS) && Displayed(COMMANDS) == []
  {
    Join3IsClean(" /join ", "room, /leave, ", "/pm user msg");
    CleanIsStreamable("Commands", HINT);
  }

  lemma BannerIsTwoFrames()
    ensures BANNER == Frame(Message(GREETING, [])) + Frame(COMMANDS)
  {
    Join3IsClean(" /join ", "room, /leave, ", "/pm user msg");
    assert "Commands:" == "Commands" + ":";
  }

  lemma FrameThenStream(key: Byte, first: Message, later: seq<Message>, arrivals: seq<Arrival>)
    requires '\n' !in Body(first) && forall i :: 0 <= i < |later| ==> Streamable(later[i])
    requires Carried(arrivals) == Some(Xor(Frame(first) + Stream(later), key))
    ensures ReadLine(key, arrivals).line == Body(first)
    ensures ReadAll(key, ReadLine(key, arrivals).rest) == later
  {
    FrameThenRest(key, first, Stream(later), arrivals);
    StreamRoundTrip(key, later, ReadLine(key, arrivals).rest);
  }

  lemma BannerJoins(key: Byte, a: Bytes, hint: Message, inbox: seq<Message>)
    ensures Xor(a + Frame(hint), key) + Xor(Stream(inbox), key) == Xor(a + Stream([hint] + inbox), key)
  {
    assert ([hint] + inbox)[1..] == inbox;
    assert a + Frame(hint) + Stream(inbox) == a + Stream([hint] + inbox);
    XorConcat(a + Frame(hint), Stream(inbox), key);
  }

  /** The first line is read as the banner, the second is not shown, and then come the answers. */
  lemma GreetedFirst(key: Byte, greeting: Message, hint: Message, inbox: seq<Message>, toClient: seq<Arrival>)
    requires '\n' !in Body(greeting) && Streamable(hint) && Displayed(hint) == [] && AllShown(inbox)
    requires Carried(toClient) == Some(Xor(Frame(greeting) + Frame(hint), key) + Xor(Stream(inbox), key))
    ensures var first := ReadLine(key, toClient);
            first.line == Body(greeting) && AllDisplayed(ReadAll(key, first.rest)) == Screen(inbox)
  {
    BannerJoins(key, Frame(greeting), hint, inbox);
    FrameThenStream(key, greeting, [hint] + inbox, toClient);
    DisplayedIsScreen(inbox);
    assert ([hint] + inbox)[1..] == inbox;
    assert [] + Screen(inbox) == Screen(inbox);
  }

  /** The user's own screen: the greeting, then an answer for every line that gets one, in order. */
  lemma OwnIsShown<S>(v: View<S>, self: S, namesake: bool, room: Bytes, typed: seq<Bytes>,
    toServer: seq<Arrival>, toClient: seq<Arrival>)
    requires IsName(v.sender) && (room == [] || IsWord(room))
    requires forall i :: 0 <= i < |typed| ==> '\n' !in typed[i]
    requires Carried(toServer) == Some(Xor(Stream(Frames(typed)), v.key))
    requires Carried(toClient) ==
             Some(Xor(BANNER, v.key) + AllHeard(v, self, self, namesake, room, Commands(v.key, toServer)))
    ensures var first := ReadLine(v.key, toClient);
            && first.line == GREETING
            && AllDisplayed(ReadAll(v.key, first.rest)) ==
               Screen(Inbox(v, self, self, namesake, room, Understood(typed)))
  {
    var commands := Understood(typed);
    CommandsOfTyped(v.key, typed, toServer);
    forall k | 0 <= k < |commands|
      ensures CleanCommand(commands[k])
    {
      UnderstoodAreClean(typed, k);
    }
    InboxIsShown(v, self, self, namesake, room, commands);
    HeardIsInbox(v, self, self, namesake, room, commands);
    GreetingIsClean();
    HintIsNotShown();
    BannerIsTwoFrames();
    GreetedFirst(v.key, Message(GREETING, []), COMMANDS, Inbox(v, self, self, namesake, room, commands), toClient);
  }

  /** Whoever quits sees the goodbye last. */
  lemma {:induction false} GoodbyeIsShownLast<S>(
    v: View<S>, self: S, namesake: bool, room: Bytes, commands: seq<Command>)
    requires commands != [] && commands[|commands| - 1] == Quit
    ensures var screen := Screen(Inbox(v, self, self, namesake, room, commands));
            screen != [] && screen[|screen| - 1] == "[SERVER] Goodbye!"
    decreases commands
  {
    if |commands| == 1 {
      assert "[SERVER] Goodbye!" == "[SERVER] " + "Goodbye!";
    } else {
      GoodbyeIsShownLast(v, self, namesake, NextRoom(room, commands[0]), commands[1..]);
    }
  }
}
