// What a client's chat lines do: where they take its session, and what they make the others
// receive (src/server/client_handler.cpp:205-305).

module ChatSessions {
  import opened ByteStrings
  import opened ChatCommands
  import opened Ciphers
  import opened ClientTables
  import opened Delivery
  import opened Messages
  import opened RoomTables
  import opened Streams

  /** The commands in what arrives, up to the first that quits or the loss of the peer. */
  function Commands(key: Byte, arrivals: seq<Arrival>): seq<Command>
    decreases |arrivals|
  {
    var got := ReadLine(key, arrivals);
    if got.line == [] then []
    else
      var command := LineCommand(got.line);
      if command.Quit? then [Quit] else [command] + Commands(key, got.rest)
  }

  /** Nothing is obeyed of a line that does not arrive whole, nor after it. */
  lemma HalfLineIsNotObeyed(key: Byte, arrivals: seq<Arrival>, n: nat)
    requires n <= |arrivals| && Unfinished(key, arrivals, n) && (n < |arrivals| ==> arrivals[n].Gone?)
    ensures Commands(key, arrivals) == []
  {
    HalfLineIsLost(key, arrivals, [], n);
  }

  function NextRoom(room: Bytes, command: Command): Bytes {
    match command
    case JoinRoom(next) => next
    case LeaveRoom => []
    case _ => room
  }

  function RoomAfter(room: Bytes, commands: seq<Command>): Bytes
    decreases commands
  {
    if commands == [] then room else RoomAfter(NextRoom(room, commands[0]), commands[1..])
  }

  // The room table with one more session in it.

  function Placed<S(==)>(home: Rooms<S>, room: Bytes, s: S): Rooms<S> {
    if room == [] then home else Join(home, room, s)
  }

  ghost predicate Absent<S>(home: Rooms<S>, s: S) {
    NoEmptyRoom(home) && forall room :: room in home ==> s !in home[room]
  }

  /** Leaving undoes joining. */
  lemma LeaveUndoesJoin<S>(home: Rooms<S>, room: Bytes, s: S)
    requires Absent(home, s)
    ensures Leave(Join(home, room, s), room, s) == home
  {
    var members := if room in home then home[room] else {};
    assert members + {s} - {s} == members;
  }

  /** So does cleaning up, wherever the session ended. */
  lemma LeaveAllUndoesJoin<S>(home: Rooms<S>, room: Bytes, s: S)
    requires Absent(home, s)
    ensures LeaveAll(Placed(home, room, s), s) == home
  {
    var t := Placed(home, room, s);
    forall r | r in t
      ensures t[r] - {s} == if r in home then home[r] else {}
    {
    }
    assert forall r :: r in home ==> r in t && home[r] != {};
  }

  lemma {:induction false} RoomAfterOneMore(room: Bytes, commands: seq<Command>, last: Command)
    ensures RoomAfter(room, commands + [last]) == NextRoom(RoomAfter(room, commands), last)
    decreases commands
  {
    if commands == [] {
      assert commands + [last] == [last];
    } else {
      assert (commands + [last])[1..] == commands[1..] + [last];
      RoomAfterOneMore(NextRoom(room, commands[0]), commands[1..], last);
    }
  }

  /** After leaving the session is in no room, after joining it is in that room and no other. */
  lemma LastMoveDecides<S(!new)>(home: Rooms<S>, room: Bytes, commands: seq<Command>, last: Command, s: S, r: Bytes)
    requires Absent(home, s) && (last == LeaveRoom || (last.JoinRoom? && last.room != []))
    ensures Member(Placed(home, RoomAfter(room, commands + [last]), s), r, s) <==> last == JoinRoom(r)
  {
    RoomAfterOneMore(room, commands, last);
  }

  // What another session receives.

  /** The speaker as the others see it: its name and the tables without it. */
  datatype View<!S> = View(key: Byte, sender: Bytes, home: Rooms<S>, clients: Clients<S>)

  /** The message that one command sends to p; namesakes of the sender are left out. */
  function Addressed<S(==)>(v: View<S>, p: S, namesake: bool, room: Bytes, command: Command): Option<Message> {
    match command
    case Say(text) =>
      if namesake then None
      else if room != [] then (if Member(v.home, room, p) then Some(RoomFrame(v.sender, room, text)) else None)
      else if p in v.clients.list then Some(Bcast(v.sender, text)) else None
    case Private(to, text) =>
      if to in v.clients.index && v.clients.index[to] == p
      then Some(Bcast(v.sender, PrivateText(v.sender, text))) else None
    case _ => None
  }

  function Encrypted(m: Option<Message>, key: Byte): Bytes {
    if m.Some? then Xor(Frame(m.value), key) else []
  }

  // What the client itself receives.

  const GREETING: Bytes := Join3("Type your message ", "and press Enter. ", "Type 'exit' to ") + "quit."
  const HINT: Bytes := Join3(" /join ", "room, /leave, ", "/pm user msg")
  const LEFT_ROOM: Bytes := Join3("Left ", "current ", "room.")
  const IN_NO_ROOM: Bytes := Join3("Not ", "in a ", "room.")
  const BANNER: Bytes := GREETING + "\n" + ("Commands:" + HINT + "\n")

  function ComplaintText(why: Complaint): Bytes {
    match why
    case JoinUsage => "Usage: /join room"
    case PmUsage => "Usage: /pm user message"
    case UnknownCommand => "Unknown command."
    case TooLong => "Message too long (max 4096 chars)."
  }

  /** The handler's answer to a command. */
  function AnswerTo(room: Bytes, command: Command): Option<Message> {
    match command
    case Quit => Some(Ok("Goodbye!"))
    case JoinRoom(next) => Some(Ok("Joined room: " + next))
    case LeaveRoom => Some(if room != [] then Ok(LEFT_ROOM) else Err(IN_NO_ROOM))
    case Refused(why) => Some(Err(ComplaintText(why)))
    case _ => None
  }

  /** What one command sends to p; the speaker's own session gets a reply, or a message to itself. */
  function MessageFor<S(==)>(v: View<S>, self: S, p: S, namesake: bool, room: Bytes, command: Command)
    : Option<Message>
  {
    if p != self then Addressed(v, p, namesake, room, command)
    else
      var reply := AnswerTo(room, command);
      if reply.Some? then reply else Addressed(v, self, true, room, command)
  }

  function Heard<S(==)>(v: View<S>, self: S, p: S, namesake: bool, room: Bytes, command: Command): Bytes {
    Encrypted(MessageFor(v, self, p, namesake, room, command), v.key)
  }

  /** What a sequence of commands sends to p. */
  function AllHeard<S(==)>(v: View<S>, self: S, p: S, namesake: bool, room: Bytes, commands: seq<Command>): Bytes
    decreases commands
  {
    if commands == [] then []
    else Heard(v, self, p, namesake, room, commands[0])
         + AllHeard(v, self, p, namesake, NextRoom(room, commands[0]), commands[1..])
  }

  // A turn of the loop: `obeyed` is one command or, at the end, none; `rest` are those to come.

  lemma RoomAdvances(room: Bytes, all: seq<Command>, obeyed: seq<Command>, rest: seq<Command>, more: bool, room': Bytes)
    requires all == if more then obeyed + rest else obeyed
    requires (obeyed == [] && !more) || |obeyed| == 1
    requires room' == if obeyed == [] then room else NextRoom(room, obeyed[0])
    ensures RoomAfter(room, all) == if more then RoomAfter(room', rest) else room'
  {
    if more {
      assert all[1..] == rest;
    }
  }

  lemma Appended(a: Bytes, b: Bytes, c: Bytes)
    ensures a + (b + c) == a + b + c
  {
  }

  lemma HeardAdvances<S>(v: View<S>, self: S, p: S, namesake: bool, room: Bytes, all: seq<Command>,
    obeyed: seq<Command>, rest: seq<Command>, more: bool, room': Bytes, due: Bytes)
    requires all == if more then obeyed + rest else obeyed
    requires (obeyed == [] && !more) || |obeyed| == 1
    requires room' == if obeyed == [] then room else NextRoom(room, obeyed[0])
    requires due == if obeyed == [] then [] else Heard(v, self, p, namesake, room, obeyed[0])
    ensures AllHeard(v, self, p, namesake, room, all) ==
            due + if more then AllHeard(v, self, p, namesake, room', rest) else []
  {
    if obeyed != [] {
      assert all[0] == obeyed[0] && all[1..] == if more then rest else [];
    }
    assert due + [] == due;
  }
}
