// The client's side of authentication on its own: what it makes of the server's bytes, of the
// lines its user types and of how its sends fare (src/client/client.cpp:92-173, 254-269).

module ClientDialogue {
  import opened AuthProtocol
  import opened ByteStrings
  import opened Ciphers
  import opened Messages
  import opened Streams

  /** One return of ::send: how much it took, EINTR, or an error. */
  datatype SendResult = Accepted(n: nat) | Interrupted | Failed

  datatype Pushed = Pushed(ok: bool, taken: nat, rest: seq<SendResult>)

  /** How much of that many bytes goes out, given what ::send will return; an error when that runs out. */
  function Push(sends: seq<SendResult>, bytes: nat): (r: Pushed)
    ensures r.taken <= bytes && (r.ok <==> r.taken == bytes)
  {
    if bytes == 0 then Pushed(true, 0, sends)
    else if sends == [] then Pushed(false, 0, [])
    else match sends[0]
      case Interrupted => Push(sends[1..], bytes)
      case Failed => Pushed(false, 0, sends[1..])
      case Accepted(n) =>
        if n == 0 then Pushed(false, 0, sends[1..])
        else
          var m := if n <= bytes then n else bytes;
          After(m, Push(sends[1..], bytes - m))
  }

  function After(m: nat, more: Pushed): Pushed {
    more.(taken := m + more.taken)
  }

  /** How much ::send takes before it fails, with EINTR counting for nothing. */
  function Capacity(sends: seq<SendResult>): nat {
    if sends == [] then 0
    else match sends[0]
      case Interrupted => Capacity(sends[1..])
      case Failed => 0
      case Accepted(n) => if n == 0 then 0 else n + Capacity(sends[1..])
  }

  /** Everything is pushed out that ::send takes before its first failure. */
  lemma {:induction false} PushTakesAllItCan(sends: seq<SendResult>, bytes: nat)
    ensures Push(sends, bytes).taken == if bytes <= Capacity(sends) then bytes else Capacity(sends)
    ensures Push(sends, bytes).ok <==> bytes <= Capacity(sends)
  {
    if bytes > 0 && sends != [] {
      match sends[0]
      case Interrupted => PushTakesAllItCan(sends[1..], bytes);
      case Failed =>
      case Accepted(n) => PushTakesAllItCan(sends[1..], if n <= bytes then bytes - n else 0);
    }
  }

  /** Where the client is, what it has to read, what it has sent, what the user and ::send still give. */
  datatype Place =
    Place(client: Client, arrivals: seq<Arrival>, out: Bytes, typed: seq<Bytes>, sends: seq<SendResult>)

  predicate Ends(p: Place) {
    p.client.Authenticated? || p.client.Disconnected? || (p.client.Picking? && p.typed == [])
  }

  /** One step. Without a line to type a choice ends the dialogue, a name or password only the attempt. */
  function Step(key: Byte, p: Place): Place
    requires !Ends(p)
  {
    if ClientReads(p.client) then
      var got := ReadLine(key, p.arrivals);
      p.(client := AfterReading(p.client, got.line), arrivals := got.rest)
    else if p.typed == [] then p.(client := AtMenu(p.client.round + 1))
    else
      var wire := Xor(Typed(p.client, p.typed[0]) + "\n", key);
      var pushed := Push(p.sends, |wire|);
      p.(client := AfterTyping(p.client, p.typed[0]), out := p.out + wire[..pushed.taken],
         typed := p.typed[1..], sends := pushed.rest)
  }

  function Position(client: Client): nat {
    match client
    case AtMenu(_) => 1
    case AtResult(_) => 2
    case TypingPassword(_, _) => 3
    case AtPasswordPrompt(_, _) => 4
    case TypingName(_, _) => 5
    case AtNamePrompt(_, _) => 6
    case Picking(_) => 7
    case _ => 0
  }

  lemma StepGoesOn(key: Byte, p: Place)
    requires !Ends(p)
    ensures var p' := Step(key, p);
            |p'.arrivals| < |p.arrivals|
            || (|p'.arrivals| == |p.arrivals| && Position(p'.client) < Position(p.client))
  {
  }

  /** The client's steps one after the other. */
  function Follow(key: Byte, p: Place): Place
    decreases |p.arrivals|, Position(p.client)
  {
    if Ends(p) then p
    else
      StepGoesOn(key, p);
      Follow(key, Step(key, p))
  }

  // These steps are the protocol's.

  function StateOf(key: Byte, server: Server, p: Place): State {
    State(key, server, p.client, Arriving(p.out), p.arrivals)
  }

  /** The next line typed, if one is due, suits the place and gets through. */
  predicate Proper(key: Byte, p: Place) {
    ClientTypesNow(p.client) ==>
      && p.typed != [] && WellTyped(p.client, p.typed[0])
      && Push(p.sends, |Typed(p.client, p.typed[0])| + 1).ok
  }

  /** A proper step is a step of the protocol's client machine, whatever the server does. */
  lemma StepIsProtocol(key: Byte, server: Server, p: Place)
    requires !Ends(p) && Proper(key, p)
    ensures StateOf(key, server, Step(key, p)) ==
            ClientNext(StateOf(key, server, p), if ClientReads(p.client) then [] else p.typed[0])
  {
    if !ClientReads(p.client) {
      var wire := Xor(Typed(p.client, p.typed[0]) + "\n", key);
      assert wire[..|wire|] == wire;
      ArrivingAppend(p.out, wire);
    }
  }

  // Follow by the kind of step.

  lemma Reads(key: Byte, p: Place)
    requires ClientReads(p.client)
    ensures var got := ReadLine(key, p.arrivals);
            Follow(key, p) == Follow(key, p.(client := AfterReading(p.client, got.line), arrivals := got.rest))
  {
  }

  lemma Types(key: Byte, p: Place)
    requires ClientTypesNow(p.client) && p.typed != []
    ensures var wire := Xor(Typed(p.client, p.typed[0]) + "\n", key);
            var pushed := Push(p.sends, |wire|);
            Follow(key, p) ==
            Follow(key, Place(AfterTyping(p.client, p.typed[0]), p.arrivals, p.out + wire[..pushed.taken], p.typed[1..],
                              pushed.rest))
  {
  }

  lemma StopsTyping(key: Byte, p: Place)
    requires (p.client.TypingName? || p.client.TypingPassword?) && p.typed == []
    ensures Follow(key, p) == Follow(key, p.(client := AtMenu(p.client.round + 1)))
  {
  }

  lemma Stops(key: Byte, p: Place)
    requires Ends(p)
    ensures Follow(key, p) == p
  {
  }

  // One attempt of the client's. Everything that it sends and makes of what it reads is in the statement.

  /** What goes out of a typed line, and what ::send has still to return. */
  function Outgoing(key: Byte, out: Bytes, sends: seq<SendResult>, line: Bytes): (Bytes, seq<SendResult>) {
    var wire := Xor(line + "\n", key);
    var pushed := Push(sends, |wire|);
    (out + wire[..pushed.taken], pushed.rest)
  }

  lemma TypesOne(key: Byte, client: Client, arrivals: seq<Arrival>, out: Bytes, typed: seq<Bytes>,
    sends: seq<SendResult>)
    requires ClientTypesNow(client) && typed != []
    ensures var (out', sends') := Outgoing(key, out, sends, Typed(client, typed[0]));
            Follow(key, Place(client, arrivals, out, typed, sends)) ==
            Follow(key, Place(AfterTyping(client, typed[0]), arrivals, out', typed[1..], sends'))
  {
    Types(key, Place(client, arrivals, out, typed, sends));
  }

  lemma ReadsOne(key: Byte, client: Client, arrivals: seq<Arrival>, out: Bytes, typed: seq<Bytes>,
    sends: seq<SendResult>)
    requires ClientReads(client)
    ensures var got := ReadLine(key, arrivals);
            Follow(key, Place(client, arrivals, out, typed, sends)) ==
            Follow(key, Place(AfterReading(client, got.line), got.rest, out, typed, sends))
  {
    Reads(key, Place(client, arrivals, out, typed, sends));
  }

  /** After the menu the choice goes out as a frame; any other line than 1 or 2 leads back to the menu. */
  lemma ChoiceGoesOut(key: Byte, round: nat, arrivals: seq<Arrival>, out: Bytes, typed: seq<Bytes>,
    sends: seq<SendResult>)
    requires ReadLine(key, arrivals).line != [] && typed != []
    ensures var (out', sends') := Outgoing(key, out, sends, Body(Choice(typed[0])));
            Follow(key, Place(AtMenu(round), arrivals, out, typed, sends)) ==
            Follow(key, Place(if typed[0] == "1" then AtNamePrompt(round, true)
                              else if typed[0] == "2" then AtNamePrompt(round, false)
                              else AtMenu(round + 1),
                              ReadLine(key, arrivals).rest, out', typed[1..], sends'))
  {
    ReadsOne(key, AtMenu(round), arrivals, out, typed, sends);
    TypesOne(key, Picking(round), ReadLine(key, arrivals).rest, out, typed, sends);
  }

  lemma PromptIsAnswered(key: Byte, client: Client, arrivals: seq<Arrival>, out: Bytes, typed: seq<Bytes>,
    sends: seq<SendResult>)
    requires (client.AtNamePrompt? || client.AtPasswordPrompt?) && typed != []
    ensures var (out', sends') := Outgoing(key, out, sends, typed[0]);
            Follow(key, Place(client, arrivals, out, typed, sends)) ==
            Follow(key, Place(if client.AtNamePrompt? then AtPasswordPrompt(client.round, client.signUp)
                              else AtResult(client.round), ReadLine(key, arrivals).rest, out', typed[1..], sends'))
  {
    ReadsOne(key, client, arrivals, out, typed, sends);
    TypesOne(key, AfterReading(client, []), ReadLine(key, arrivals).rest, out, typed, sends);
  }

  lemma ResultDecides(key: Byte, round: nat, arrivals: seq<Arrival>, out: Bytes, typed: seq<Bytes>,
    sends: seq<SendResult>, client: Client)
    requires client == if ParsedFrame(ReadLine(key, arrivals).line).kind == "OK" then Authenticated
                       else AtMenu(round + 1)
    ensures Follow(key, Place(AtResult(round), arrivals, out, typed, sends)) ==
            Follow(key, Place(client, ReadLine(key, arrivals).rest, out, typed, sends))
  {
    assert client == AfterReading(AtResult(round), ReadLine(key, arrivals).line);
    ReadsOne(key, AtResult(round), arrivals, out, typed, sends);
  }

  /**
   * Name and password go out as they are, each after its prompt, and then the result is read:
   * OK authenticates, and nothing else does (ResultDecides).
   */
  lemma CredentialsGoOut(key: Byte, round: nat, signUp: bool, a: seq<Arrival>, a': seq<Arrival>, out: Bytes,
    out': Bytes, name: Bytes, password: Bytes, more: seq<Bytes>, sends: seq<SendResult>, sends': seq<SendResult>)
    requires ReadLine(key, a).rest == a' && Outgoing(key, out, sends, name) == (out', sends')
    ensures var (out'', sends'') := Outgoing(key, out', sends', password);
            Follow(key, Place(AtNamePrompt(round, signUp), a, out, [name, password] + more, sends)) ==
            Follow(key, Place(AtResult(round), ReadLine(key, a').rest, out'', more, sends''))
  {
    assert ([name, password] + more)[1..] == [password] + more && ([password] + more)[1..] == more;
    PromptIsAnswered(key, AtNamePrompt(round, signUp), a, out, [name, password] + more, sends);
    PromptIsAnswered(key, AtPasswordPrompt(round, signUp), a', out', [password] + more, sends');
  }

  /** No menu: the client gives up. No more lines to type: it stops at the menu, or goes on to the next. */
  lemma ClientStops(key: Byte, round: nat, arrivals: seq<Arrival>, out: Bytes, sends: seq<SendResult>,
    typed: seq<Bytes>)
    requires typed != [] ==> ReadLine(key, arrivals).line == []
    ensures var got := ReadLine(key, arrivals);
            Follow(key, Place(AtMenu(round), arrivals, out, typed, sends)) ==
            Place(if got.line == [] then Disconnected else Picking(round), got.rest, out, typed, sends)
  {
    ReadsOne(key, AtMenu(round), arrivals, out, typed, sends);
    var got := ReadLine(key, arrivals);
    Stops(key, Place(AfterReading(AtMenu(round), got.line), got.rest, out, typed, sends));
  }
}
