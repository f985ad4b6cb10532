// What a chat line means to those who receive it: from the client's MSG frame over the
// server's double room tag to the BCAST frame that the other clients decode.

module Delivery {
  import opened Accounts
  import opened ByteStrings
  import opened ChatCommands
  import opened Messages
  import opened RoomManagement
  import opened Streams

  /** The payload that a room member sees: the tag is added twice. */
  function RoomPayload(sender: Bytes, room: Bytes, text: Bytes): Bytes {
    Bcast(sender, RoomTag(room, RoomTag(room, text))).payload
  }

  function PrivateText(sender: Bytes, text: Bytes): Bytes {
    "[PM from " + sender + "]: " + text
  }

  function PrivatePayload(sender: Bytes, text: Bytes): Bytes {
    Bcast(sender, PrivateText(sender, text)).payload
  }

  predicate IsName(s: Bytes) {
    forall i :: 0 <= i < |s| ==> IsNameByte(s[i])
  }

  lemma SenderOf(sender: Bytes, more: Bytes)
    requires IsName(sender)
    ensures Find(Bcast(sender, more).payload[1..], ']') == |sender|
    ensures Bcast(sender, more).payload[1..][..|sender|] == sender
    ensures Bcast(sender, more).payload[|sender| + 4..] == more
  {
    var payload := Bcast(sender, more).payload;
    assert payload[1..] == sender + [']'] + (": " + more);
    FindInConcat(sender, ']', ": " + more);
  }

  /** A name cannot be mistaken for the start of the text. */
  lemma SenderIsDetermined(s: Bytes, x: Bytes, s': Bytes, x': Bytes)
    requires IsName(s) && IsName(s')
    requires Bcast(s, x).payload == Bcast(s', x').payload
    ensures s == s' && x == x'
  {
    SenderOf(s, x);
    SenderOf(s', x');
  }

  lemma TagOf(room: Bytes, more: Bytes)
    requires IsWord(room)
    ensures Find(RoomTag(room, more), ' ') == |room| + 2
    ensures RoomTag(room, more)[|room| + 1] == ']'
    ensures RoomTag(room, more)[1..][..|room|] == room
    ensures RoomTag(room, more)[|room| + 3..] == more
  {
    var tag := "[" + room + "]";
    assert RoomTag(room, more) == tag + [' '] + more;
    FindInConcat(tag, ' ', more);
  }

  lemma TagIsDetermined(room: Bytes, more: Bytes, room': Bytes, more': Bytes)
    requires IsWord(room) && IsWord(room')
    requires RoomTag(room, more) == RoomTag(room', more')
    ensures room == room' && more == more'
  {
    TagOf(room, more);
    TagOf(room', more');
  }

  /** A room member can tell who said what in which room. */
  lemma RoomPayloadIsUnambiguous(s: Bytes, r: Bytes, t: Bytes, s': Bytes, r': Bytes, t': Bytes)
    requires IsName(s) && IsName(s') && IsWord(r) && IsWord(r')
    ensures RoomPayload(s, r, t) == RoomPayload(s', r', t') <==> s == s' && r == r' && t == t'
  {
    if RoomPayload(s, r, t) == RoomPayload(s', r', t') {
      SenderIsDetermined(s, RoomTag(r, RoomTag(r, t)), s', RoomTag(r', RoomTag(r', t')));
      TagIsDetermined(r, RoomTag(r, t), r', RoomTag(r', t'));
      TagIsDetermined(r, t, r', t');
    }
  }

  lemma PrivateTagOf(sender: Bytes, text: Bytes)
    ensures Find(PrivateText(sender, text), ' ') == 3 && PrivateText(sender, text)[2] == 'M'
  {
    var rest := "from " + sender + "]: " + text;
    assert PrivateText(sender, text) == "[PM" + [' '] + rest;
    FindInConcat("[PM", ' ', rest);
  }

  /** No room message passes for a private one. */
  lemma RoomPayloadIsNotPrivate(s: Bytes, r: Bytes, t: Bytes, s': Bytes, t': Bytes)
    requires IsName(s) && IsName(s') && IsWord(r)
    ensures RoomPayload(s, r, t) != PrivatePayload(s', t')
  {
    TagOf(r, RoomTag(r, t));
    PrivateTagOf(s', t');
    if RoomPayload(s, r, t) == PrivatePayload(s', t') {
      SenderIsDetermined(s, RoomTag(r, RoomTag(r, t)), s', PrivateText(s', t'));
    }
  }

  /** Which lines the server relays, and with which text. */
  predicate Relayed(line: Bytes) {
    var text := StripLineEnds(line);
    text != [] && text[0] != '/' && !IsQuit(text) && |text| <= MAX_MSG_LEN
  }

  lemma SaidIff(text: Bytes)
    ensures MsgCommand(text).Say? <==> text != [] && text[0] != '/' && !IsQuit(text) && |text| <= MAX_MSG_LEN
    ensures MsgCommand(text).Say? ==> MsgCommand(text) == Say(text)
  {
  }

  /** The client's line is said in the room exactly when it is relayed, without its line ends. */
  lemma LineIsSaidIff(line: Bytes)
    ensures LineCommand(Body(Msg(line))).Say? <==> Relayed(line)
    ensures Relayed(line) ==> LineCommand(Body(Msg(line))) == Say(StripLineEnds(line))
  {
    SaidText(line);
    SaidIff(StripLineEnds(line));
  }

  function RoomFrame(sender: Bytes, room: Bytes, text: Bytes): Message {
    Bcast(sender, RoomTag(room, RoomTag(room, text)))
  }

  lemma RoomFrameIsStreamable(sender: Bytes, room: Bytes, text: Bytes)
    requires IsName(sender) && IsWord(room) && '\n' !in text && text != [] && !IsLineEnd(text[|text| - 1])
    ensures Streamable(RoomFrame(sender, room, text))
  {
    var body := Body(RoomFrame(sender, room, text));
    assert '\n' !in sender && '\n' !in room;
    assert body[|body| - 1] == text[|text| - 1];
  }
}
