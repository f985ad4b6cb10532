// The receiving end of a connection: recv_line reads one byte at a time, decrypts
// it and stops at a newline. The same loop serves client and server
// (src/server/client_handler.cpp:89-110, src/client/client.cpp:271-288).

module Streams {
  import opened ByteStrings
  import opened Ciphers
  import opened Messages

  /** One return of ::recv: a byte, EINTR, or anything that reads as a lost peer. */
  datatype Arrival = Data(b: Byte) | Interrupted | Gone

  datatype Received = Received(line: Bytes, rest: seq<Arrival>)

  /** A line, or "" when the peer is lost; `buf` holds what was read before. */
  function ReadLine(key: Byte, arrivals: seq<Arrival>, buf: Bytes := []): (r: Received)
    ensures |r.rest| <= |arrivals|
    ensures r.line != [] ==> |r.rest| < |arrivals|
  {
    if arrivals == [] then Received([], [])
    else match arrivals[0]
      case Interrupted => ReadLine(key, arrivals[1..], buf)
      case Gone => Received([], arrivals[1..])
      case Data(b) =>
        var plain := XorByte(b, key);
        if plain == '\n' then Received(buf, arrivals[1..])
        else ReadLine(key, arrivals[1..], buf + [plain])
  }

  /** Nothing before position n ends the line or loses the peer. */
  predicate Unfinished(key: Byte, arrivals: seq<Arrival>, n: nat)
    requires n <= |arrivals|
  {
    forall i :: 0 <= i < n ==> !arrivals[i].Gone? && (arrivals[i].Data? ==> XorByte(arrivals[i].b, key) != '\n')
  }

  /** When the peer is lost in mid-line, the half line is lost with it. */
  lemma {:induction false} HalfLineIsLost(key: Byte, arrivals: seq<Arrival>, buf: Bytes, n: nat)
    requires n <= |arrivals| && Unfinished(key, arrivals, n) && (n < |arrivals| ==> arrivals[n].Gone?)
    ensures ReadLine(key, arrivals, buf) == Received([], if n < |arrivals| then arrivals[n + 1..] else [])
    decreases n
  {
    if n > 0 {
      var first := arrivals[0];
      HalfLineIsLost(key, arrivals[1..], if first.Data? then buf + [XorByte(first.b, key)] else buf, n - 1);
    }
  }

  method RecvLine(key: Byte, arrivals: seq<Arrival>) returns (line: Bytes, rest: seq<Arrival>)
    ensures Received(line, rest) == ReadLine(key, arrivals)
  {
    line, rest := [], arrivals;
    while rest != []
      invariant ReadLine(key, rest, line) == ReadLine(key, arrivals)
      decreases |rest|
    {
      var arrival := rest[0];
      rest := rest[1..];
      match arrival
      case Interrupted =>
      case Gone => return [], rest;
      case Data(b) =>
        var plain := XorByte(b, key);
        if plain == '\n' {
          return line, rest;
        }
        line := line + [plain];
    }
    line := [];
  }

  /** The bytes that got through; None if the peer was lost on the way. */
  function Carried(arrivals: seq<Arrival>): Option<Bytes> {
    if arrivals == [] then Some([])
    else match arrivals[0]
      case Interrupted => Carried(arrivals[1..])
      case Gone => None
      case Data(b) =>
        var tail := Carried(arrivals[1..]);
        if tail.Some? then Some([b] + tail.value) else None
  }

  /** However the bytes of an encrypted line arrive, recv_line returns that line and no more. */
  lemma {:induction false} ReadLineOfWire(key: Byte, arrivals: seq<Arrival>, buf: Bytes, plain: Bytes, cut: nat)
    requires cut < |plain| && plain[cut] == '\n' && '\n' !in plain[..cut]
    requires Carried(arrivals) == Some(Xor(plain, key))
    ensures ReadLine(key, arrivals, buf).line == buf + plain[..cut]
    ensures Carried(ReadLine(key, arrivals, buf).rest) == Some(Xor(plain[cut + 1..], key))
    decreases |arrivals|
  {
    if arrivals[0].Interrupted? {
      ReadLineOfWire(key, arrivals[1..], buf, plain, cut);
    } else {
      CarriedTail(arrivals);
      XorByteInvolution(plain[0], key);
      if cut > 0 {
        assert plain[0] in plain[..cut] && plain[..cut] == [plain[0]] + plain[1..][..cut - 1];
        ReadLineOfWire(key, arrivals[1..], buf + [plain[0]], plain[1..], cut - 1);
        assert plain[1..][cut..] == plain[cut + 1..];
      }
    }
  }

  lemma CarriedTail(arrivals: seq<Arrival>)
    requires arrivals != [] && arrivals[0].Data? && Carried(arrivals).Some?
    ensures Carried(arrivals).value != [] && arrivals[0].b == Carried(arrivals).value[0]
    ensures Carried(arrivals[1..]) == Some(Carried(arrivals).value[1..])
  {
  }

  /** Frames that the byte-at-a-time reader can give back. */
  predicate Streamable(m: Message) {
    WireSafe(m) && Body(m) != [] && '\n' !in Body(m)
  }

  function Stream(msgs: seq<Message>): Bytes {
    if msgs == [] then [] else Frame(msgs[0]) + Stream(msgs[1..])
  }

  /** What a receive loop sees: it parses lines until it gets an empty one. */
  function ReadAll(key: Byte, arrivals: seq<Arrival>): seq<Message>
    decreases |arrivals|
  {
    var r := ReadLine(key, arrivals);
    if r.line == [] then [] else [ParsedFrame(r.line)] + ReadAll(key, r.rest)
  }

  lemma ParseOfStreamedLine(m: Message)
    requires Streamable(m)
    ensures ParsedFrame(Body(m)) == m
  {
    assert Body(m) == Body(m) + [];
    StripOfSuffix(Body(m), []);
    SplitOfBody(m);
  }

  /** A newline-free frame arrives as the line it is, and what follows stays for the next call. */
  lemma FrameThenRest(key: Byte, m: Message, more: Bytes, arrivals: seq<Arrival>)
    requires '\n' !in Body(m)
    requires Carried(arrivals) == Some(Xor(Frame(m) + more, key))
    ensures ReadLine(key, arrivals).line == Body(m)
    ensures Carried(ReadLine(key, arrivals).rest) == Some(Xor(more, key))
  {
    var plain := Frame(m) + more;
    assert plain[..|Body(m)|] == Body(m) && plain[|Body(m)| + 1..] == more;
    ReadLineOfWire(key, arrivals, [], plain, |Body(m)|);
  }

  lemma ReadFirstMessage(key: Byte, m: Message, more: Bytes, arrivals: seq<Arrival>)
    requires Streamable(m)
    requires Carried(arrivals) == Some(Xor(Frame(m) + more, key))
    ensures ReadLine(key, arrivals).line == Body(m)
    ensures ReadAll(key, arrivals) == [m] + ReadAll(key, ReadLine(key, arrivals).rest)
    ensures Carried(ReadLine(key, arrivals).rest) == Some(Xor(more, key))
  {
    FrameThenRest(key, m, more, arrivals);
    ParseOfStreamedLine(m);
  }

  /** The receiver recovers exactly the messages sent, in order, whatever the schedule of arrivals. */
  lemma {:induction false} StreamRoundTrip(key: Byte, msgs: seq<Message>, arrivals: seq<Arrival>)
    requires forall i :: 0 <= i < |msgs| ==> Streamable(msgs[i])
    requires Carried(arrivals) == Some(Xor(Stream(msgs), key))
    ensures ReadAll(key, arrivals) == msgs
    decreases |msgs|
  {
    if msgs == [] {
      NothingCarried(key, arrivals);
    } else {
      var rest := ReadLine(key, arrivals).rest;
      ReadFirstMessage(key, msgs[0], Stream(msgs[1..]), arrivals);
      StreamRoundTrip(key, msgs[1..], rest);
      assert ReadAll(key, arrivals) == [msgs[0]] + msgs[1..];
    }
  }

  lemma {:induction false} NothingCarried(key: Byte, arrivals: seq<Arrival>, buf: Bytes := [])
    requires Carried(arrivals) == Some([])
    ensures ReadLine(key, arrivals, buf).line == []
  {
    if arrivals != [] {
      NothingCarried(key, arrivals[1..], buf);
    }
  }

  /** A frame sent alone comes back, as a non-blank line, exactly when it is streamable. */
  lemma SingleFrameRoundTrip(key: Byte, m: Message, arrivals: seq<Arrival>)
    requires Carried(arrivals) == Some(Xor(Frame(m), key))
    ensures (var line := ReadLine(key, arrivals).line; line != [] && ParsedFrame(line) == m) <==> Streamable(m)
  {
    var body := Body(m);
    var cut := Find(body, '\n');
    assert Frame(m)[..cut] == body[..cut];
    ReadLineOfWire(key, arrivals, [], Frame(m), cut);
    var line := ReadLine(key, arrivals).line;
    assert line == body[..cut];
    if Streamable(m) {
      assert line == body;
      ParseOfStreamedLine(m);
    } else if line != [] && ParsedFrame(line) == m {
      ParsedBodyIsPrefix(line);
    }
  }

  /** Parsing never adds to a line, and it keeps the whole line only if no line end was stripped. */
  lemma ParsedBodyIsPrefix(line: Bytes)
    ensures Body(ParsedFrame(line)) <= StripLineEnds(line) <= line
    ensures ':' !in ParsedFrame(line).kind
  {
    BodyOfSplit(StripLineEnds(line));
  }

  lemma BodyOfSplit(line: Bytes)
    ensures Body(SplitAtColon(line)) <= line && ':' !in SplitAtColon(line).kind
  {
    var colon := Find(line, ':');
    if colon < |line| {
      assert line == line[..colon] + ":" + line[colon + 1..];
    }
  }
}
