// src/core/message.cpp: wire frames "TYPE:payload\n".

module Messages {
  import opened ByteStrings

  datatype Message = Message(kind: Bytes, payload: Bytes)

  /** The frame without its newline. */
  function Body(m: Message): Bytes {
    if m.payload == [] then m.kind else m.kind + ":" + m.payload
  }

  function Frame(m: Message): Bytes {
    Body(m) + "\n"
  }

  predicate IsLineEnd(c: Byte) {
    c == '\r' || c == '\n'
  }

  /** Drops every trailing CR and LF, not just one. */
  function StripLineEnds(s: Bytes): (r: Bytes)
    ensures r <= s
    ensures r == [] || !IsLineEnd(r[|r| - 1])
  {
    if s != [] && IsLineEnd(s[|s| - 1]) then StripLineEnds(s[..|s| - 1]) else s
  }

  function SplitAtColon(line: Bytes): Message {
    var colon := Find(line, ':');
    if colon == |line| then Message(line, []) else Message(line[..colon], line[colon + 1..])
  }

  function ParsedFrame(raw: Bytes): Message {
    SplitAtColon(StripLineEnds(raw))
  }

  /** What is left after stripping is determined by where the line ends stop. */
  lemma {:induction false} StripOfSuffix(s: Bytes, e: Bytes)
    requires s == [] || !IsLineEnd(s[|s| - 1])
    requires forall i :: 0 <= i < |e| ==> IsLineEnd(e[i])
    ensures StripLineEnds(s + e) == s
  {
    if e == [] {
      assert s + e == s;
    } else {
      assert (s + e)[..|s + e| - 1] == s + e[..|e| - 1];
      StripOfSuffix(s, e[..|e| - 1]);
    }
  }

  lemma {:induction false} StripAfterPrefix(p: Bytes, s: Bytes)
    requires p != [] && !IsLineEnd(p[|p| - 1])
    ensures StripLineEnds(p + s) == p + StripLineEnds(s)
  {
    if s == [] {
      assert p + s == p;
    } else {
      assert (p + s)[..|p + s| - 1] == p + s[..|s| - 1];
      StripAfterPrefix(p, s[..|s| - 1]);
    }
  }

  lemma SplitOfBody(m: Message)
    requires ':' !in m.kind
    ensures SplitAtColon(Body(m)) == m
  {
    if m.payload != [] {
      FindInConcat(m.kind, ':', m.payload);
      assert Body(m)[..|m.kind|] == m.kind;
      assert Body(m)[|m.kind| + 1..] == m.payload;
    }
  }

  /** The frames that survive a trip over the wire. */
  predicate WireSafe(m: Message) {
    && ':' !in m.kind
    && (Body(m) == [] || !IsLineEnd(Body(m)[|Body(m)| - 1]))
  }

  /** parse(serialise(m)) == m exactly for the wire-safe messages. */
  lemma ParseSerialiseRoundTrip(m: Message)
    ensures ParsedFrame(Frame(m)) == m <==> WireSafe(m)
  {
    var body := Body(m);
    if WireSafe(m) {
      StripOfSuffix(body, "\n");
      SplitOfBody(m);
    } else if body != [] && IsLineEnd(body[|body| - 1]) {
      // The stripped line is strictly shorter than the body it came from.
      var line := StripLineEnds(Frame(m));
      assert Frame(m)[|body| - 1] == body[|body| - 1];
      assert |line| < |body|;
      assert Body(SplitAtColon(line)) <= line;
      assert |Body(ParsedFrame(Frame(m)))| < |body|;
    } else {
      assert ':' !in ParsedFrame(Frame(m)).kind;
    }
  }

  method Serialise(m: Message) returns (wire: Bytes)
    ensures wire == Frame(m)
  {
    wire := [];
    wire := wire + m.kind;
    if m.payload != [] {
      wire := wire + ":";
      wire := wire + m.payload;
    }
    wire := wire + "\n";
  }

  method Parse(raw: Bytes) returns (m: Message)
    ensures m == ParsedFrame(raw)
  {
    var line := raw;
    while line != [] && IsLineEnd(line[|line| - 1])
      invariant StripLineEnds(line) == StripLineEnds(raw)
    {
      line := line[..|line| - 1];
    }
    var colon := Find(line, ':');
    if colon == |line| {
      m := Message(line, []);
    } else {
      m := Message(line[..colon], line[colon + 1..]);
    }
  }

  // The frame factories that the program uses.

  function Ok(detail: Bytes): Message { Message("OK", detail) }
  function Err(detail: Bytes): Message { Message("ERR", detail) }
  function Msg(text: Bytes): Message { Message("MSG", text) }
  function Choice(choice: Bytes): Message { Message("CHOICE", choice) }
  const EXIT: Message := Message("EXIT", "")
  const MENU: Message := Message("MENU", "1=Register 2=Login")

  function Bcast(sender: Bytes, text: Bytes): Message {
    Message("BCAST", "[" + sender + "]: " + text)
  }
}
