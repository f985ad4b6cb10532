// src/client/client.cpp: the client program.

module ClientProgram {
  import opened ByteStrings
  import opened ChatCommands
  import opened Ciphers
  import opened ClientDialogue
  import opened Messages
  import opened Streams
  import Auth = AuthProtocol

  /** The frames that the lines typed in the chat become. */
  function Frames(typed: seq<Bytes>): seq<Message> {
    if typed == [] then []
    else if typed[0] == "/help" then Frames(typed[1..])
    else if IsQuit(typed[0]) then [EXIT]
    else [Msg(typed[0])] + Frames(typed[1..])
  }

  /** What the receiving thread shows of a message. */
  function Displayed(m: Message): seq<Bytes> {
    if m.kind == "BCAST" then [m.payload]
    else if m.kind == "OK" || m.kind == "ERR" then ["[SERVER] " + m.payload]
    else []
  }

  function AllDisplayed(messages: seq<Message>): seq<Bytes> {
    if messages == [] then [] else Displayed(messages[0]) + AllDisplayed(messages[1..])
  }

  lemma StreamOfFirst(m: Message, more: seq<Message>, key: Byte)
    ensures Xor(Stream([m] + more), key) == Xor(Frame(m), key) + Xor(Stream(more), key)
  {
    assert ([m] + more)[1..] == more;
    XorConcat(Frame(m), Stream(more), key);
  }

  lemma Continued(before: Bytes, wire: Bytes, total: nat, n: nat)
    requires total + n <= |wire|
    ensures before + wire[..total] + wire[total..total + n] == before + wire[..total + n]
  {
    assert wire[..total] + wire[total..total + n] == wire[..total + n];
  }

  /** The lines that are left when the chat ends. */
  function Unread(typed: seq<Bytes>): seq<Bytes> {
    if typed == [] then []
    else if typed[0] != "/help" && IsQuit(typed[0]) then typed[1..]
    else Unread(typed[1..])
  }

  /** What went out, whether a send failed, and what ::send will return. */
  datatype Wire = Wire(sent: Bytes, failed: bool, sends: seq<SendResult>)

  function SendOne(key: Byte, w: Wire, m: Message): Wire {
    var frame := Xor(Frame(m), key);
    var pushed := Push(w.sends, |frame|);
    Wire(w.sent + frame[..pushed.taken], w.failed || !pushed.ok, pushed.rest)
  }

  /** One frame after the other, whether or not the earlier ones got through. */
  function SendAll(key: Byte, w: Wire, frames: seq<Message>): Wire
    decreases |frames|
  {
    if frames == [] then w else SendAll(key, SendOne(key, w, frames[0]), frames[1..])
  }

  /** Unless a send fails, the whole stream goes out; a failure is not forgotten. */
  lemma {:induction false} SentWhole(key: Byte, w: Wire, frames: seq<Message>)
    ensures w.failed ==> SendAll(key, w, frames).failed
    ensures !SendAll(key, w, frames).failed ==>
              SendAll(key, w, frames).sent == w.sent + Xor(Stream(frames), key)
    decreases |frames|
  {
    if frames == [] {
      assert w.sent + [] == w.sent;
    } else {
      var w' := SendOne(key, w, frames[0]);
      SentWhole(key, w', frames[1..]);
      if !w'.failed {
        assert frames == [frames[0]] + frames[1..];
        StreamOfFirst(frames[0], frames[1..], key);
        Joined(w.sent, Xor(Frame(frames[0]), key), Xor(Stream(frames[1..]), key));
      }
    }
  }

  /** Each of these frames is taken at once. */
  predicate Ample(sends: seq<SendResult>, frames: seq<Message>) {
    frames == [] ||
    (sends != [] && sends[0].Accepted? && sends[0].n >= |Frame(frames[0])| && Ample(sends[1..], frames[1..]))
  }

  /** Failures before do not matter: if every ::send takes the frame that it is given, all of them go out. */
  lemma {:induction false} FailuresDoNotMatter(key: Byte, w: Wire, frames: seq<Message>)
    requires Ample(w.sends, frames)
    ensures SendAll(key, w, frames).sent == w.sent + Xor(Stream(frames), key)
    decreases |frames|
  {
    if frames == [] {
      assert w.sent + [] == w.sent;
    } else {
      var w' := SendOne(key, w, frames[0]);
      TakenWhole(key, w, frames[0]);
      FailuresDoNotMatter(key, w', frames[1..]);
      assert frames == [frames[0]] + frames[1..];
      StreamOfFirst(frames[0], frames[1..], key);
      Associate(w.sent, Xor(Frame(frames[0]), key), Xor(Stream(frames[1..]), key));
    }
  }

  lemma Associate(a: Bytes, b: Bytes, c: Bytes)
    ensures a + b + c == a + (b + c)
  {
  }

  lemma TakenWhole(key: Byte, w: Wire, m: Message)
    requires w.sends != [] && w.sends[0].Accepted? && w.sends[0].n >= |Frame(m)|
    ensures SendOne(key, w, m).sends == w.sends[1..]
    ensures SendOne(key, w, m).sent == w.sent + Xor(Frame(m), key)
  {
    var frame := Xor(Frame(m), key);
    assert frame[..|frame|] == frame;
    assert Push(w.sends[1..], 0) == Pushed(true, 0, w.sends[1..]);
  }

  /** The first line that quits is the last one that anything is sent for; those after it are not even read. */
  lemma {:induction false} QuitIsTheLast(before: seq<Bytes>, quit: Bytes, after: seq<Bytes>)
    requires (forall i :: 0 <= i < |before| ==> !IsQuit(before[i])) && (quit == "exit" || quit == "quit")
    ensures Frames(before + [quit] + after) == Frames(before) + [EXIT]
    ensures Unread(before + [quit] + after) == after && Unread(before) == []
    decreases |before|
  {
    var typed := before + [quit] + after;
    if before == [] {
      assert typed[0] == quit && typed[1..] == after;
    } else {
      assert typed[0] == before[0] && typed[1..] == before[1..] + [quit] + after;
      QuitIsTheLast(before[1..], quit, after);
    }
  }

  lemma Joined(a: Bytes, b: Bytes, c: Bytes)
    ensures a + b[..|b|] + c == a + (b + c)
  {
    assert b[..|b|] == b;
  }

  /** The first n messages, or all if there are fewer. */
  function First(messages: seq<Message>, n: nat): seq<Message> {
    if n < |messages| then messages[..n] else messages
  }

  /** What is shown in the end, with that many messages at most still to come. */
  function ShownBy(shown: seq<Bytes>, key: Byte, arrivals: seq<Arrival>, n: nat): seq<Bytes> {
    shown + AllDisplayed(First(ReadAll(key, arrivals), n))
  }

  lemma FirstOfSome(m: Message, rest: seq<Message>, n: nat)
    requires n > 0
    ensures First([m] + rest, n) == [m] + First(rest, n - 1)
  {
  }

  lemma DisplayedFirst(shown: seq<Bytes>, m: Message, more: seq<Message>)
    ensures shown + AllDisplayed([m] + more) == shown + Displayed(m) + AllDisplayed(more)
  {
    assert ([m] + more)[1..] == more;
    assert shown + (Displayed(m) + AllDisplayed(more)) == shown + Displayed(m) + AllDisplayed(more);
  }

  lemma ShownNext(shown: seq<Bytes>, key: Byte, arrivals: seq<Arrival>, n: nat)
    requires n > 0
    ensures var got := ReadLine(key, arrivals);
            ShownBy(shown, key, arrivals, n) ==
            if got.line == [] then shown
            else ShownBy(shown + Displayed(ParsedFrame(got.line)), key, got.rest, n - 1)
  {
    var got := ReadLine(key, arrivals);
    if got.line == [] {
      assert shown + [] == shown;
    } else {
      FirstOfSome(ParsedFrame(got.line), ReadAll(key, got.rest), n);
      DisplayedFirst(shown, ParsedFrame(got.line), First(ReadAll(key, got.rest), n - 1));
    }
  }

  lemma ShownNothing(shown: seq<Bytes>, key: Byte, arrivals: seq<Arrival>)
    ensures ShownBy(shown, key, arrivals, 0) == shown
  {
    assert First(ReadAll(key, arrivals), 0) == [];
    assert shown + [] == shown;
  }

  class Client {
    const cipher: Cipher
    var running: bool
    var incoming: seq<Arrival>     // what ::recv still has
    var sends: seq<SendResult>     // what ::send will return; an error when they run out
    var sent: Bytes                // what the kernel has taken
    var failed: bool               // some send did not get through
    var typed: seq<Bytes>          // the lines std::getline still has
    var shown: seq<Bytes>          // what the receiving side has displayed
    ghost const remainder: Place -> Place

    constructor (cipher: Cipher, incoming: seq<Arrival>, sends: seq<SendResult>, typed: seq<Bytes>)
      ensures this.cipher == cipher && this.incoming == incoming && this.sends == sends && this.typed == typed
      ensures !running && !failed && sent == [] && shown == [] && FollowsProtocol()
    {
      this.cipher, this.incoming, this.sends, this.typed := cipher, incoming, sends, typed;
      running, failed, sent, shown := false, false, [], [];
      remainder := p => Follow(cipher.key, p);
    }

    /**
     * `remainder` is the end of the dialogue from a place on, as the client's state machine has it.
     * As in ClientHandler, contracts mention it instead of the recursive Follow, so that the
     * verifier unrolls the state machine only in the lemmas on one step of Follow.
     */
    ghost predicate FollowsProtocol() {
      forall p {:trigger Follow(cipher.key, p)} :: remainder(p) == Follow(cipher.key, p)
    }

    ghost function Here(client: Auth.Client): Place
      reads this
    {
      Place(client, incoming, sent, typed, sends)
    }

    /** The end of the dialogue, if the client is in that state now. */
    ghost function End(client: Auth.Client): Place
      reads this
    {
      remainder(Here(client))
    }

    /** ::send from position `total` on: takes some of the bytes left, or none. */
    method KernelSend(wire: Bytes, total: nat) returns (result: SendResult)
      requires total < |wire|
      modifies this`sent, this`sends
      ensures result.Accepted? ==> total + result.n <= |wire| && sent == old(sent) + wire[total..total + result.n]
      ensures !result.Accepted? ==> sent == old(sent)
      ensures result.Interrupted? ==> Push(old(sends), |wire| - total) == Push(sends, |wire| - total)
      ensures result.Accepted? && result.n > 0 ==>
                Push(old(sends), |wire| - total) == After(result.n, Push(sends, |wire| - (total + result.n)))
      ensures result.Failed? || result == Accepted(0) ==>
                Push(old(sends), |wire| - total) == Pushed(false, 0, sends)
      ensures result.Failed? || |sends| < |old(sends)|
    {
      if sends == [] {
        return Failed;
      }
      result := sends[0];
      sends := sends[1..];
      if result.Accepted? {
        if result.n > |wire| - total {
          result := Accepted(|wire| - total);
        }
        sent := sent + wire[total..total + result.n];
      }
    }

    /** One turn of the sending loop; not `more` at a failure. */
    method SendOn(wire: Bytes, total: nat, ghost before: Bytes) returns (more: bool, total': nat)
      requires total < |wire| && sent == before + wire[..total]
      modifies this`sent, this`sends
      ensures total <= total' <= |wire| && sent == before + wire[..total']
      ensures more ==> |sends| < |old(sends)|
      ensures After(total, Push(old(sends), |wire| - total)) ==
              if more then After(total', Push(sends, |wire| - total')) else Pushed(false, total', sends)
    {
      var result := KernelSend(wire, total);
      if result.Failed? || result == Accepted(0) {
        return false, total;
      }
      if result.Interrupted? {
        return true, total;
      }
      Continued(before, wire, total, result.n);
      return true, total + result.n;
    }

    /** Retries after EINTR, goes on after a partial write, stops at the first failure. */
    method SendEncrypted(plain: Bytes) returns (ok: bool)
      modifies this`sent, this`sends, this`failed
      ensures var pushed := Push(old(sends), |plain|);
              ok == pushed.ok && sends == pushed.rest && sent == old(sent) + Xor(plain, cipher.key)[..pushed.taken]
      ensures failed == (old(failed) || !ok)
      ensures ok ==> sent == old(sent) + Xor(plain, cipher.key)
    {
      var wire := cipher.Encrypt(plain);
      var total := 0;
      assert sent + wire[..0] == sent;
      while total < |wire|
        invariant 0 <= total <= |wire| && sent == old(sent) + wire[..total] && failed == old(failed)
        invariant After(total, Push(sends, |wire| - total)) == Push(old(sends), |wire|)
        decreases |sends|
      {
        ok, total := SendOn(wire, total, old(sent));
        if !ok {
          failed := true;
          return;
        }
      }
      assert wire[..total] == wire;
      return true;
    }

    method ReceiveLine() returns (line: Bytes)
      modifies this`incoming
      ensures Received(line, incoming) == ReadLine(cipher.key, old(incoming))
    {
      line, incoming := RecvLine(cipher.key, incoming);
    }

    // Authentication.

    method ReadNext(ghost client: Auth.Client) returns (line: Bytes)
      requires FollowsProtocol() && Auth.ClientReads(client)
      modifies this`incoming
      ensures Received(line, incoming) == ReadLine(cipher.key, old(incoming))
      ensures End(Auth.AfterReading(client, line)) == old(End(client))
    {
      Reads(cipher.key, Here(client));
      line := ReceiveLine();
    }

    /** Sends what the user types, in full or not; None when the user types no more. */
    method TypeNext(ghost client: Auth.Client, asChoice: bool) returns (line: Option<Bytes>)
      requires FollowsProtocol() && Auth.ClientTypesNow(client) && asChoice == client.Picking?
      modifies this`sent, this`sends, this`failed, this`typed
      ensures line.Some? ==> End(Auth.AfterTyping(client, line.value)) == old(End(client))
      ensures line.None? ==> typed == [] && Here(client) == old(Here(client))
    {
      if typed == [] {
        return None;
      }
      Types(cipher.key, Here(client));
      var text := typed[0];
      typed := typed[1..];
      var wire := text + "\n";
      if asChoice {
        wire := Serialise(Choice(text));
      }
      var ok := SendEncrypted(wire);
      return Some(text);
    }

    /** Shows a prompt and sends what the user answers. */
    method Prompted(ghost client: Auth.Client) returns (line: Option<Bytes>)
      requires FollowsProtocol() && (client.AtNamePrompt? || client.AtPasswordPrompt?)
      modifies this`incoming, this`sent, this`sends, this`failed, this`typed
      ensures |incoming| <= |old(incoming)|
      ensures line.Some? ==> End(Auth.AfterTyping(Auth.AfterReading(client, []), line.value)) == old(End(client))
      ensures line.None? ==> End(Auth.AtMenu(client.round + 1)) == old(End(client))
    {
      var prompt := ReadNext(client);
      line := TypeNext(Auth.AfterReading(client, []), false);
      if line.None? {
        StopsTyping(cipher.key, Here(Auth.AfterReading(client, [])));
      }
    }

    /** do_register and do_login, which read the same. False also when the user stops typing. */
    method Credentials(ghost round: nat, ghost signUp: bool) returns (ok: bool)
      requires FollowsProtocol()
      modifies this`incoming, this`sent, this`sends, this`failed, this`typed
      ensures |incoming| <= |old(incoming)|
      ensures End(if ok then Auth.Authenticated else Auth.AtMenu(round + 1)) ==
              old(End(Auth.AtNamePrompt(round, signUp)))
    {
      var username := Prompted(Auth.AtNamePrompt(round, signUp));
      if username.None? {
        return false;
      }
      var password := Prompted(Auth.AtPasswordPrompt(round, signUp));
      if password.None? {
        return false;
      }
      var response := ReadNext(Auth.AtResult(round));
      var m := Parse(response);
      return m.kind == "OK";
    }

    /**
     * Outcome, bytes read, bytes written and lines used are those of the client's state machine,
     * whatever the server sends, the user types and ::send returns. Lost: the source throws.
     */
    method AuthLoop() returns (authenticated: bool, lost: bool, ghost end: Auth.Client)
      requires FollowsProtocol()
      modifies this`incoming, this`sent, this`sends, this`failed, this`typed
      ensures Here(end) == old(End(Auth.AtMenu(0))) && Ends(Here(end))
      ensures authenticated <==> end.Authenticated?
      ensures lost <==> end.Disconnected?
    {
      ghost var round := 0;
      authenticated, lost := false, false;
      while !authenticated
        invariant End(if authenticated then Auth.Authenticated else Auth.AtMenu(round)) == old(End(Auth.AtMenu(0)))
        decreases !authenticated, |incoming|
      {
        var menu := ReadNext(Auth.AtMenu(round));
        if menu == [] {
          Stops(cipher.key, Here(Auth.Disconnected));
          return false, true, Auth.Disconnected;
        }
        var choice := TypeNext(Auth.Picking(round), true);
        if choice.None? {
          Stops(cipher.key, Here(Auth.Picking(round)));
          return false, false, Auth.Picking(round);
        }
        if choice.value == "1" {
          authenticated := Credentials(round, true);
        } else if choice.value == "2" {
          authenticated := Credentials(round, false);
        }
        round := round + 1;
      }
      Stops(cipher.key, Here(Auth.Authenticated));
      end := Auth.Authenticated;
    }

    // Chat.

    ghost function Out(): Wire
      reads this
    {
      Wire(sent, failed, sends)
    }

    method SendFrame(m: Message)
      modifies this`sent, this`sends, this`failed
      ensures Out() == SendOne(cipher.key, old(Out()), m)
    {
      var wire := Serialise(m);
      var ok := SendEncrypted(wire);
    }

    /** Every line typed until one that quits; nobody looks at what the sends return. */
    method SendTyped()
      modifies this`sent, this`sends, this`failed, this`typed
      ensures Out() == SendAll(cipher.key, old(Out()), Frames(old(typed)))
      ensures typed == Unread(old(typed))
    {
      var done := false;
      while typed != [] && !done
        invariant SendAll(cipher.key, Out(), if done then [] else Frames(typed)) ==
                  old(SendAll(cipher.key, Out(), Frames(typed)))
        invariant Unread(old(typed)) == if done then typed else Unread(typed)
        decreases |typed|
      {
        var line := typed[0];
        typed := typed[1..];
        if line == "/help" {
          continue;
        }
        if IsQuit(line) {
          SendFrame(EXIT);
          done := true;
        } else {
          assert ([Msg(line)] + Frames(typed))[1..] == Frames(typed);
          SendFrame(Msg(line));
        }
      }
    }

    /** The main thread's half of the chat; `created`: the other half has its thread. */
    method SendLoop(created: bool)
      modifies this`running, this`incoming, this`sent, this`sends, this`failed, this`typed, this`shown
      ensures var banner := ReadLine(cipher.key, old(incoming));
              incoming == banner.rest
              && shown == old(shown) + if banner.line == [] then [] else ["[SERVER] " + banner.line]
      ensures running <==> !created
      ensures !created ==> Out() == old(Out()) && typed == old(typed)
      ensures created ==> Out() == SendAll(cipher.key, old(Out()), Frames(old(typed))) && typed == Unread(old(typed))
      ensures created && !failed ==> sent == old(sent) + Xor(Stream(Frames(old(typed))), cipher.key)
    {
      running := true;
      var banner := ReceiveLine();
      if banner != [] {
        shown := shown + ["[SERVER] " + banner];
      }
      if !created {
        return;
      }
      SentWhole(cipher.key, Out(), Frames(typed));
      SendTyped();
      running := false;
    }

    method Show(m: Message)
      modifies this`shown
      ensures shown == old(shown) + Displayed(m)
    {
      if m.kind == "BCAST" {
        shown := shown + [m.payload];
      } else if m.kind == "OK" || m.kind == "ERR" {
        shown := shown + ["[SERVER] " + m.payload];
      }
    }

    /** One turn of the receiving loop. */
    method ShowNext(left: nat) returns (left': nat)
      requires left > 0
      modifies this`incoming, this`shown
      ensures left' < left
      ensures ShownBy(shown, cipher.key, incoming, left') == old(ShownBy(shown, cipher.key, incoming, left))
    {
      ShownNext(shown, cipher.key, incoming, left);
      var line := ReceiveLine();
      if line == [] {
        ShownNothing(shown, cipher.key, incoming);
        return 0;
      }
      var m := Parse(line);
      Show(m);
      left' := left - 1;
    }

    /**
     * The receiving thread, in which `running` is loaded as true that many times before the main
     * thread clears it: what is shown are that many messages, or all if the server goes first.
     */
    method RecvLoop(loads: nat)
      modifies this`incoming, this`shown
      ensures shown == old(shown) + AllDisplayed(First(ReadAll(cipher.key, old(incoming)), loads))
    {
      var left := loads;
      while left > 0
        invariant ShownBy(shown, cipher.key, incoming, left) == old(ShownBy(shown, cipher.key, incoming, loads))
      {
        left := ShowNext(left);
      }
      ShownNothing(shown, cipher.key, incoming);
    }
  }
}
