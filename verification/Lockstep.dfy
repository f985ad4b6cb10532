// Client and server stay in step through authentication, for every schedule of the two.

module Lockstep {
  import opened Accounts
  import opened AuthProtocol
  import opened ByteStrings
  import opened Ciphers
  import ChatCommands
  import opened FileIo
  import opened Messages
  import opened Streams

  // Channels as lists of lines.

  /** The channel carries exactly these lines, encrypted. */
  ghost predicate Holds(key: Byte, channel: seq<Arrival>, lines: seq<Bytes>) {
    && Carried(channel) == Some(Xor(Text(lines), key))
    && forall i :: 0 <= i < |lines| ==> '\n' !in lines[i]
  }

  lemma {:induction false} CarriedAppend(channel: seq<Arrival>, wire: Bytes)
    requires Carried(channel).Some?
    ensures Carried(channel + Arriving(wire)) == Some(Carried(channel).value + wire)
  {
    if channel == [] {
      assert channel + Arriving(wire) == Arriving(wire);
      CarriedWire(wire);
      assert Carried(channel).value + wire == wire;
    } else {
      assert (channel + Arriving(wire))[1..] == channel[1..] + Arriving(wire);
      CarriedAppend(channel[1..], wire);
      if channel[0].Data? {
        var b, tail := channel[0].b, Carried(channel[1..]).value;
        assert [b] + (tail + wire) == [b] + tail + wire;
      }
    }
  }

  lemma {:induction false} CarriedWire(wire: Bytes)
    ensures Carried(Arriving(wire)) == Some(wire)
  {
    if wire != [] {
      assert Arriving(wire)[1..] == Arriving(wire[1..]);
      CarriedWire(wire[1..]);
      assert wire == [wire[0]] + wire[1..];
    }
  }

  lemma Sending(key: Byte, channel: seq<Arrival>, lines: seq<Bytes>, line: Bytes)
    requires Holds(key, channel, lines) && '\n' !in line
    ensures Holds(key, Sent(key, channel, line), lines + [line])
  {
    CarriedAppend(channel, Xor(line + "\n", key));
    TextAppend(lines, line);
    XorConcat(Text(lines), line + "\n", key);
    assert Text(lines) + (line + "\n") == Text(lines) + line + "\n";
  }

  lemma Receiving(key: Byte, channel: seq<Arrival>, lines: seq<Bytes>)
    requires Holds(key, channel, lines) && lines != []
    ensures ReadLine(key, channel).line == lines[0]
    ensures Holds(key, ReadLine(key, channel).rest, lines[1..])
  {
    var plain := Text(lines);
    assert plain == lines[0] + "\n" + Text(lines[1..]);
    assert plain[..|lines[0]|] == lines[0] && plain[|lines[0]| + 1..] == Text(lines[1..]);
    ReadLineOfWire(key, channel, [], plain, |lines[0]|);
  }

  lemma ReceivingNothing(key: Byte, channel: seq<Arrival>)
    requires Holds(key, channel, [])
    ensures ReadLine(key, channel).line == [] && Holds(key, ReadLine(key, channel).rest, [])
  {
    NothingCarried(key, channel);
    NothingLeft(key, channel, []);
  }

  lemma {:induction false} NothingLeft(key: Byte, channel: seq<Arrival>, buf: Bytes)
    requires Carried(channel) == Some([])
    ensures ReadLine(key, channel, buf).rest == []
  {
    if channel != [] {
      NothingLeft(key, channel[1..], buf);
    }
  }

  lemma HasLineIff(key: Byte, channel: seq<Arrival>, lines: seq<Bytes>)
    requires Holds(key, channel, lines)
    ensures HasLine(key, channel) <==> lines != []
  {
    XorInvolution(Text(lines), key);
    if lines != [] {
      assert Text(lines)[|lines[0]|] == '\n';
    }
  }

  // Lines by their meaning.

  /** A line of that kind, as the receiver parses it. */
  predicate IsKind(line: Bytes, kind: Bytes) {
    line != [] && ParsedFrame(line).kind == kind
  }

  lemma KindOf(kind: Bytes, text: Bytes)
    requires ':' !in kind && text != []
    ensures ParsedFrame(Body(Message(kind, text))).kind == kind
  {
    StripAfterPrefix(kind + ":", text);
    var kept := StripLineEnds(text);
    assert kind + ":" + kept == kind + [':'] + kept;
    FindInConcat(kind, ':', kept);
    assert (kind + ":" + kept)[..|kind|] == kind;
  }

  lemma PlainLine(kind: Bytes, text: Bytes)
    requires ':' !in kind && '\n' !in kind && text != [] && '\n' !in text
    ensures '\n' !in Body(Message(kind, text)) && IsKind(Body(Message(kind, text)), kind)
  {
    KindOf(kind, text);
  }

  predicate IsPlain(line: Bytes) {
    line != [] && '\n' !in line
  }

  lemma InputErrorIsPlain(why: Refusal)
    requires why.BadChoice? || why.BadUsername? || why.BadPassword?
    ensures IsPlain(Detail(why))
  {
    match why
    case BadChoice => Join3IsPlain("Invalid choice. ", "Please enter ", "1 or 2.");
    case BadUsername => Join3IsPlain("Invalid username. ", "Use [a-zA-Z0-9_], ", "max 64 chars.");
    case BadPassword => Join3IsPlain("Invalid password. ", "Max 128 chars, ", "no colons.");
  }

  lemma DetailIsPlain(why: Refusal)
    ensures IsPlain(Detail(why))
  {
    match why
    case UserExists => Join3IsPlain("User already ", "exists", ".");
    case BadCredentials => Join3IsPlain("Invalid ", "credentials", ".");
    case TooManyAttempts => Join3IsPlain("Authentication ", "failed. ", "Disconnecting.");
    case _ => InputErrorIsPlain(why);
  }

  lemma Join3IsPlain(a: Bytes, b: Bytes, c: Bytes)
    requires a != [] && '\n' !in a && '\n' !in b && '\n' !in c
    ensures IsPlain(Join3(a, b, c))
  {
  }

  lemma ErrLine(why: Refusal)
    ensures var line := Body(Err(Detail(why))); '\n' !in line && IsKind(line, "ERR")
  {
    DetailIsPlain(why);
    PlainLine("ERR", Detail(why));
  }

  lemma WelcomeIsPlain(signUp: bool, name: Bytes)
    requires '\n' !in name
    ensures IsPlain(Welcome(signUp, name))
  {
  }

  lemma OkLine(signUp: bool, name: Bytes)
    requires '\n' !in name
    ensures var line := Body(Ok(Welcome(signUp, name))); '\n' !in line && IsKind(line, "OK")
  {
    WelcomeIsPlain(signUp, name);
    PlainLine("OK", Welcome(signUp, name));
  }

  lemma MenuLine()
    ensures '\n' !in Body(MENU) && IsKind(Body(MENU), "MENU")
  {
    PlainLine("MENU", "1=Register 2=Login");
  }

  /** The answers 1 and 2 are understood. */
  lemma ChoiceLine(typed: Bytes)
    requires typed == "1" || typed == "2"
    ensures '\n' !in Body(Choice(typed)) && ChoiceIn(Body(Choice(typed))) == (if typed == "1" then 1 else 2)
  {
    ParseOfStreamedLine(Choice(typed));
    StoiOfDigit(typed);
  }

  lemma StoiOfDigit(typed: Bytes)
    requires typed == "1" || typed == "2"
    ensures Stoi(typed) == if typed == "1" then 1 else 2
  {
    var digit := typed[0] as int - '0' as int;
    assert ChatCommands.SkipSpace(typed) == typed;
    assert typed[1..] == [];
    assert DigitsValue(typed, 0) == DigitsValue(typed[1..], digit);
    assert DigitsValue([], digit) == digit;
  }

  /** What the server says, and what the client answers. */
  datatype Saying = AMenu | ANamePrompt | APasswordPrompt | AnOk | AnErr | Anything
  datatype Answer = AChoice(signUp: bool) | AName(signUp: bool) | APassword

  predicate Says(line: Bytes, saying: Saying) {
    match saying
    case AMenu => IsKind(line, "MENU")
    case ANamePrompt => line == NAME_PROMPT
    case APasswordPrompt => line == PASSWORD_PROMPT
    case AnOk => IsKind(line, "OK")
    case AnErr => IsKind(line, "ERR")
    case Anything => true
  }

  predicate Answers(line: Bytes, answer: Answer) {
    match answer
    case AChoice(signUp) => line == Body(Choice(if signUp then "1" else "2"))
    case AName(signUp) => line != [] && (signUp ==> ValidUsername(line))
    case APassword => line != []
  }

  // The joint invariant.

  /** Where the two are, and what is under way between them. */
  predicate Shape(server: Server, client: Client, says: seq<Saying>, answers: seq<Answer>) {
    match server
    case SendMenu(k) =>
      && k <= MAX_AUTH_ATTEMPTS && answers == []
      && ((client == AtMenu(k) && says == []) || (k > 0 && client == AtResult(k - 1) && says == [AnErr]))
    case AwaitChoice(k) =>
      && k < MAX_AUTH_ATTEMPTS
      && ((k > 0 && client == AtResult(k - 1) && says == [AnErr, AMenu] && answers == [])
          || (client == AtMenu(k) && says == [AMenu] && answers == [])
          || (client == Picking(k) && says == [] && answers == [])
          || (client.AtNamePrompt? && client.round == k && says == [] && answers == [AChoice(client.signUp)]))
    case AskName(k, signUp) =>
      k < MAX_AUTH_ATTEMPTS && client == AtNamePrompt(k, signUp) && says == [] && answers == []
    case AwaitName(k, signUp) =>
      && k < MAX_AUTH_ATTEMPTS
      && ((client == AtNamePrompt(k, signUp) && says == [ANamePrompt] && answers == [])
          || (client == TypingName(k, signUp) && says == [] && answers == [])
          || (client == AtPasswordPrompt(k, signUp) && says == [] && answers == [AName(signUp)]))
    case AskPassword(k, signUp, _) =>
      k < MAX_AUTH_ATTEMPTS && client == AtPasswordPrompt(k, signUp) && says == [] && answers == []
    case AwaitPassword(k, signUp, _) =>
      && k < MAX_AUTH_ATTEMPTS
      && ((client == AtPasswordPrompt(k, signUp) && says == [APasswordPrompt] && answers == [])
          || (client == TypingPassword(k, signUp) && says == [] && answers == [])
          || (client == AtResult(k) && says == [] && answers == [APassword]))
    case Decide(k, _, _, _) => k < MAX_AUTH_ATTEMPTS && client == AtResult(k) && says == [] && answers == []
    case SendErr(k, _) => k < MAX_AUTH_ATTEMPTS && client == AtResult(k) && says == [] && answers == []
    case List(k, _, _) => k < MAX_AUTH_ATTEMPTS && client == AtResult(k) && says == [] && answers == []
    case SendOk(k, _, _) => k < MAX_AUTH_ATTEMPTS && client == AtResult(k) && says == [] && answers == []
    case Chat(k, _) =>
      && k < MAX_AUTH_ATTEMPTS && answers == []
      && ((client == AtResult(k) && says != [] && says[0] == AnOk) || client == Authenticated)
    case GaveUp =>
      || (client == AtResult(2) && says == [AnErr, AnErr])
      || (client == AtMenu(3) && says == [AnErr])
      || (says == [] && Abandoned(client))
  }

  /** The client's last round, after the server has hung up. */
  predicate Abandoned(client: Client) {
    match client
    case AtMenu(r) => r == 4
    case Authenticated => false
    case Disconnected => true
    case _ => client.round == 3
  }

  /** Both channels, read as lines and by their meaning. */
  datatype Traffic = Traffic(ls: seq<Bytes>, says: seq<Saying>, lc: seq<Bytes>, answers: seq<Answer>)

  ghost predicate Meant(t: Traffic) {
    && |t.ls| == |t.says| && |t.lc| == |t.answers|
    && (forall i :: 0 <= i < |t.ls| ==> Says(t.ls[i], t.says[i]))
    && (forall i :: 0 <= i < |t.lc| ==> Answers(t.lc[i], t.answers[i]))
  }

  predicate PlainName(server: Server) {
    (server.AskPassword? || server.AwaitPassword? || server.Decide? || server.List? || server.SendOk?) ==>
      '\n' !in server.name
  }

  ghost predicate InStep(s: State, t: Traffic) {
    && Holds(s.key, s.toClient, t.ls) && Holds(s.key, s.toServer, t.lc)
    && Meant(t) && Shape(s.server, s.client, t.says, t.answers) && PlainName(s.server)
  }

  // Steps of the server.

  function SayingOf(server: Server): Saying
    requires ServerSendsNow(server)
  {
    match server
    case SendMenu(k) => if k < MAX_AUTH_ATTEMPTS then AMenu else AnErr
    case AskName(_, _) => ANamePrompt
    case AskPassword(_, _, _) => APasswordPrompt
    case SendErr(_, _) => AnErr
    case SendOk(_, _, _) => AnOk
  }

  lemma PromptsArePlain()
    ensures '\n' !in NAME_PROMPT && '\n' !in PASSWORD_PROMPT
  {
  }

  lemma OutgoingIsSent(s: State, accepted: bool)
    requires ServerSendsNow(s.server)
    ensures ServerNext(s, accepted) ==
            s.(server := AfterSending(s.server), toClient := AuthProtocol.Sent(s.key, s.toClient, SaidBy(s.server)))
  {
  }

  ghost predicate PlainSaying(line: Bytes, saying: Saying) {
    '\n' !in line && Says(line, saying)
  }

  lemma MenuGoesOut(attempt: nat)
    ensures PlainSaying(SaidBy(SendMenu(attempt)), SayingOf(SendMenu(attempt)))
  {
    if attempt < MAX_AUTH_ATTEMPTS {
      MenuLine();
    } else {
      ErrLine(TooManyAttempts);
    }
  }

  lemma ErrGoesOut(why: Refusal)
    ensures PlainSaying(Body(Err(Detail(why))), AnErr)
  {
    ErrLine(why);
  }

  lemma OkGoesOut(signUp: bool, name: Bytes)
    requires '\n' !in name
    ensures PlainSaying(Body(Ok(Welcome(signUp, name))), AnOk)
  {
    OkLine(signUp, name);
  }

  /** The line that goes out says what its place in the protocol asks for. */
  lemma OutgoingSays(server: Server)
    requires ServerSendsNow(server) && PlainName(server)
    ensures PlainSaying(SaidBy(server), SayingOf(server))
  {
    match server
    case SendMenu(k) => MenuGoesOut(k);
    case SendErr(_, why) => ErrGoesOut(why);
    case SendOk(_, signUp, name) => OkGoesOut(signUp, name);
    case _ => PromptsArePlain();
  }

  lemma ShapeAfterSending(server: Server, client: Client, says: seq<Saying>, answers: seq<Answer>)
    requires ServerSendsNow(server) && Shape(server, client, says, answers)
    ensures Shape(AfterSending(server), client, says + [SayingOf(server)], answers)
  {
  }

  lemma ServerSends(s: State, t: Traffic, accepted: bool) returns (t': Traffic)
    requires InStep(s, t) && ServerSendsNow(s.server)
    ensures InStep(ServerNext(s, accepted), t')
  {
    var line := SaidBy(s.server);
    OutgoingSays(s.server);
    OutgoingIsSent(s, accepted);
    ShapeAfterSending(s.server, s.client, t.says, t.answers);
    t' := LineIsUnderWay(s, ServerNext(s, accepted), t, line, SayingOf(s.server));
  }

  lemma LineIsUnderWay(s: State, s': State, t: Traffic, line: Bytes, saying: Saying) returns (t': Traffic)
    requires InStep(s, t) && PlainSaying(line, saying) && PlainName(s'.server)
    requires s' == s.(server := s'.server, toClient := AuthProtocol.Sent(s.key, s.toClient, line))
    requires Shape(s'.server, s.client, t.says + [saying], t.answers)
    ensures InStep(s', t')
  {
    t' := t.(ls := t.ls + [line], says := t.says + [saying]);
    Sending(s.key, s.toClient, t.ls, line);
  }

  /** The server's next position, given that the answer is of that kind. */
  function AfterAnswer(server: Server, answer: Answer, line: Bytes): Server {
    match answer
    case AChoice(signUp) => if server.AwaitChoice? then AskName(server.attempt, signUp) else server
    case AName(_) =>
      if server.AwaitName? then AskPassword(server.attempt, server.signUp, line) else server
    case APassword =>
      if server.AwaitPassword?
      then AfterPassword(server.attempt, server.signUp, server.name, line) else server
  }

  lemma ShapeAfterAnswer(server: Server, client: Client, says: seq<Saying>, answers: seq<Answer>, line: Bytes)
    requires ServerReads(server) && Shape(server, client, says, answers) && answers != []
    requires answers[0].APassword? ==> line != []
    ensures says == [] && answers == [answers[0]]
    ensures Shape(AfterAnswer(server, answers[0], line), client, says, [])
    ensures AnswerFits(server, answers[0])
  {
  }

  predicate AnswerFits(server: Server, answer: Answer) {
    || (server.AwaitChoice? && answer.AChoice?)
    || (server.AwaitName? && answer == AName(server.signUp))
    || (server.AwaitPassword? && answer.APassword?)
  }

  lemma AnswerIsUnderstood(s: State, accepted: bool, line: Bytes, answer: Answer)
    requires ServerReads(s.server) && AnswerFits(s.server, answer) && Answers(line, answer) && '\n' !in line
    requires ReadLine(s.key, s.toServer).line == line && PlainName(s.server)
    ensures ServerNext(s, accepted) ==
            s.(server := AfterAnswer(s.server, answer, line), toServer := ReadLine(s.key, s.toServer).rest)
    ensures PlainName(AfterAnswer(s.server, answer, line))
  {
    if answer.AChoice? {
      ChoiceLine(if answer.signUp then "1" else "2");
    }
  }

  lemma ServerReceives(s: State, t: Traffic, accepted: bool) returns (t': Traffic)
    requires InStep(s, t) && ServerReads(s.server) && t.lc != []
    ensures InStep(ServerNext(s, accepted), t')
  {
    Receiving(s.key, s.toServer, t.lc);
    ShapeAfterAnswer(s.server, s.client, t.says, t.answers, t.lc[0]);
    AnswerIsUnderstood(s, accepted, t.lc[0], t.answers[0]);
    t' := t.(lc := t.lc[1..], answers := []);
  }

  lemma ServerKeepsStep(s: State, t: Traffic, accepted: bool) returns (t': Traffic)
    requires InStep(s, t) && Enabled(s, ServerStep(accepted))
    ensures InStep(ServerNext(s, accepted), t')
  {
    HasLineIff(s.key, s.toServer, t.lc);
    if ServerSendsNow(s.server) {
      t' := ServerSends(s, t, accepted);
    } else if s.server.Decide? || s.server.List? {
      t' := t;
    } else {
      t' := ServerReceives(s, t, accepted);
    }
  }

  // Steps of the client.

  function AnswerOf(client: Client, typed: Bytes): Answer
    requires ClientTypesNow(client)
  {
    match client
    case Picking(_) => AChoice(typed == "1")
    case TypingName(_, signUp) => AName(signUp)
    case TypingPassword(_, _) => APassword
  }

  lemma TypedLine(s: State, typed: Bytes) returns (line: Bytes)
    requires ClientTypesNow(s.client) && WellTyped(s.client, typed)
    ensures '\n' !in line && Answers(line, AnswerOf(s.client, typed))
    ensures ClientNext(s, typed) ==
            s.(client := AfterTyping(s.client, typed), toServer := AuthProtocol.Sent(s.key, s.toServer, line))
  {
    if s.client.Picking? {
      ChoiceLine(typed);
      line := Body(Choice(typed));
    } else {
      line := typed;
    }
  }

  lemma ShapeAfterTyping(server: Server, client: Client, says: seq<Saying>, answers: seq<Answer>, typed: Bytes)
    requires ClientTypesNow(client) && WellTyped(client, typed) && Shape(server, client, says, answers)
    ensures Shape(server, AfterTyping(client, typed), says, answers + [AnswerOf(client, typed)])
  {
  }

  lemma ClientTypes(s: State, t: Traffic, typed: Bytes) returns (t': Traffic)
    requires InStep(s, t) && ClientTypesNow(s.client) && WellTyped(s.client, typed)
    ensures InStep(ClientNext(s, typed), t')
  {
    var line := TypedLine(s, typed);
    t' := t.(lc := t.lc + [line], answers := t.answers + [AnswerOf(s.client, typed)]);
    Sending(s.key, s.toServer, t.lc, line);
    ShapeAfterTyping(s.server, s.client, t.says, t.answers, typed);
  }

  /** The client's next position, given what the line says; without a line the peer has hung up. */
  function AfterSaying(client: Client, saying: Option<Saying>): Client
    requires ClientReads(client)
  {
    match client
    case AtMenu(r) => if saying == None then Disconnected else Picking(r)
    case AtNamePrompt(r, signUp) => TypingName(r, signUp)
    case AtPasswordPrompt(r, signUp) => TypingPassword(r, signUp)
    case AtResult(r) => if saying == Some(AnOk) then Authenticated else AtMenu(r + 1)
  }

  lemma ShapeAfterReading(server: Server, client: Client, says: seq<Saying>, answers: seq<Answer>)
    requires ClientReads(client) && Shape(server, client, says, answers)
    requires says == [] ==> server.GaveUp?
    ensures says != [] ==> Shape(server, AfterSaying(client, Some(says[0])), says[1..], answers)
    ensures says == [] ==> Shape(server, AfterSaying(client, None), [], answers)
    ensures says != [] ==> SayingFits(client, says[0], server.GaveUp?)
  {
  }

  /** What the client expects in this slot, as long as the server is there. */
  predicate SayingFits(client: Client, saying: Saying, gaveUp: bool) {
    match client
    case AtMenu(_) => saying.AMenu? || (gaveUp && saying.AnErr?)
    case AtNamePrompt(_, _) => saying.ANamePrompt?
    case AtPasswordPrompt(_, _) => saying.APasswordPrompt?
    case AtResult(_) => saying.AnOk? || saying.AnErr?
    case _ => false
  }

  lemma SayingIsUnderstood(s: State, typed: Bytes, line: Bytes, saying: Saying)
    requires ClientReads(s.client) && SayingFits(s.client, saying, true) && Says(line, saying)
    requires ReadLine(s.key, s.toClient).line == line
    ensures ClientNext(s, typed) ==
            s.(client := AfterSaying(s.client, Some(saying)), toClient := ReadLine(s.key, s.toClient).rest)
  {
  }

  lemma EmptyLineHasNoKind()
    ensures ParsedFrame([]).kind == []
  {
  }

  lemma HangUpIsUnderstood(s: State, typed: Bytes)
    requires ClientReads(s.client) && ReadLine(s.key, s.toClient).line == []
    ensures ClientNext(s, typed) ==
            s.(client := AfterSaying(s.client, None), toClient := ReadLine(s.key, s.toClient).rest)
  {
    EmptyLineHasNoKind();
  }

  lemma ClientKeepsStep(s: State, t: Traffic, typed: Bytes) returns (t': Traffic)
    requires InStep(s, t) && Enabled(s, ClientStep(typed))
    ensures InStep(ClientNext(s, typed), t')
  {
    HasLineIff(s.key, s.toClient, t.ls);
    if !ClientReads(s.client) {
      t' := ClientTypes(s, t, typed);
    } else {
      ShapeAfterReading(s.server, s.client, t.says, t.answers);
      if t.ls != [] {
        Receiving(s.key, s.toClient, t.ls);
        SayingIsUnderstood(s, typed, t.ls[0], t.says[0]);
        t' := t.(ls := t.ls[1..], says := t.says[1..]);
      } else {
        ReceivingNothing(s.key, s.toClient);
        HangUpIsUnderstood(s, typed);
        t' := t;
      }
    }
  }

  // Runs, with everything that may come to the client from elsewhere.

  /** Another handler's line comes after the client was listed and before its OK. */
  predicate Disturbs(s: State, e: Event) {
    e.Relayed? && s.server.SendOk?
  }

  /** No such line among the first k events. */
  ghost predicate Undisturbed(states: seq<State>, events: seq<Event>, k: nat)
    requires k <= |events| && |states| == |events| + 1
  {
    forall j :: 0 <= j < k ==> !Disturbs(states[j], events[j])
  }

  /** Once OK is out, further lines to the client come behind it. */
  lemma LineInChat(s: State, s': State, t: Traffic, line: Bytes) returns (t': Traffic)
    requires InStep(s, t) && s.server.Chat? && '\n' !in line
    requires s' == s.(toClient := AuthProtocol.Sent(s.key, s.toClient, line))
    ensures InStep(s', t')
  {
    t' := LineIsUnderWay(s, s', t, line, Anything);
  }

  lemma OthersKeepStep(s: State, t: Traffic, e: Event) returns (t': Traffic)
    requires InStep(s, t) && Enabled(s, e) && !Disturbs(s, e)
    requires e.Relayed? || e.ChatReads? || e.ChatWrites?
    ensures InStep(Next(s, e), t')
  {
    match e
    case Relayed(payload) =>
      BcastLine(payload);
      t' := LineInChat(s, Next(s, e), t, Body(Message("BCAST", payload)));
    case ChatReads =>
      HasLineIff(s.key, s.toServer, t.lc);
      assert false;
    case ChatWrites(line) => t' := LineInChat(s, Next(s, e), t, line);
  }

  lemma BcastLine(payload: Bytes)
    requires payload != [] && '\n' !in payload
    ensures var line := Body(Message("BCAST", payload));
            '\n' !in line && line != [] && ParsedFrame(line).kind == "BCAST"
  {
    PlainLine("BCAST", payload);
  }

  lemma {:induction false} RunIsInStep(states: seq<State>, events: seq<Event>, k: nat) returns (t: Traffic)
    requires IsRun(states, events) && k <= |events| && Undisturbed(states, events, k)
    ensures InStep(states[k], t)
  {
    if k == 0 {
      t := Traffic([], [], [], []);
    } else {
      t := RunIsInStep(states, events, k - 1);
      match events[k - 1]
      case ServerStep(accepted) => t := ServerKeepsStep(states[k - 1], t, accepted);
      case ClientStep(typed) => t := ClientKeepsStep(states[k - 1], t, typed);
      case _ => t := OthersKeepStep(states[k - 1], t, events[k - 1]);
    }
  }

  // What a user can rely on, in every state k of every run that is not disturbed. Interference.dfy
  // shows that a disturbance always breaks it.

  /** A menu where the client waits for one, a prompt for a prompt, OK or ERR for a result. */
  predicate Suits(client: Client, line: Bytes) {
    match client
    case AtMenu(_) => IsKind(line, "MENU")
    case AtNamePrompt(_, _) => line == NAME_PROMPT
    case AtPasswordPrompt(_, _) => line == PASSWORD_PROMPT
    case AtResult(_) => IsKind(line, "OK") || IsKind(line, "ERR")
    case _ => false
  }

  ghost predicate SlotMatches(s: State) {
    ClientReads(s.client) && s.client.round < MAX_AUTH_ATTEMPTS && HasLine(s.key, s.toClient) ==>
      Suits(s.client, ReadLine(s.key, s.toClient).line)
  }

  /** During the three attempts the line that the client reads next is of the kind it waits for. */
  lemma SlotsMatch(states: seq<State>, events: seq<Event>, k: nat)
    requires IsRun(states, events) && k <= |events| && Undisturbed(states, events, k)
    ensures SlotMatches(states[k])
  {
    var t := RunIsInStep(states, events, k);
    HasLineIff(states[k].key, states[k].toClient, t.ls);
    if ClientReads(states[k].client) && states[k].client.round < MAX_AUTH_ATTEMPTS && t.ls != [] {
      Receiving(states[k].key, states[k].toClient, t.ls);
      ShapeAfterReading(states[k].server, states[k].client, t.says, t.answers);
      assert Says(t.ls[0], t.says[0]);
    }
  }

  /** After them the only line left is the server's goodbye, which comes where a fourth menu would. */
  lemma GoodbyeIsLast(states: seq<State>, events: seq<Event>, k: nat)
    requires IsRun(states, events) && k <= |events| && Undisturbed(states, events, k)
    requires ClientReads(states[k].client) && states[k].client.round >= MAX_AUTH_ATTEMPTS
    requires HasLine(states[k].key, states[k].toClient)
    ensures states[k].server.GaveUp? && states[k].client == AtMenu(MAX_AUTH_ATTEMPTS)
    ensures IsKind(ReadLine(states[k].key, states[k].toClient).line, "ERR")
    ensures !HasLine(states[k].key, ReadLine(states[k].key, states[k].toClient).rest)
  {
    var t := RunIsInStep(states, events, k);
    HasLineIff(states[k].key, states[k].toClient, t.ls);
    Receiving(states[k].key, states[k].toClient, t.ls);
    OnlyGoodbye(states[k].server, states[k].client, t.says, t.answers);
    assert Says(t.ls[0], t.says[0]);
    HasLineIff(states[k].key, ReadLine(states[k].key, states[k].toClient).rest, t.ls[1..]);
  }

  lemma OnlyGoodbye(server: Server, client: Client, says: seq<Saying>, answers: seq<Answer>)
    requires Shape(server, client, says, answers) && says != []
    requires ClientReads(client) && client.round >= MAX_AUTH_ATTEMPTS
    ensures server.GaveUp? && client == AtMenu(MAX_AUTH_ATTEMPTS) && says == [AnErr]
  {
  }

  lemma ShapeIsShort(server: Server, client: Client, says: seq<Saying>, answers: seq<Answer>)
    requires Shape(server, client, says, answers) && !server.GaveUp?
    ensures |answers| <= 1
  {
  }

  /** Until the server gives up, at most one line is under way to it. */
  lemma OneLineInFlight(states: seq<State>, events: seq<Event>, k: nat)
    requires IsRun(states, events) && k <= |events| && Undisturbed(states, events, k) && !states[k].server.GaveUp?
    ensures exists lc :: |lc| <= 1 && Holds(states[k].key, states[k].toServer, lc)
  {
    var t := RunIsInStep(states, events, k);
    ShapeIsShort(states[k].server, states[k].client, t.says, t.answers);
  }

  ghost predicate Together(s: State) {
    && (s.client.Authenticated? ==> s.server.Chat?)
    && (s.server.Chat? && !s.client.Authenticated? ==>
          s.client.AtResult? && HasLine(s.key, s.toClient) && IsKind(ReadLine(s.key, s.toClient).line, "OK"))
  }

  /** The client never believes more than the server; once the server is in the chat, the client will read OK. */
  lemma AuthenticatedTogether(states: seq<State>, events: seq<Event>, k: nat)
    requires IsRun(states, events) && k <= |events| && Undisturbed(states, events, k)
    ensures Together(states[k])
  {
    var t := RunIsInStep(states, events, k);
    HasLineIff(states[k].key, states[k].toClient, t.ls);
    if states[k].server.Chat? && !states[k].client.Authenticated? {
      OkIsNext(states[k], t);
    }
  }

  lemma OkIsNext(s: State, t: Traffic)
    requires InStep(s, t) && s.server.Chat? && !s.client.Authenticated?
    ensures s.client.AtResult? && t.ls != [] && IsKind(ReadLine(s.key, s.toClient).line, "OK")
  {
    assert Says(t.ls[0], t.says[0]);
    Receiving(s.key, s.toClient, t.ls);
  }

  /** Something the user may type at this point. */
  function Sample(client: Client): Bytes {
    if client.Picking? then "1" else "x"
  }

  lemma SampleIsWellTyped(client: Client)
    ensures WellTyped(client, Sample(client))
  {
  }

  /** Whoever has to wait waits for a line that is under way or that the other side will send. */
  lemma ShapeHasAMove(server: Server, client: Client, says: seq<Saying>, answers: seq<Answer>)
    requires Shape(server, client, says, answers)
    requires ServerReads(server) ==> answers == []
    requires ClientReads(client) ==> says == [] && !server.GaveUp?
    requires ServerReads(server) || server.Chat? || server.GaveUp?
    requires ClientReads(client) || client.Authenticated? || client.Disconnected?
    ensures (server.Chat? && client.Authenticated?) || (server.GaveUp? && client.Disconnected?)
  {
  }

  /** A step of one of the two programs in their dialogue. */
  predicate IsOwn(e: Event) {
    e.ServerStep? || e.ClientStep?
  }

  /** There is no deadlock: the dialogue stops only when both sides agree on the outcome. */
  lemma StopsInAgreement(states: seq<State>, events: seq<Event>)
    requires IsRun(states, events) && Undisturbed(states, events, |events|)
    requires forall e :: IsOwn(e) ==> !Enabled(states[|events|], e)
    ensures var s := states[|events|];
            || (s.server.Chat? && s.client.Authenticated?)
            || (s.server.GaveUp? && s.client.Disconnected?)
  {
    var s := states[|events|];
    var t := RunIsInStep(states, events, |events|);
    HasLineIff(s.key, s.toClient, t.ls);
    HasLineIff(s.key, s.toServer, t.lc);
    SampleIsWellTyped(s.client);
    assert !Enabled(s, ServerStep(true));
    assert !Enabled(s, ClientStep(Sample(s.client)));
    ShapeHasAMove(s.server, s.client, t.says, t.answers);
  }

  // Every run stops.

  function ClientLeft(client: Client): int {
    match client
    case AtMenu(r) => 8 * (4 - r) + 8
    case Picking(r) => 8 * (4 - r) + 7
    case AtNamePrompt(r, _) => 8 * (4 - r) + 6
    case TypingName(r, _) => 8 * (4 - r) + 5
    case AtPasswordPrompt(r, _) => 8 * (4 - r) + 4
    case TypingPassword(r, _) => 8 * (4 - r) + 3
    case AtResult(r) => 8 * (4 - r) + 2
    case Authenticated => 0
    case Disconnected => 0
  }

  lemma ShapeIsBounded(server: Server, client: Client, says: seq<Saying>, answers: seq<Answer>)
    requires Shape(server, client, says, answers)
    ensures 0 <= ServerLeft(server) && 0 <= ClientLeft(client)
    ensures !server.Chat? && !server.GaveUp? ==> server.attempt <= 3 && (server.SendMenu? || server.attempt < 3)
    ensures !client.Authenticated? && !client.Disconnected? ==>
              client.round <= 4 && (client.AtResult? ==> client.round <= 3)
  {
  }

  lemma ClientGetsOn(s: State, typed: Bytes)
    requires !s.client.Authenticated? && !s.client.Disconnected?
    requires s.client.round <= 4 && (s.client.AtResult? ==> s.client.round <= 3)
    ensures ClientLeft(ClientNext(s, typed).client) < ClientLeft(s.client)
    ensures ClientNext(s, typed).server == s.server
  {
  }

  /** A step of the dialogue takes one off, anything else nothing. */
  lemma StepTakesOne(s: State, e: Event, t: Traffic)
    requires InStep(s, t) && Enabled(s, e)
    ensures ServerLeft(Next(s, e).server) + ClientLeft(Next(s, e).client) + (if IsOwn(e) then 1 else 0) <=
            ServerLeft(s.server) + ClientLeft(s.client)
  {
    ShapeIsBounded(s.server, s.client, t.says, t.answers);
    match e
    case ServerStep(accepted) => ServerGetsOn(s, accepted);
    case ClientStep(typed) => ClientGetsOn(s, typed);
    case _ =>
  }

  lemma EachStepTakesOne(states: seq<State>, events: seq<Event>, k: nat)
    requires IsRun(states, events) && k < |events| && Undisturbed(states, events, k)
    ensures ServerLeft(states[k + 1].server) + ClientLeft(states[k + 1].client) + (if IsOwn(events[k]) then 1 else 0) <=
            ServerLeft(states[k].server) + ClientLeft(states[k].client)
  {
    var t := RunIsInStep(states, events, k);
    StepTakesOne(states[k], events[k], t);
  }

  /** The steps of the dialogue among the first k events. */
  function OwnSteps(events: seq<Event>, k: nat): nat
    requires k <= |events|
  {
    if k == 0 then 0 else OwnSteps(events, k - 1) + if IsOwn(events[k - 1]) then 1 else 0
  }

  /** Authentication takes at most 72 steps of the two together, whatever the schedule. */
  lemma {:induction false} RunsAreShort(states: seq<State>, events: seq<Event>, k: nat)
    requires IsRun(states, events) && k <= |events| && Undisturbed(states, events, k)
    ensures OwnSteps(events, k) + ServerLeft(states[k].server) + ClientLeft(states[k].client) <= 72
    ensures OwnSteps(events, k) <= 72
  {
    var t := RunIsInStep(states, events, k);
    ShapeIsBounded(states[k].server, states[k].client, t.says, t.answers);
    if k > 0 {
      RunsAreShort(states, events, k - 1);
      EachStepTakesOne(states, events, k - 1);
    }
  }
}
