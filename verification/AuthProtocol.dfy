// Client and server during authentication: two programs that talk over encrypted byte
// channels (src/client/client.cpp:92-173, src/server/client_handler.cpp:113-202, 331-352).

module AuthProtocol {
  import opened Accounts
  import opened ByteStrings
  import opened ChatCommands
  import opened Ciphers
  import opened Messages
  import opened Streams

  const NAME_PROMPT: Bytes := "Enter username: "
  const PASSWORD_PROMPT: Bytes := "Enter password: "

  // The server's side.

  datatype Refusal = BadChoice | BadUsername | BadPassword | UserExists | BadCredentials | TooManyAttempts

  const BAD_CHOICE: Bytes := Join3("Invalid choice. ", "Please enter ", "1 or 2.")
  const BAD_USERNAME: Bytes := Join3("Invalid username. ", "Use [a-zA-Z0-9_], ", "max 64 chars.")
  const BAD_PASSWORD: Bytes := Join3("Invalid password. ", "Max 128 chars, ", "no colons.")
  const USER_EXISTS: Bytes := Join3("User already ", "exists", ".")
  const BAD_CREDENTIALS: Bytes := Join3("Invalid ", "credentials", ".")
  const TOO_MANY: Bytes := Join3("Authentication ", "failed. ", "Disconnecting.")

  const REGISTERED: Bytes := Join3("Registration ", "successful. ", "Welcome, ")
  const LOGGED_IN: Bytes := Join3("Login ", "successful. ", "Welcome back, ")

  function Detail(why: Refusal): Bytes {
    match why
    case BadChoice => BAD_CHOICE
    case BadUsername => BAD_USERNAME
    case BadPassword => BAD_PASSWORD
    case UserExists => USER_EXISTS
    case BadCredentials => BAD_CREDENTIALS
    case TooManyAttempts => TOO_MANY
  }

  function Welcome(signUp: bool, name: Bytes): Bytes {
    (if signUp then REGISTERED else LOGGED_IN) + name + "!"
  }

  datatype Server =
    | SendMenu(attempt: nat)
    | AwaitChoice(attempt: nat)
    | AskName(attempt: nat, signUp: bool)
    | AwaitName(attempt: nat, signUp: bool)
    | AskPassword(attempt: nat, signUp: bool, name: Bytes)
    | AwaitPassword(attempt: nat, signUp: bool, name: Bytes)
    | Decide(attempt: nat, signUp: bool, name: Bytes, password: Bytes)
    | SendErr(attempt: nat, why: Refusal)
    | List(attempt: nat, signUp: bool, name: Bytes)      // about to call set_username and add_client
    | SendOk(attempt: nat, signUp: bool, name: Bytes)
    | Chat(attempt: nat, name: Bytes)
    | GaveUp

  /** The digits that start s, as std::stoi accumulates them. */
  function DigitsValue(s: Bytes, acc: int): int {
    if s == [] || !('0' <= s[0] <= '9') then acc
    else DigitsValue(s[1..], 10 * acc + (s[0] as int - '0' as int))
  }

  function StartsWithDigit(s: Bytes): bool {
    s != [] && '0' <= s[0] <= '9'
  }

  /** std::stoi; 0 where it throws, for want of digits or out of the range of int. */
  function Stoi(s: Bytes): int {
    var t := SkipSpace(s);
    var signed := t != [] && (t[0] == '-' || t[0] == '+');
    var digits := if signed then t[1..] else t;
    if !StartsWithDigit(digits) then 0
    else
      var n := if signed && t[0] == '-' then -DigitsValue(digits, 0) else DigitsValue(digits, 0);
      if -0x8000_0000 <= n < 0x8000_0000 then n else 0
  }

  // std::stoi undoes printing.

  function Digit(n: nat): Byte
    requires n < 10
  {
    ('0' as int + n) as char
  }

  function Decimal(n: nat): Bytes {
    (if n < 10 then [] else Decimal(n / 10)) + [Digit(n % 10)]
  }

  lemma {:induction false} DecimalValue(n: nat, rest: Bytes)
    ensures DigitsValue(Decimal(n) + rest, 0) == DigitsValue(rest, n)
  {
    if n < 10 {
      assert Decimal(n) + rest == [Digit(n)] + rest;
      OneDigit(n, rest, 0);
    } else {
      assert Decimal(n) + rest == Decimal(n / 10) + ([Digit(n % 10)] + rest);
      DecimalValue(n / 10, [Digit(n % 10)] + rest);
      OneDigit(n % 10, rest, n / 10);
    }
  }

  lemma OneDigit(d: nat, rest: Bytes, acc: nat)
    requires d < 10
    ensures DigitsValue([Digit(d)] + rest, acc) == DigitsValue(rest, 10 * acc + d)
  {
    assert ([Digit(d)] + rest)[1..] == rest;
  }

  lemma {:induction false} SkipsBlanks(blanks: Bytes, rest: Bytes)
    requires (forall i :: 0 <= i < |blanks| ==> IsSpace(blanks[i])) && rest != [] && !IsSpace(rest[0])
    ensures SkipSpace(blanks + rest) == rest
  {
    if blanks == [] {
      assert blanks + rest == rest;
    } else {
      assert (blanks + rest)[1..] == blanks[1..] + rest;
      SkipsBlanks(blanks[1..], rest);
    }
  }

  lemma {:induction false} DecimalStarts(n: nat, rest: Bytes)
    ensures StartsWithDigit(Decimal(n) + rest)
  {
    if n < 10 {
      assert (Decimal(n) + rest)[0] == Digit(n);
    } else {
      assert Decimal(n) + rest == Decimal(n / 10) + ([Digit(n % 10)] + rest);
      DecimalStarts(n / 10, [Digit(n % 10)] + rest);
    }
  }

  /** White space, a sign, the digits of n, and then something else: n with that sign, if it is an int. */
  lemma StoiReadsBack(blanks: Bytes, sign: Bytes, n: nat, rest: Bytes)
    requires forall i :: 0 <= i < |blanks| ==> IsSpace(blanks[i])
    requires sign == "" || sign == "+" || sign == "-"
    requires !StartsWithDigit(rest)
    ensures Stoi(blanks + (sign + (Decimal(n) + rest))) ==
            var v := if sign == "-" then -(n as int) else n as int; if -0x8000_0000 <= v < 0x8000_0000 then v else 0
  {
    DecimalStarts(n, rest);
    DecimalValue(n, rest);
    SkipsBlanks(blanks, sign + (Decimal(n) + rest));
    assert sign != "" ==> (sign + (Decimal(n) + rest))[1..] == Decimal(n) + rest;
    assert sign == "" ==> sign + (Decimal(n) + rest) == Decimal(n) + rest;
  }

  /** What holds no number there counts as 0. */
  lemma StoiOfNoNumber(blanks: Bytes, rest: Bytes)
    requires (forall i :: 0 <= i < |blanks| ==> IsSpace(blanks[i])) && rest != [] && !IsSpace(rest[0])
    requires !StartsWithDigit(rest) && rest[0] != '-' && rest[0] != '+'
    ensures Stoi(blanks + rest) == 0
  {
    SkipsBlanks(blanks, rest);
  }

  /** present_menu on the client's answer. */
  function ChoiceIn(line: Bytes): int {
    if line == [] then -1
    else
      var m := ParsedFrame(line);
      Stoi(if m.kind == "CHOICE" then m.payload else m.kind)
  }

  /** The number is read from a CHOICE frame or, for want of one, from the line itself. */
  lemma ChoiceIsRead(text: Bytes)
    requires text != [] && '\n' !in text && !IsLineEnd(text[|text| - 1])
    ensures ChoiceIn(Body(Choice(text))) == Stoi(text)
    ensures ':' !in text && text != "CHOICE" ==> ChoiceIn(text) == Stoi(text)
  {
    ChoiceFrame(text);
    if ':' !in text {
      BareLine(text);
    }
  }

  lemma ChoiceFrame(text: Bytes)
    requires text != [] && '\n' !in text && !IsLineEnd(text[|text| - 1])
    ensures Body(Choice(text)) != [] && ParsedFrame(Body(Choice(text))) == Choice(text)
  {
    assert Body(Choice(text))[|Body(Choice(text))| - 1] == text[|text| - 1];
    ParseOfStreamedLine(Choice(text));
  }

  lemma BareLine(text: Bytes)
    requires text != [] && ':' !in text && !IsLineEnd(text[|text| - 1])
    ensures ParsedFrame(text) == Message(text, [])
  {
  }

  function AfterChoice(attempt: nat, choice: int): Server {
    if choice < 0 then GaveUp
    else if choice == 1 then AskName(attempt, true)
    else if choice == 2 then AskName(attempt, false)
    else SendErr(attempt, BadChoice)
  }

  function AfterName(attempt: nat, signUp: bool, name: Bytes): Server {
    if name == [] then SendMenu(attempt + 1)
    else if signUp && !ValidUsername(name) then SendErr(attempt, BadUsername)
    else AskPassword(attempt, signUp, name)
  }

  function AfterPassword(attempt: nat, signUp: bool, name: Bytes, password: Bytes): Server {
    if password == [] then SendMenu(attempt + 1)
    else if signUp && !ValidPassword(password) then SendErr(attempt, BadPassword)
    else Decide(attempt, signUp, name, password)
  }

  /** The registry's verdict decides. */
  function AfterVerdict(attempt: nat, signUp: bool, name: Bytes, accepted: bool): Server {
    if accepted then List(attempt, signUp, name)
    else SendErr(attempt, if signUp then UserExists else BadCredentials)
  }

  predicate ServerSendsNow(server: Server) {
    server.SendMenu? || server.AskName? || server.AskPassword? || server.SendErr? || server.SendOk?
  }

  function AfterSending(server: Server): Server
    requires ServerSendsNow(server)
  {
    match server
    case SendMenu(k) => if k < MAX_AUTH_ATTEMPTS then AwaitChoice(k) else GaveUp
    case AskName(k, signUp) => AwaitName(k, signUp)
    case AskPassword(k, signUp, name) => AwaitPassword(k, signUp, name)
    case SendErr(k, _) => SendMenu(k + 1)
    case SendOk(k, _, name) => Chat(k, name)
  }

  function SaidBy(server: Server): Bytes
    requires ServerSendsNow(server)
  {
    match server
    case SendMenu(k) => if k < MAX_AUTH_ATTEMPTS then Body(MENU) else Body(Err(Detail(TooManyAttempts)))
    case AskName(_, _) => NAME_PROMPT
    case AskPassword(_, _, _) => PASSWORD_PROMPT
    case SendErr(_, why) => Body(Err(Detail(why)))
    case SendOk(_, signUp, name) => Body(Ok(Welcome(signUp, name)))
  }

  predicate ServerReads(server: Server) {
    server.AwaitChoice? || server.AwaitName? || server.AwaitPassword?
  }

  function AfterHearing(server: Server, line: Bytes): Server
    requires ServerReads(server)
  {
    match server
    case AwaitChoice(k) => AfterChoice(k, ChoiceIn(line))
    case AwaitName(k, signUp) => AfterName(k, signUp, line)
    case AwaitPassword(k, signUp, name) => AfterPassword(k, signUp, name, line)
  }

  // The client's side. `round` counts the menus it has gone through.

  datatype Client =
    | AtMenu(round: nat)
    | Picking(round: nat)
    | AtNamePrompt(round: nat, signUp: bool)
    | TypingName(round: nat, signUp: bool)
    | AtPasswordPrompt(round: nat, signUp: bool)
    | TypingPassword(round: nat, signUp: bool)
    | AtResult(round: nat)
    | Authenticated
    | Disconnected      // "Server disconnected during menu."

  datatype State = State(key: Byte, server: Server, client: Client, toServer: seq<Arrival>, toClient: seq<Arrival>)

  /** The server's step learns the registry's verdict, the client's what the user types. */
  datatype Event =
    | ServerStep(accepted: bool)
    | ClientStep(typed: Bytes)
    | Relayed(payload: Bytes)    // another handler sends this client a chat line
    | ChatReads                  // recv_loop takes a line
    | ChatWrites(line: Bytes)    // recv_loop answers, or greets

  /** From add_client on the other handlers reach the session. */
  predicate IsListed(server: Server) {
    server.SendOk? || server.Chat?
  }

  function Arriving(wire: Bytes): seq<Arrival> {
    seq(|wire|, i requires 0 <= i < |wire| => Data(wire[i]))
  }

  lemma ArrivingAppend(a: Bytes, b: Bytes)
    ensures Arriving(a + b) == Arriving(a) + Arriving(b)
  {
  }

  /** send_encrypted of a line, at either end. */
  function Sent(key: Byte, channel: seq<Arrival>, line: Bytes): seq<Arrival> {
    channel + Arriving(Xor(line + "\n", key))
  }

  ghost predicate HasLine(key: Byte, channel: seq<Arrival>) {
    Carried(channel).Some? && '\n' in Xor(Carried(channel).value, key)
  }

  predicate ClientReads(client: Client) {
    client.AtMenu? || client.AtNamePrompt? || client.AtPasswordPrompt? || client.AtResult?
  }

  function AfterReading(client: Client, line: Bytes): Client
    requires ClientReads(client)
  {
    match client
    case AtMenu(r) => if line == [] then Disconnected else Picking(r)
    case AtNamePrompt(r, signUp) => TypingName(r, signUp)
    case AtPasswordPrompt(r, signUp) => TypingPassword(r, signUp)
    case AtResult(r) => if ParsedFrame(line).kind == "OK" then Authenticated else AtMenu(r + 1)
  }

  predicate ClientTypesNow(client: Client) {
    client.Picking? || client.TypingName? || client.TypingPassword?
  }

  function AfterTyping(client: Client, line: Bytes): Client
    requires ClientTypesNow(client)
  {
    match client
    case Picking(r) => if line == "1" || line == "2" then AtNamePrompt(r, line == "1") else AtMenu(r + 1)
    case TypingName(r, signUp) => AtPasswordPrompt(r, signUp)
    case TypingPassword(r, _) => AtResult(r)
  }

  /** What goes out for a typed line. */
  function Typed(client: Client, line: Bytes): Bytes {
    if client.Picking? then Body(Choice(line)) else line
  }

  /** What the user types: 1 or 2, a name the server accepts for registration, something else otherwise. */
  predicate WellTyped(client: Client, typed: Bytes) {
    && '\n' !in typed && typed != []
    && (client.Picking? ==> typed == "1" || typed == "2")
    && (client.TypingName? && client.signUp ==> ValidUsername(typed))
  }

  ghost predicate Enabled(s: State, e: Event) {
    match e
    case ServerStep(_) =>
      && !s.server.Chat? && !s.server.GaveUp?
      && (ServerReads(s.server) ==> HasLine(s.key, s.toServer) || s.client.Disconnected?)
    case ClientStep(typed) =>
      && !s.client.Authenticated? && !s.client.Disconnected?
      && (ClientReads(s.client) ==> HasLine(s.key, s.toClient) || s.server.GaveUp?)
      && (!ClientReads(s.client) ==> WellTyped(s.client, typed))
    case Relayed(payload) => IsListed(s.server) && payload != [] && '\n' !in payload
    case ChatReads => s.server.Chat? && HasLine(s.key, s.toServer)
    case ChatWrites(line) => s.server.Chat? && '\n' !in line
  }

  function Next(s: State, e: Event): State {
    match e
    case ServerStep(accepted) => ServerNext(s, accepted)
    case ClientStep(typed) => ClientNext(s, typed)
    case Relayed(payload) => s.(toClient := Sent(s.key, s.toClient, Body(Message("BCAST", payload))))
    case ChatReads => s.(toServer := ReadLine(s.key, s.toServer).rest)
    case ChatWrites(line) => s.(toClient := Sent(s.key, s.toClient, line))
  }

  function ServerNext(s: State, accepted: bool): State {
    var server := s.server;
    if ServerSendsNow(server) then
      s.(server := AfterSending(server), toClient := Sent(s.key, s.toClient, SaidBy(server)))
    else if ServerReads(server) then
      var got := ReadLine(s.key, s.toServer);
      s.(server := AfterHearing(server, got.line), toServer := got.rest)
    else if server.Decide? then s.(server := AfterVerdict(server.attempt, server.signUp, server.name, accepted))
    else if server.List? then s.(server := SendOk(server.attempt, server.signUp, server.name))
    else s
  }

  function ClientNext(s: State, typed: Bytes): State {
    var client := s.client;
    if ClientReads(client) then
      var got := ReadLine(s.key, s.toClient);
      s.(client := AfterReading(client, got.line), toClient := got.rest)
    else if ClientTypesNow(client) then
      s.(client := AfterTyping(client, typed), toServer := Sent(s.key, s.toServer, Typed(client, typed)))
    else s
  }

  predicate Initial(s: State) {
    s.server == SendMenu(0) && s.client == AtMenu(0) && s.toServer == [] && s.toClient == []
  }

  ghost predicate IsRun(states: seq<State>, events: seq<Event>) {
    && |states| == |events| + 1 && Initial(states[0])
    && forall k :: 0 <= k < |events| ==> Enabled(states[k], events[k]) && states[k + 1] == Next(states[k], events[k])
  }

  // How far the server is from the end.

  predicate InTime(server: Server) {
    && !server.Chat? && !server.GaveUp?
    && server.attempt <= MAX_AUTH_ATTEMPTS && (server.SendMenu? || server.attempt < MAX_AUTH_ATTEMPTS)
  }

  function ServerLeft(server: Server): int {
    match server
    case SendMenu(k) => 8 * (3 - k) + 8
    case AwaitChoice(k) => 8 * (3 - k) + 7
    case AskName(k, _) => 8 * (3 - k) + 6
    case AwaitName(k, _) => 8 * (3 - k) + 5
    case AskPassword(k, _, _) => 8 * (3 - k) + 4
    case AwaitPassword(k, _, _) => 8 * (3 - k) + 3
    case Decide(k, _, _, _) => 8 * (3 - k) + 2
    case SendErr(k, _) => 8 * (3 - k) + 1
    case List(_, _, _) => 2
    case SendOk(_, _, _) => 1
    case Chat(_, _) => 0
    case GaveUp => 0
  }

  lemma ChoiceGetsOn(k: nat, choice: int)
    requires k < 3
    ensures ServerLeft(AfterChoice(k, choice)) < 8 * (3 - k) + 7
  {
  }

  lemma NameGetsOn(k: nat, signUp: bool, name: Bytes)
    requires k < 3
    ensures ServerLeft(AfterName(k, signUp, name)) < 8 * (3 - k) + 5
  {
  }

  lemma PasswordGetsOn(k: nat, signUp: bool, name: Bytes, password: Bytes)
    requires k < 3
    ensures ServerLeft(AfterPassword(k, signUp, name, password)) < 8 * (3 - k) + 3
  {
  }

  lemma ServerGetsOn(s: State, accepted: bool)
    requires InTime(s.server)
    ensures ServerLeft(ServerNext(s, accepted).server) < ServerLeft(s.server)
    ensures ServerNext(s, accepted).client == s.client
  {
    var k := s.server.attempt;
    match s.server
    case AwaitChoice(_) => ChoiceGetsOn(k, ChoiceIn(ReadLine(s.key, s.toServer).line));
    case AwaitName(_, signUp) => NameGetsOn(k, signUp, ReadLine(s.key, s.toServer).line);
    case AwaitPassword(_, signUp, name) => PasswordGetsOn(k, signUp, name, ReadLine(s.key, s.toServer).line);
    case _ =>
  }
}
