// What a dialogue means for the accounts: who is let in, who is not, and what is said to them
// (src/server/client_handler.cpp:113-202, 331-352).

module Admission {
  import opened Accounts
  import opened AuthProtocol
  import opened ByteStrings
  import opened Ciphers
  import opened Dialogue
  import opened FileIo
  import opened Messages
  import opened Streams
  import Registry

  /** These lines arrive one after the other, a lost one as "", and this is left after them. */
  predicate Reads(key: Byte, arrivals: seq<Arrival>, lines: seq<Bytes>, rest: seq<Arrival>)
    decreases |lines|
  {
    if lines == [] then rest == arrivals
    else
      var got := ReadLine(key, arrivals);
      got.line == lines[0] && Reads(key, got.rest, lines[1..], rest)
  }

  /** These lines on the wire. */
  function Spoken(key: Byte, lines: seq<Bytes>): Bytes {
    if lines == [] then [] else Spoken(key, lines[..|lines| - 1]) + Line(key, lines[|lines| - 1])
  }

  /** The server in a dialogue: what it has to read, what it has said, and its registry file. */
  datatype Point = Point(server: Server, arrivals: seq<Arrival>, said: seq<Bytes>, text: Bytes)

  /** What comes of it, after `out` that was said before. */
  function End(key: Byte, disks: seq<Disk>, out: Bytes, p: Point): Dialogue {
    Converse(At(key, p.server, p.arrivals, out + Spoken(key, p.said)), p.text, disks)
  }

  lemma SpokenOneMore(key: Byte, out: Bytes, said: seq<Bytes>, line: Bytes)
    ensures out + Spoken(key, said + [line]) == out + Spoken(key, said) + Line(key, line)
  {
    assert (said + [line])[..|said|] == said;
  }

  // One step after the other.

  lemma SaysLine(key: Byte, disks: seq<Disk>, out: Bytes, p: Point)
    requires InTime(p.server) && ServerSendsNow(p.server)
    ensures End(key, disks, out, p) ==
            End(key, disks, out, Point(AfterSending(p.server), p.arrivals, p.said + [SaidBy(p.server)], p.text))
  {
    SpokenOneMore(key, out, p.said, SaidBy(p.server));
    Says(key, p.server, p.arrivals, out + Spoken(key, p.said), p.text, disks);
  }

  lemma HearsLine(key: Byte, disks: seq<Disk>, out: Bytes, p: Point, line: Bytes, rest: seq<Arrival>)
    requires InTime(p.server) && ServerReads(p.server) && ReadLine(key, p.arrivals) == Received(line, rest)
    ensures End(key, disks, out, p) ==
            End(key, disks, out, Point(AfterHearing(p.server, line), rest, p.said, p.text))
  {
    Hears(key, p.server, p.arrivals, out + Spoken(key, p.said), p.text, disks);
  }

  /** A menu or a prompt, and the answer to it. */
  lemma Asks(key: Byte, disks: seq<Disk>, out: Bytes, p: Point, line: Bytes, rest: seq<Arrival>)
    requires InTime(p.server) && ServerSendsNow(p.server) && ServerReads(AfterSending(p.server))
    requires ReadLine(key, p.arrivals) == Received(line, rest)
    ensures End(key, disks, out, p) ==
            End(key, disks, out, Point(AfterHearing(AfterSending(p.server), line), rest, p.said + [SaidBy(p.server)],
                                       p.text))
  {
    SaysLine(key, disks, out, p);
    HearsLine(key, disks, out, Point(AfterSending(p.server), p.arrivals, p.said + [SaidBy(p.server)], p.text),
              line, rest);
  }

  lemma AsksChoice(key: Byte, disks: seq<Disk>, out: Bytes, k: nat, arrivals: seq<Arrival>, said: seq<Bytes>,
    text: Bytes, line: Bytes, rest: seq<Arrival>)
    requires k < MAX_AUTH_ATTEMPTS && ReadLine(key, arrivals) == Received(line, rest)
    ensures End(key, disks, out, Point(SendMenu(k), arrivals, said, text)) ==
            End(key, disks, out, Point(AfterChoice(k, ChoiceIn(line)), rest, said + [Body(MENU)], text))
  {
    Asks(key, disks, out, Point(SendMenu(k), arrivals, said, text), line, rest);
  }

  lemma AsksName(key: Byte, disks: seq<Disk>, out: Bytes, k: nat, signUp: bool, arrivals: seq<Arrival>,
    said: seq<Bytes>, text: Bytes, name: Bytes, rest: seq<Arrival>)
    requires k < MAX_AUTH_ATTEMPTS && ReadLine(key, arrivals) == Received(name, rest)
    ensures End(key, disks, out, Point(AskName(k, signUp), arrivals, said, text)) ==
            End(key, disks, out, Point(AfterName(k, signUp, name), rest, said + [NAME_PROMPT], text))
  {
    Asks(key, disks, out, Point(AskName(k, signUp), arrivals, said, text), name, rest);
  }

  lemma AsksPassword(key: Byte, disks: seq<Disk>, out: Bytes, k: nat, signUp: bool, name: Bytes,
    arrivals: seq<Arrival>, said: seq<Bytes>, text: Bytes, password: Bytes, rest: seq<Arrival>)
    requires k < MAX_AUTH_ATTEMPTS && ReadLine(key, arrivals) == Received(password, rest)
    ensures End(key, disks, out, Point(AskPassword(k, signUp, name), arrivals, said, text)) ==
            End(key, disks, out, Point(AfterPassword(k, signUp, name, password), rest, said + [PASSWORD_PROMPT], text))
  {
    Asks(key, disks, out, Point(AskPassword(k, signUp, name), arrivals, said, text), password, rest);
  }

  lemma Refuses(key: Byte, disks: seq<Disk>, out: Bytes, k: nat, why: Refusal, detail: Bytes,
    arrivals: seq<Arrival>, said: seq<Bytes>, text: Bytes)
    requires k < MAX_AUTH_ATTEMPTS && Detail(why) == detail
    ensures End(key, disks, out, Point(SendErr(k, why), arrivals, said, text)) ==
            End(key, disks, out, Point(SendMenu(k + 1), arrivals, said + [Body(Err(detail))], text))
  {
    SaysLine(key, disks, out, Point(SendErr(k, why), arrivals, said, text));
  }

  lemma Judges(key: Byte, disks: seq<Disk>, out: Bytes, p: Point, accepted: bool, text': Bytes)
    requires InTime(p.server) && p.server.Decide? && Verdict(key, p.server, p.text, disks) == (accepted, text')
    ensures End(key, disks, out, p) ==
            End(key, disks, out, Point(AfterVerdict(p.server.attempt, p.server.signUp, p.server.name, accepted),
                                       p.arrivals, p.said, text'))
  {
    Decides(key, p.server, p.arrivals, out + Spoken(key, p.said), p.text, disks);
  }

  /** In the chat under that name. */
  predicate IsIn(d: Dialogue, key: Byte, k: nat, name: Bytes, rest: seq<Arrival>, out: Bytes, said: seq<Bytes>,
    text: Bytes)
  {
    d == Dialogue(At(key, Chat(k, name), rest, out + Spoken(key, said)), text)
  }

  lemma Welcomes(key: Byte, disks: seq<Disk>, out: Bytes, k: nat, signUp: bool, name: Bytes, arrivals: seq<Arrival>,
    said: seq<Bytes>, text: Bytes)
    requires k < MAX_AUTH_ATTEMPTS
    ensures IsIn(End(key, disks, out, Point(List(k, signUp, name), arrivals, said, text)), key, k, name, arrivals, out,
                 said + [Body(Ok(Welcome(signUp, name)))], text)
  {
    Lists(key, List(k, signUp, name), arrivals, out + Spoken(key, said), text, disks);
    SaysLine(key, disks, out, Point(SendOk(k, signUp, name), arrivals, said, text));
    IsOver(key, Chat(k, name), arrivals, out + Spoken(key, said + [Body(Ok(Welcome(signUp, name)))]), text, disks);
  }

  // One attempt, from the menu on. Everything that is said is in the statement.

  const PROMPTS: seq<Bytes> := [Body(MENU), NAME_PROMPT, PASSWORD_PROMPT]

  /** The answer that starts an attempt, and the attempt's name and password. */
  predicate ReadsAttempt(
    key: Byte, arrivals: seq<Arrival>, choice: int, name: Bytes, password: Bytes, rest: seq<Arrival>)
  {
    var first := ReadLine(key, arrivals);
    ChoiceIn(first.line) == choice && Reads(key, first.rest, [name, password], rest)
  }

  lemma Joined(said: seq<Bytes>, a: Bytes, b: Bytes, c: Bytes)
    ensures said + [a] + [b] + [c] == said + [a, b, c]
  {
  }

  lemma UpToThePassword(key: Byte, disks: seq<Disk>, out: Bytes, k: nat, arrivals: seq<Arrival>, said: seq<Bytes>,
    text: Bytes, signUp: bool, name: Bytes, password: Bytes, rest: seq<Arrival>)
    requires k < MAX_AUTH_ATTEMPTS && ReadsAttempt(key, arrivals, if signUp then 1 else 2, name, password, rest)
    requires name != [] && (signUp ==> ValidUsername(name))
    ensures End(key, disks, out, Point(SendMenu(k), arrivals, said, text)) ==
            End(key, disks, out, Point(AfterPassword(k, signUp, name, password), rest, said + PROMPTS, text))
  {
    var first := ReadLine(key, arrivals);
    var second := ReadLine(key, first.rest);
    TwoLines(key, first.rest, name, password, rest);
    AsksChoice(key, disks, out, k, arrivals, said, text, first.line, first.rest);
    NameAndPassword(key, disks, out, k, first.rest, said + [Body(MENU)], text, signUp, name, password, second.rest,
                    rest);
    Joined(said, Body(MENU), NAME_PROMPT, PASSWORD_PROMPT);
  }

  lemma TwoLines(key: Byte, arrivals: seq<Arrival>, name: Bytes, password: Bytes, rest: seq<Arrival>)
    requires Reads(key, arrivals, [name, password], rest)
    ensures ReadLine(key, arrivals).line == name
    ensures ReadLine(key, ReadLine(key, arrivals).rest) == Received(password, rest)
  {
    assert [name, password][1..] == [password] && [password][1..] == [];
    var second := ReadLine(key, ReadLine(key, arrivals).rest);
    assert Reads(key, second.rest, [], rest);
  }

  lemma NameAndPassword(key: Byte, disks: seq<Disk>, out: Bytes, k: nat, arrivals: seq<Arrival>, said: seq<Bytes>,
    text: Bytes, signUp: bool, name: Bytes, password: Bytes, rest: seq<Arrival>, rest': seq<Arrival>)
    requires k < MAX_AUTH_ATTEMPTS && name != [] && (signUp ==> ValidUsername(name))
    requires ReadLine(key, arrivals) == Received(name, rest) && ReadLine(key, rest) == Received(password, rest')
    ensures End(key, disks, out, Point(AskName(k, signUp), arrivals, said, text)) ==
            End(key, disks, out, Point(AfterPassword(k, signUp, name, password), rest',
                                       said + [NAME_PROMPT] + [PASSWORD_PROMPT], text))
  {
    AsksName(key, disks, out, k, signUp, arrivals, said, text, name, rest);
    AsksPassword(key, disks, out, k, signUp, name, rest, said + [NAME_PROMPT], text, password, rest');
  }

  /** A login is let in with the password of the account, and refused with any other or without an account. */
  lemma LoginIsJudged(key: Byte, disks: seq<Disk>, out: Bytes, k: nat, arrivals: seq<Arrival>, said: seq<Bytes>,
    text: Bytes, name: Bytes, password: Bytes, rest: seq<Arrival>)
    requires k < MAX_AUTH_ATTEMPTS && ReadsAttempt(key, arrivals, 2, name, password, rest)
    requires name != [] && password != [] && Registry.WellFormed(text)
    ensures var users, d := Registry.UsersIn(text), End(key, disks, out, Point(SendMenu(k), arrivals, said, text));
            if name in users && users[name] == Xor(password, key) then
              IsIn(d, key, k, name, rest, out, said + PROMPTS + [Body(Ok(LOGGED_IN + name + "!"))], text)
            else
              d == End(key, disks, out,
                       Point(SendMenu(k + 1), rest, said + PROMPTS + [Body(Err(BAD_CREDENTIALS))], text))
  {
    UpToThePassword(key, disks, out, k, arrivals, said, text, false, name, password, rest);
    Registry.AuthenticateRefines(text, name, Xor(password, key));
    VerdictOnLogin(key, disks, k, text, name, password);
    LoginEnds(key, disks, out, k, rest, said + PROMPTS, text, name, password,
              Registry.Authenticated(text, name, Xor(password, key)));
  }

  lemma VerdictOnLogin(key: Byte, disks: seq<Disk>, k: nat, text: Bytes, name: Bytes, password: Bytes)
    ensures Verdict(key, Decide(k, false, name, password), text, disks) ==
            (Registry.Authenticated(text, name, Xor(password, key)), text)
  {
  }

  lemma LoginEnds(key: Byte, disks: seq<Disk>, out: Bytes, k: nat, rest: seq<Arrival>, said: seq<Bytes>, text: Bytes,
    name: Bytes, password: Bytes, ok: bool)
    requires k < MAX_AUTH_ATTEMPTS && Verdict(key, Decide(k, false, name, password), text, disks) == (ok, text)
    ensures var d := End(key, disks, out, Point(Decide(k, false, name, password), rest, said, text));
            if ok then IsIn(d, key, k, name, rest, out, said + [Body(Ok(LOGGED_IN + name + "!"))], text)
            else d == End(key, disks, out, Point(SendMenu(k + 1), rest, said + [Body(Err(BAD_CREDENTIALS))], text))
  {
    Judges(key, disks, out, Point(Decide(k, false, name, password), rest, said, text), ok, text);
    if ok {
      Welcomes(key, disks, out, k, false, name, rest, said, text);
    } else {
      RefusesLogin(key, disks, out, k, name, rest, said, text);
    }
  }

  lemma RefusesLogin(key: Byte, disks: seq<Disk>, out: Bytes, k: nat, name: Bytes, rest: seq<Arrival>,
    said: seq<Bytes>, text: Bytes)
    requires k < MAX_AUTH_ATTEMPTS
    ensures End(key, disks, out, Point(AfterVerdict(k, false, name, false), rest, said, text)) ==
            End(key, disks, out, Point(SendMenu(k + 1), rest, said + [Body(Err(BAD_CREDENTIALS))], text))
  {
    Refuses(key, disks, out, k, BadCredentials, BAD_CREDENTIALS, rest, said, text);
  }

  lemma RefusesRegistration(key: Byte, disks: seq<Disk>, out: Bytes, k: nat, name: Bytes, rest: seq<Arrival>,
    said: seq<Bytes>, text: Bytes)
    requires k < MAX_AUTH_ATTEMPTS
    ensures End(key, disks, out, Point(AfterVerdict(k, true, name, false), rest, said, text)) ==
            End(key, disks, out, Point(SendMenu(k + 1), rest, said + [Body(Err(USER_EXISTS))], text))
  {
    Refuses(key, disks, out, k, UserExists, USER_EXISTS, rest, said, text);
  }

  /** A registration is let in iff the name is new and the file can be written, and then it is in the file. */
  lemma RegistrationIsJudged(key: Byte, disks: seq<Disk>, out: Bytes, k: nat, arrivals: seq<Arrival>,
    said: seq<Bytes>, text: Bytes, name: Bytes, password: Bytes, rest: seq<Arrival>) returns (text': Bytes)
    requires k < MAX_AUTH_ATTEMPTS && k < |disks| && ReadsAttempt(key, arrivals, 1, name, password, rest)
    requires ValidUsername(name) && 1 <= |password| <= 128 && ':' !in password && Registry.WellFormed(text)
    ensures var users, d := Registry.UsersIn(text), End(key, disks, out, Point(SendMenu(k), arrivals, said, text));
            if name !in users && Written(disks[k], |Registry.RecordsOf(text)| + 1) then
              && IsIn(d, key, k, name, rest, out, said + PROMPTS + [Body(Ok(REGISTERED + name + "!"))], text')
              && Registry.WellFormed(text') && Registry.UsersIn(text') == users[name := Xor(password, key)]
            else
              d == End(key, disks, out,
                       Point(SendMenu(k + 1), rest, said + PROMPTS + [Body(Err(USER_EXISTS))], text))
  {
    UpToThePassword(key, disks, out, k, arrivals, said, text, true, name, password, rest);
    Registry.RegisterRefines(text, name, Xor(password, key), disks[k]);
    text' := Registry.Registered(text, name, Xor(password, key), disks[k]).1;
    RegistrationEnds(key, disks, out, k, rest, said + PROMPTS, text, name, password);
  }

  lemma RegistrationEnds(key: Byte, disks: seq<Disk>, out: Bytes, k: nat, rest: seq<Arrival>, said: seq<Bytes>,
    text: Bytes, name: Bytes, password: Bytes)
    requires k < MAX_AUTH_ATTEMPTS && k < |disks|
    ensures var (ok, text') := Registry.Registered(text, name, Xor(password, key), disks[k]);
            var d := End(key, disks, out, Point(Decide(k, true, name, password), rest, said, text));
            if ok then IsIn(d, key, k, name, rest, out, said + [Body(Ok(REGISTERED + name + "!"))], text')
            else d == End(key, disks, out, Point(SendMenu(k + 1), rest, said + [Body(Err(USER_EXISTS))], text))
  {
    var (ok, text') := Registry.Registered(text, name, Xor(password, key), disks[k]);
    Judges(key, disks, out, Point(Decide(k, true, name, password), rest, said, text), ok, text');
    if ok {
      Welcomes(key, disks, out, k, true, name, rest, said, text');
    } else {
      RefusesRegistration(key, disks, out, k, name, rest, said, text');
    }
  }

  /** Passwords that are too long or hold a colon are refused. */
  lemma BadPasswordIsRefused(key: Byte, disks: seq<Disk>, out: Bytes, k: nat, arrivals: seq<Arrival>,
    said: seq<Bytes>, text: Bytes, name: Bytes, password: Bytes, rest: seq<Arrival>)
    requires k < MAX_AUTH_ATTEMPTS && ReadsAttempt(key, arrivals, 1, name, password, rest)
    requires ValidUsername(name) && (|password| > 128 || ':' in password)
    ensures End(key, disks, out, Point(SendMenu(k), arrivals, said, text)) ==
            End(key, disks, out, Point(SendMenu(k + 1), rest, said + PROMPTS + [Body(Err(BAD_PASSWORD))], text))
  {
    UpToThePassword(key, disks, out, k, arrivals, said, text, true, name, password, rest);
    Refuses(key, disks, out, k, BadPassword, BAD_PASSWORD, rest, said + PROMPTS, text);
  }

  /** Names that are too long or hold another character are refused before a password is asked for. */
  lemma BadNameIsRefused(key: Byte, disks: seq<Disk>, out: Bytes, k: nat, arrivals: seq<Arrival>, said: seq<Bytes>,
    text: Bytes, name: Bytes, rest: seq<Arrival>)
    requires k < MAX_AUTH_ATTEMPTS && ChoiceIn(ReadLine(key, arrivals).line) == 1
    requires ReadLine(key, ReadLine(key, arrivals).rest) == Received(name, rest) && name != [] && !ValidUsername(name)
    ensures End(key, disks, out, Point(SendMenu(k), arrivals, said, text)) ==
            End(key, disks, out,
                Point(SendMenu(k + 1), rest, said + [Body(MENU), NAME_PROMPT, Body(Err(BAD_USERNAME))], text))
  {
    var first := ReadLine(key, arrivals);
    AsksChoice(key, disks, out, k, arrivals, said, text, first.line, first.rest);
    AsksName(key, disks, out, k, true, first.rest, said + [Body(MENU)], text, name, rest);
    Refuses(key, disks, out, k, BadUsername, BAD_USERNAME, rest, said + [Body(MENU)] + [NAME_PROMPT], text);
    Joined(said, Body(MENU), NAME_PROMPT, Body(Err(BAD_USERNAME)));
  }

  /** Any other number is refused; a negative one, or no answer at all, ends the dialogue. */
  lemma OtherChoiceIsRefused(key: Byte, disks: seq<Disk>, out: Bytes, k: nat, arrivals: seq<Arrival>,
    said: seq<Bytes>, text: Bytes, line: Bytes, rest: seq<Arrival>)
    requires k < MAX_AUTH_ATTEMPTS && ReadLine(key, arrivals) == Received(line, rest)
    requires ChoiceIn(line) != 1 && ChoiceIn(line) != 2
    ensures var d := End(key, disks, out, Point(SendMenu(k), arrivals, said, text));
            if ChoiceIn(line) < 0 then
              d == Dialogue(At(key, GaveUp, rest, out + Spoken(key, said + [Body(MENU)])), text)
            else
              d == End(key, disks, out,
                       Point(SendMenu(k + 1), rest, said + [Body(MENU)] + [Body(Err(BAD_CHOICE))], text))
  {
    AsksChoice(key, disks, out, k, arrivals, said, text, line, rest);
    if ChoiceIn(line) < 0 {
      IsOver(key, GaveUp, rest, out + Spoken(key, said + [Body(MENU)]), text, disks);
    } else {
      Refuses(key, disks, out, k, BadChoice, BAD_CHOICE, rest, said + [Body(MENU)], text);
    }
  }

  /** A name or password that does not arrive ends the attempt without a word. */
  lemma LostAnswerEndsTheAttempt(key: Byte, disks: seq<Disk>, out: Bytes, k: nat, arrivals: seq<Arrival>,
    said: seq<Bytes>, text: Bytes, signUp: bool, name: Bytes, rest: seq<Arrival>)
    requires k < MAX_AUTH_ATTEMPTS && ReadsAttempt(key, arrivals, if signUp then 1 else 2, name, [], rest)
    requires name != [] && (signUp ==> ValidUsername(name))
    ensures End(key, disks, out, Point(SendMenu(k), arrivals, said, text)) ==
            End(key, disks, out, Point(SendMenu(k + 1), rest, said + PROMPTS, text))
  {
    UpToThePassword(key, disks, out, k, arrivals, said, text, signUp, name, [], rest);
  }

  lemma LostNameEndsTheAttempt(key: Byte, disks: seq<Disk>, out: Bytes, k: nat, arrivals: seq<Arrival>,
    said: seq<Bytes>, text: Bytes, signUp: bool, rest: seq<Arrival>)
    requires k < MAX_AUTH_ATTEMPTS && ChoiceIn(ReadLine(key, arrivals).line) == if signUp then 1 else 2
    requires ReadLine(key, ReadLine(key, arrivals).rest) == Received([], rest)
    ensures End(key, disks, out, Point(SendMenu(k), arrivals, said, text)) ==
            End(key, disks, out, Point(SendMenu(k + 1), rest, said + [Body(MENU)] + [NAME_PROMPT], text))
  {
    var first := ReadLine(key, arrivals);
    AsksChoice(key, disks, out, k, arrivals, said, text, first.line, first.rest);
    AsksName(key, disks, out, k, signUp, first.rest, said + [Body(MENU)], text, [], rest);
  }

  /** The fourth time there is no menu. */
  lemma ThreeAttemptsOnly(
    key: Byte, disks: seq<Disk>, out: Bytes, arrivals: seq<Arrival>, said: seq<Bytes>, text: Bytes)
    ensures End(key, disks, out, Point(SendMenu(3), arrivals, said, text)) ==
            Dialogue(At(key, GaveUp, arrivals, out + Spoken(key, said + [Body(Err(TOO_MANY))])), text)
  {
    SaysLine(key, disks, out, Point(SendMenu(3), arrivals, said, text));
    IsOver(key, GaveUp, arrivals, out + Spoken(key, said + [Body(Err(TOO_MANY))]), text, disks);
  }

  // Who gets in.

  lemma {:induction false} ReadsOn(key: Byte, arrivals: seq<Arrival>, lines: seq<Bytes>, rest: seq<Arrival>,
    more: seq<Bytes>, rest': seq<Arrival>)
    requires Reads(key, arrivals, lines, rest) && Reads(key, rest, more, rest')
    ensures Reads(key, arrivals, lines + more, rest')
    decreases |lines|
  {
    if lines == [] {
      assert lines + more == more;
    } else {
      assert (lines + more)[1..] == lines[1..] + more;
      ReadsOn(key, ReadLine(key, arrivals).rest, lines[1..], rest, more, rest');
    }
  }

  /** Choice, name and password that let a user in, and the accounts before and after. */
  predicate Admits(
    key: Byte, users: Registry.Users, users': Registry.Users, choice: Bytes, name: Bytes, password: Bytes)
  {
    && password != []
    && name in users' && users'[name] == Xor(password, key)
    && match ChoiceIn(choice)
       case 1 => ValidUsername(name) && ValidPassword(password) && name !in users
                 && users' == users[name := Xor(password, key)]
       case 2 => users' == users
       case _ => false
  }

  /** The last three lines read before the chat were a choice, this name and its password. */
  ghost predicate GotIn(key: Byte, arrivals: seq<Arrival>, text: Bytes, name: Bytes, text': Bytes, rest: seq<Arrival>)
  {
    exists lines, choice, password ::
      && Reads(key, arrivals, lines + [choice, name, password], rest)
      && Registry.WellFormed(text')
      && Admits(key, Registry.UsersIn(text), Registry.UsersIn(text'), choice, name, password)
  }

  // What one attempt comes to: the chat, the end, or the next attempt.

  predicate Over(d: Dialogue, key: Byte, out: Bytes, p: Point) {
    d == Dialogue(At(key, p.server, p.arrivals, out + Spoken(key, p.said)), p.text)
  }

  predicate LetIn(key: Byte, arrivals: seq<Arrival>, text: Bytes, lines: seq<Bytes>, p: Point) {
    && p.server.Chat? && |lines| == 3 && Reads(key, arrivals, lines, p.arrivals) && p.server.name == lines[1]
    && Registry.WellFormed(p.text)
    && Admits(key, Registry.UsersIn(text), Registry.UsersIn(p.text), lines[0], lines[1], lines[2])
  }

  predicate Again(key: Byte, k: nat, arrivals: seq<Arrival>, text: Bytes, lines: seq<Bytes>, p: Point) {
    p.server == SendMenu(k + 1) && Reads(key, arrivals, lines, p.arrivals) && p.text == text
  }

  /** What becomes of the dialogue after one attempt. */
  predicate Tried(key: Byte, disks: seq<Disk>, out: Bytes, k: nat, arrivals: seq<Arrival>, text: Bytes,
    lines: seq<Bytes>, p: Point, d: Dialogue)
  {
    || (Over(d, key, out, p) && LetIn(key, arrivals, text, lines, p))
    || (Over(d, key, out, p) && p.server.GaveUp? && p.text == text)
    || (d == End(key, disks, out, p) && Again(key, k, arrivals, text, lines, p))
  }

  /** The first three lines to come, as far as they do. */
  function NextThree(key: Byte, arrivals: seq<Arrival>): (Bytes, Bytes, Bytes) {
    var first := ReadLine(key, arrivals);
    var second := ReadLine(key, first.rest);
    (first.line, second.line, ReadLine(key, second.rest).line)
  }

  /**
   * Who is let in: with 1 and a name and password of the right form, if the name is new and the file
   * can be written, with 2 if the account has that password. A negative choice ends it all.
   */
  function Judged(users: Registry.Users, key: Byte, k: nat, lines: (Bytes, Bytes, Bytes), written: bool): Server {
    var (choice, name, password) := (ChoiceIn(lines.0), lines.1, lines.2);
    if choice < 0 then GaveUp
    else if choice == 1 && ValidUsername(name) && ValidPassword(password) && name !in users && written
      then Chat(k, name)
    else if choice == 2 && name != [] && password != [] && name in users && users[name] == Xor(password, key)
      then Chat(k, name)
    else SendMenu(k + 1)
  }

  /** The attempt ends as it should, with the account of a registration in the file. */
  predicate RightlyJudged(key: Byte, k: nat, arrivals: seq<Arrival>, text: Bytes, disks: seq<Disk>, p: Point)
    requires k < |disks|
  {
    var users, lines := Registry.UsersIn(text), NextThree(key, arrivals);
    && p.server == Judged(users, key, k, lines, Written(disks[k], |Registry.RecordsOf(text)| + 1))
    && Registry.WellFormed(p.text)
    && Registry.UsersIn(p.text) ==
       if p.server.Chat? && ChoiceIn(lines.0) == 1 then users[lines.1 := Xor(lines.2, key)] else users
  }

  lemma ReadsOneTwo(key: Byte, arrivals: seq<Arrival>)
    ensures var first := ReadLine(key, arrivals);
            var second := ReadLine(key, first.rest);
            && Reads(key, arrivals, [first.line], first.rest)
            && Reads(key, arrivals, [first.line, second.line], second.rest)
            && (var third := ReadLine(key, second.rest);
                && Reads(key, first.rest, [second.line, third.line], third.rest)
                && Reads(key, arrivals, [first.line, second.line, third.line], third.rest))
  {
    var first := ReadLine(key, arrivals);
    var second := ReadLine(key, first.rest);
    var third := ReadLine(key, second.rest);
    ReadsFirst(key, arrivals, [], first.rest);
    ReadsFirst(key, first.rest, [], second.rest);
    ReadsFirst(key, arrivals, [second.line], second.rest);
    ReadsFirst(key, second.rest, [], third.rest);
    ReadsFirst(key, first.rest, [third.line], third.rest);
    ReadsFirst(key, arrivals, [second.line, third.line], third.rest);
    Displays(first.line, second.line, third.line);
    Displays(second.line, third.line, []);
  }

  lemma ReadsFirst(key: Byte, arrivals: seq<Arrival>, lines: seq<Bytes>, rest: seq<Arrival>)
    requires Reads(key, ReadLine(key, arrivals).rest, lines, rest)
    ensures Reads(key, arrivals, [ReadLine(key, arrivals).line] + lines, rest)
  {
    assert ([ReadLine(key, arrivals).line] + lines)[1..] == lines;
  }

  lemma Displays(a: Bytes, b: Bytes, c: Bytes)
    ensures [a] + [] == [a] && [b] + [] == [b] && [c] + [] == [c]
    ensures [a] + [b] == [a, b] && [b] + [c] == [b, c] && [a] + [b, c] == [a, b, c]
  {
  }

  lemma TriesLogin(key: Byte, disks: seq<Disk>, out: Bytes, k: nat, arrivals: seq<Arrival>, said: seq<Bytes>,
    text: Bytes) returns (lines: seq<Bytes>, p: Point)
    requires k < MAX_AUTH_ATTEMPTS && k < |disks| && Registry.WellFormed(text)
    requires ChoiceIn(ReadLine(key, arrivals).line) == 2
    ensures Tried(key, disks, out, k, arrivals, text, lines, p,
                  End(key, disks, out, Point(SendMenu(k), arrivals, said, text)))
    ensures RightlyJudged(key, k, arrivals, text, disks, p)
  {
    var first := ReadLine(key, arrivals);
    var second := ReadLine(key, first.rest);
    var third := ReadLine(key, second.rest);
    var name, password := second.line, third.line;
    ReadsOneTwo(key, arrivals);
    if name == [] {
      LostNameEndsTheAttempt(key, disks, out, k, arrivals, said, text, false, second.rest);
      return [first.line, name], Point(SendMenu(k + 1), second.rest, said + [Body(MENU)] + [NAME_PROMPT], text);
    }
    lines := [first.line, name, password];
    if password == [] {
      LostAnswerEndsTheAttempt(key, disks, out, k, arrivals, said, text, false, name, third.rest);
      return lines, Point(SendMenu(k + 1), third.rest, said + PROMPTS, text);
    }
    LoginIsJudged(key, disks, out, k, arrivals, said, text, name, password, third.rest);
    var users := Registry.UsersIn(text);
    if name in users && users[name] == Xor(password, key) {
      p := Point(Chat(k, name), third.rest, said + PROMPTS + [Body(Ok(LOGGED_IN + name + "!"))], text);
    } else {
      p := Point(SendMenu(k + 1), third.rest, said + PROMPTS + [Body(Err(BAD_CREDENTIALS))], text);
    }
  }

  lemma TriesRegistration(key: Byte, disks: seq<Disk>, out: Bytes, k: nat, arrivals: seq<Arrival>, said: seq<Bytes>,
    text: Bytes) returns (lines: seq<Bytes>, p: Point)
    requires k < MAX_AUTH_ATTEMPTS && k < |disks| && Registry.WellFormed(text)
    requires ChoiceIn(ReadLine(key, arrivals).line) == 1
    ensures Tried(key, disks, out, k, arrivals, text, lines, p,
                  End(key, disks, out, Point(SendMenu(k), arrivals, said, text)))
    ensures RightlyJudged(key, k, arrivals, text, disks, p)
  {
    var first := ReadLine(key, arrivals);
    var second := ReadLine(key, first.rest);
    var third := ReadLine(key, second.rest);
    var name, password := second.line, third.line;
    ReadsOneTwo(key, arrivals);
    if name == [] {
      LostNameEndsTheAttempt(key, disks, out, k, arrivals, said, text, true, second.rest);
      return [first.line, name], Point(SendMenu(k + 1), second.rest, said + [Body(MENU)] + [NAME_PROMPT], text);
    }
    if !ValidUsername(name) {
      BadNameIsRefused(key, disks, out, k, arrivals, said, text, name, second.rest);
      return [first.line, name],
             Point(SendMenu(k + 1), second.rest, said + [Body(MENU), NAME_PROMPT, Body(Err(BAD_USERNAME))], text);
    }
    lines, p := TriesNamedRegistration(key, disks, out, k, arrivals, said, text, first.line, name, password,
                                       third.rest);
  }

  lemma TriesNamedRegistration(key: Byte, disks: seq<Disk>, out: Bytes, k: nat, arrivals: seq<Arrival>,
    said: seq<Bytes>, text: Bytes, choice: Bytes, name: Bytes, password: Bytes, rest: seq<Arrival>)
    returns (lines: seq<Bytes>, p: Point)
    requires k < MAX_AUTH_ATTEMPTS && k < |disks| && Registry.WellFormed(text) && ValidUsername(name)
    requires ReadsAttempt(key, arrivals, 1, name, password, rest) && ChoiceIn(choice) == 1
    requires Reads(key, arrivals, [choice, name, password], rest)
    requires NextThree(key, arrivals) == (choice, name, password)
    ensures Tried(key, disks, out, k, arrivals, text, lines, p,
                  End(key, disks, out, Point(SendMenu(k), arrivals, said, text)))
    ensures RightlyJudged(key, k, arrivals, text, disks, p)
  {
    lines := [choice, name, password];
    if password == [] {
      LostAnswerEndsTheAttempt(key, disks, out, k, arrivals, said, text, true, name, rest);
      return lines, Point(SendMenu(k + 1), rest, said + PROMPTS, text);
    }
    if !ValidPassword(password) {
      BadPasswordIsRefused(key, disks, out, k, arrivals, said, text, name, password, rest);
      return lines, Point(SendMenu(k + 1), rest, said + PROMPTS + [Body(Err(BAD_PASSWORD))], text);
    }
    var text' := RegistrationIsJudged(key, disks, out, k, arrivals, said, text, name, password, rest);
    if name !in Registry.UsersIn(text) && Written(disks[k], |Registry.RecordsOf(text)| + 1) {
      p := Point(Chat(k, name), rest, said + PROMPTS + [Body(Ok(REGISTERED + name + "!"))], text');
    } else {
      p := Point(SendMenu(k + 1), rest, said + PROMPTS + [Body(Err(USER_EXISTS))], text);
    }
  }

  lemma OneAttempt(key: Byte, disks: seq<Disk>, out: Bytes, k: nat, arrivals: seq<Arrival>, said: seq<Bytes>,
    text: Bytes) returns (lines: seq<Bytes>, p: Point)
    requires k < MAX_AUTH_ATTEMPTS && k < |disks| && Registry.WellFormed(text)
    ensures Tried(key, disks, out, k, arrivals, text, lines, p,
                  End(key, disks, out, Point(SendMenu(k), arrivals, said, text)))
    ensures RightlyJudged(key, k, arrivals, text, disks, p)
  {
    var first := ReadLine(key, arrivals);
    if ChoiceIn(first.line) == 1 {
      lines, p := TriesRegistration(key, disks, out, k, arrivals, said, text);
    } else if ChoiceIn(first.line) == 2 {
      lines, p := TriesLogin(key, disks, out, k, arrivals, said, text);
    } else {
      ReadsOneTwo(key, arrivals);
      lines := [first.line];
      OtherChoiceIsRefused(key, disks, out, k, arrivals, said, text, first.line, first.rest);
      if ChoiceIn(first.line) < 0 {
        p := Point(GaveUp, first.rest, said + [Body(MENU)], text);
      } else {
        p := Point(SendMenu(k + 1), first.rest, said + [Body(MENU)] + [Body(Err(BAD_CHOICE))], text);
      }
    }
  }

  /** Who is in the chat got in rightly; otherwise the dialogue is over and the file as it was. */
  ghost predicate RightlyEnds(key: Byte, arrivals: seq<Arrival>, text: Bytes, d: Dialogue) {
    if d.end.server.Chat? then GotIn(key, arrivals, text, d.end.server.name, d.text, d.end.toServer)
    else d.end.server.GaveUp? && d.text == text
  }

  /**
   * Whoever gets in has given, as the last three lines, a choice, a name and its password: of an
   * account that was there, or of one that was not and now is. Whoever does not leaves the file alone.
   */
  lemma {:induction false} WhoGetsIn(key: Byte, disks: seq<Disk>, out: Bytes, k: nat, arrivals: seq<Arrival>,
    said: seq<Bytes>, text: Bytes)
    requires k <= MAX_AUTH_ATTEMPTS == |disks| && Registry.WellFormed(text)
    ensures RightlyEnds(key, arrivals, text, End(key, disks, out, Point(SendMenu(k), arrivals, said, text)))
    decreases MAX_AUTH_ATTEMPTS - k
  {
    if k == MAX_AUTH_ATTEMPTS {
      ThreeAttemptsOnly(key, disks, out, arrivals, said, text);
    } else {
      var lines, p := SomeAttempt(key, disks, out, k, arrivals, said, text);
      if p.server == SendMenu(k + 1) {
        WhoGetsIn(key, disks, out, k + 1, p.arrivals, p.said, p.text);
      }
      AttemptEnds(key, disks, out, k, arrivals, text, lines, p,
                  End(key, disks, out, Point(SendMenu(k), arrivals, said, text)));
    }
  }

  lemma AttemptEnds(key: Byte, disks: seq<Disk>, out: Bytes, k: nat, arrivals: seq<Arrival>, text: Bytes,
    lines: seq<Bytes>, p: Point, d: Dialogue)
    requires Tried(key, disks, out, k, arrivals, text, lines, p, d)
    requires p.server == SendMenu(k + 1) ==>
               RightlyEnds(key, p.arrivals, p.text,
                           End(key, disks, out, Point(SendMenu(k + 1), p.arrivals, p.said, p.text)))
    ensures RightlyEnds(key, arrivals, text, d)
  {
    if p.server.Chat? {
      NowIsIn(key, arrivals, text, lines, p);
    } else if p.server.SendMenu? && d.end.server.Chat? {
      assert p == Point(SendMenu(k + 1), p.arrivals, p.said, p.text);
      LaterIsIn(key, arrivals, lines, p.arrivals, text, d.end.server.name, d.text, d.end.toServer);
    }
  }

  lemma SomeAttempt(key: Byte, disks: seq<Disk>, out: Bytes, k: nat, arrivals: seq<Arrival>, said: seq<Bytes>,
    text: Bytes) returns (lines: seq<Bytes>, p: Point)
    requires k < MAX_AUTH_ATTEMPTS && k < |disks| && Registry.WellFormed(text)
    ensures Tried(key, disks, out, k, arrivals, text, lines, p,
                  End(key, disks, out, Point(SendMenu(k), arrivals, said, text)))
  {
    lines, p := OneAttempt(key, disks, out, k, arrivals, said, text);
  }

  lemma OverIsEnd(key: Byte, disks: seq<Disk>, out: Bytes, p: Point)
    ensures p.server.Chat? || p.server.GaveUp? ==> Over(End(key, disks, out, p), key, out, p)
  {
    if p.server.Chat? || p.server.GaveUp? {
      IsOver(key, p.server, p.arrivals, out + Spoken(key, p.said), p.text, disks);
    }
  }

  lemma NowIsIn(key: Byte, arrivals: seq<Arrival>, text: Bytes, lines: seq<Bytes>, p: Point)
    requires LetIn(key, arrivals, text, lines, p)
    ensures GotIn(key, arrivals, text, p.server.name, p.text, p.arrivals)
  {
    assert [] + [lines[0], lines[1], lines[2]] == lines;
  }

  lemma LaterIsIn(key: Byte, arrivals: seq<Arrival>, lines: seq<Bytes>, later: seq<Arrival>, text: Bytes, name: Bytes,
    text': Bytes, rest: seq<Arrival>)
    requires Reads(key, arrivals, lines, later) && GotIn(key, later, text, name, text', rest)
    ensures GotIn(key, arrivals, text, name, text', rest)
  {
    var more, choice, password :|
      && Reads(key, later, more + [choice, name, password], rest)
      && Registry.WellFormed(text')
      && Admits(key, Registry.UsersIn(text), Registry.UsersIn(text'), choice, name, password);
    ReadsOn(key, arrivals, lines, later, more + [choice, name, password], rest);
    assert lines + (more + [choice, name, password]) == (lines + more) + [choice, name, password];
  }

  /** The same for the dialogue from its beginning. */
  lemma WhoConversesIn(key: Byte, arrivals: seq<Arrival>, out: Bytes, text: Bytes, disks: seq<Disk>)
    requires |disks| == MAX_AUTH_ATTEMPTS && Registry.WellFormed(text)
    ensures var d := Converse(At(key, SendMenu(0), arrivals, out), text, disks);
            d.end.server.Chat? ==> GotIn(key, arrivals, text, d.end.server.name, d.text, d.end.toServer)
  {
    assert out + Spoken(key, []) == out;
    WhoGetsIn(key, disks, out, 0, arrivals, [], text);
  }
}
