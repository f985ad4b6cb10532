// One attempt to get in, in the step system: the same answers and accounts as in the dialogue.

module ServerLogins {
  import opened Accounts
  import opened Admission
  import opened ByteStrings
  import opened Ciphers
  import opened FileIo
  import opened ServerInvariant
  import opened ServerSystem
  import opened Streams
  import Auth = AuthProtocol
  import Registry
  import Runs = ServerRuns

  /** What the handler makes of the three answers: the fields of the step `Choose`. */
  function ChoiceOf(key: Byte, lines: (Bytes, Bytes, Bytes)): Choice {
    var (choice, name, password) := (Auth.ChoiceIn(lines.0), lines.1, lines.2);
    if choice < 0 then Lost
    else if choice == 1 && ValidUsername(name) && ValidPassword(password) then Register(name, Xor(password, key))
    else if choice == 2 && name != [] && password != [] then Login(name, Xor(password, key))
    else Retry
  }

  /** The steps of an attempt, from the menu on. */
  function Chose(s: State, i: Sid, choice: Choice): State
    requires i < |s.threads| && s.threads[i].pc.Menu? && s.threads[i].active
    requires s.threads[i].pc.attempt < MAX_AUTH_ATTEMPTS && Allowed(choice)
  {
    var s1 := HandlerNext(s, i, s.threads[i], SendMenu(true));
    HandlerNext(s1, i, s1.threads[i], Choose(choice))
  }

  /** The registry's step, if it is asked. */
  function Decided(s: State, i: Sid, written: bool): State
    requires i < |s.threads|
  {
    if s.threads[i].pc.SigningUp? then HandlerNext(s, i, s.threads[i], CallRegister(written))
    else if s.threads[i].pc.SigningIn? then HandlerNext(s, i, s.threads[i], CallAuthenticate)
    else s
  }

  lemma ChosePosition(s: State, i: Sid, choice: Choice)
    requires i < |s.threads| && s.threads[i].pc.Menu? && s.threads[i].active
    requires s.threads[i].pc.attempt < MAX_AUTH_ATTEMPTS && Allowed(choice)
    ensures var k, s' := s.threads[i].pc.attempt, Chose(s, i, choice);
            && i < |s'.threads| && s'.users == s.users
            && s'.threads[i].pc == match choice
                                   case Register(name, password) => SigningUp(k, name, password)
                                   case Login(name, password) => SigningIn(k, name, password)
                                   case Retry => Menu(k + 1)
                                   case Lost => LeavingAll
  {
  }

  lemma RegisterPosition(s: State, i: Sid, written: bool)
    requires i < |s.threads| && s.threads[i].pc.SigningUp?
    ensures var s', pc := HandlerNext(s, i, s.threads[i], CallRegister(written)), s.threads[i].pc;
            && i < |s'.threads|
            && if pc.name !in s.users && written then
                 s'.threads[i].pc == Naming(pc.name) && s'.users == s.users[pc.name := pc.password]
               else s'.threads[i].pc == Menu(pc.attempt + 1) && s'.users == s.users
  {
  }

  lemma LoginPosition(s: State, i: Sid)
    requires i < |s.threads| && s.threads[i].pc.SigningIn?
    ensures var s', pc := HandlerNext(s, i, s.threads[i], CallAuthenticate), s.threads[i].pc;
            && i < |s'.threads| && s'.users == s.users
            && s'.threads[i].pc == if pc.name in s.users && s.users[pc.name] == pc.password
                                   then Naming(pc.name) else Menu(pc.attempt + 1)
  {
  }

  lemma DecidedPosition(s: State, i: Sid, written: bool)
    requires i < |s.threads|
    ensures var s', pc := Decided(s, i, written), s.threads[i].pc;
            && i < |s'.threads|
            && (pc.SigningUp? ==>
                  if pc.name !in s.users && written then
                    s'.threads[i].pc == Naming(pc.name) && s'.users == s.users[pc.name := pc.password]
                  else s'.threads[i].pc == Menu(pc.attempt + 1) && s'.users == s.users)
            && (pc.SigningIn? ==>
                  && s'.users == s.users
                  && s'.threads[i].pc == if pc.name in s.users && s.users[pc.name] == pc.password
                                         then Naming(pc.name) else Menu(pc.attempt + 1))
            && (!pc.SigningUp? && !pc.SigningIn? ==> s' == s)
  {
    if s.threads[i].pc.SigningUp? {
      RegisterPosition(s, i, written);
    } else if s.threads[i].pc.SigningIn? {
      LoginPosition(s, i);
    }
  }

  /** Where the handler is when the server's machine is there. */
  predicate Matches(pc: Pc, server: Auth.Server) {
    match server
    case Chat(_, name) => pc == Naming(name)
    case SendMenu(k) => pc == Menu(k)
    case _ => pc == LeavingAll
  }

  lemma ChoicesAreAllowed(key: Byte, lines: (Bytes, Bytes, Bytes))
    ensures Allowed(ChoiceOf(key, lines))
  {
  }

  lemma StepsAreJudged(s: State, i: Sid, key: Byte, lines: (Bytes, Bytes, Bytes), written: bool)
    requires i < |s.threads| && s.threads[i].pc.Menu? && s.threads[i].active
    requires s.threads[i].pc.attempt < MAX_AUTH_ATTEMPTS && Allowed(ChoiceOf(key, lines))
    ensures var k, s' := s.threads[i].pc.attempt, Decided(Chose(s, i, ChoiceOf(key, lines)), i, written);
            var server := Judged(s.users, key, k, lines, written);
            && i < |s'.threads| && Matches(s'.threads[i].pc, server)
            && s'.users == if server.Chat? && Auth.ChoiceIn(lines.0) == 1
                           then s.users[lines.1 := Xor(lines.2, key)] else s.users
  {
    ChosePosition(s, i, ChoiceOf(key, lines));
    DecidedPosition(Chose(s, i, ChoiceOf(key, lines)), i, written);
  }

  /** A menu that cannot be sent, or the fourth time round, is the end: the handler cleans up and stays at it. */
  lemma NoMenuNoChat(states: seq<State>, events: seq<Event>, i: Sid, j: nat, k: nat, sent: bool)
    requires IsRun(states, events) && j < k <= |events| && events[j] == OfHandler(i, SendMenu(sent))
    requires i < |states[j].threads| && (!sent || states[j].threads[i].pc.attempt >= 3)
    ensures i < |states[k].threads| && InCleanup(states[k].threads[i].pc)
  {
    MenuFails(states[j], i, sent);
    Runs.CleanupStays(states, events, i, j + 1, k);
  }

  lemma MenuFails(s: State, i: Sid, sent: bool)
    requires i < |s.threads| && HandlerEnabled(s, s.threads[i], SendMenu(sent))
    requires !sent || s.threads[i].pc.attempt >= 3
    ensures i < |HandlerNext(s, i, s.threads[i], SendMenu(sent)).threads|
    ensures InCleanup(HandlerNext(s, i, s.threads[i], SendMenu(sent)).threads[i].pc)
  {
  }

  /**
   * The handler's steps and the dialogue on the wire decide alike: in the chat under the same name,
   * at the next menu or at the end, and with the same accounts, in the step system and in the file.
   */
  lemma AttemptRefinesSteps(s: State, i: Sid, key: Byte, disks: seq<Disk>, out: Bytes, arrivals: seq<Arrival>,
    said: seq<Bytes>, text: Bytes) returns (s': State, p: Point)
    requires i < |s.threads| && s.threads[i].pc.Menu? && s.threads[i].active
    requires s.threads[i].pc.attempt < MAX_AUTH_ATTEMPTS == |disks| && Runs.StandsFor(text, s)
    ensures Allowed(ChoiceOf(key, NextThree(key, arrivals)))
    ensures s' == Decided(Chose(s, i, ChoiceOf(key, NextThree(key, arrivals))), i,
                          Written(disks[s.threads[i].pc.attempt], |Registry.RecordsOf(text)| + 1))
    ensures End(key, disks, out, Point(Auth.SendMenu(s.threads[i].pc.attempt), arrivals, said, text)) ==
            End(key, disks, out, p)
    ensures i < |s'.threads| && Matches(s'.threads[i].pc, p.server) && Runs.StandsFor(p.text, s')
  {
    var k, lines := s.threads[i].pc.attempt, NextThree(key, arrivals);
    var written := Written(disks[k], |Registry.RecordsOf(text)| + 1);
    ChoicesAreAllowed(key, lines);
    StepsAreJudged(s, i, key, lines, written);
    s' := Decided(Chose(s, i, ChoiceOf(key, lines)), i, written);
    var read;
    read, p := OneAttempt(key, disks, out, k, arrivals, said, text);
    OverIsEnd(key, disks, out, p);
  }
}
