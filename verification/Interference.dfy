// What becomes of the lockstep when another handler's line reaches the client between
// add_client and OK (src/server/client_handler.cpp:166-171, 196-201): it always breaks.

module Interference {
  import opened Accounts
  import opened AuthProtocol
  import opened ByteStrings
  import opened Lockstep
  import opened Messages
  import opened Streams
  import ChatCommands

  ghost predicate Aligned(s: State) {
    SlotMatches(s) && Together(s)
  }

  // A disturbance is seen at once.

  function Disturbance(payload: Bytes): Bytes {
    Body(Message("BCAST", payload))
  }

  /** Between listing and OK the client waits for the result and nothing is under way. */
  lemma ListedIsSilent(s: State, t: Traffic)
    requires InStep(s, t) && s.server.SendOk?
    ensures t.ls == [] && s.client == AtResult(s.server.attempt) && s.server.attempt < MAX_AUTH_ATTEMPTS
  {
  }

  lemma OneLineMore(key: Byte, channel: seq<Arrival>, lines: seq<Bytes>, line: Bytes, more: seq<Bytes>)
    requires Lockstep.Holds(key, channel, lines) && '\n' !in line && more == lines + [line]
    ensures Lockstep.Holds(key, AuthProtocol.Sent(key, channel, line), more)
  {
    Sending(key, channel, lines, line);
  }

  lemma FirstLine(key: Byte, channel: seq<Arrival>, line: Bytes, more: seq<Bytes>)
    requires Lockstep.Holds(key, channel, [line] + more)
    ensures HasLine(key, channel) && ReadLine(key, channel).line == line
    ensures Lockstep.Holds(key, ReadLine(key, channel).rest, more)
  {
    HasLineIff(key, channel, [line] + more);
    Receiving(key, channel, [line] + more);
    assert ([line] + more)[1..] == more;
  }

  lemma IsNoResult(payload: Bytes, round: nat)
    requires payload != [] && '\n' !in payload
    ensures var line := Disturbance(payload);
            '\n' !in line && line != [] && ParsedFrame(line).kind != "OK" && !Suits(AtResult(round), line)
  {
    BcastLine(payload);
  }

  /** The line comes where the client waits for the result, and it is none. */
  lemma DisturbanceIsSeen(s: State, t: Traffic, payload: Bytes)
    requires InStep(s, t) && s.server.SendOk? && Enabled(s, Relayed(payload))
    ensures var s' := Next(s, Relayed(payload));
            Lockstep.Holds(s.key, s'.toClient, [Disturbance(payload)]) && !SlotMatches(s')
  {
    ListedIsSilent(s, t);
    IsNoResult(payload, s.server.attempt);
    OneLineMore(s.key, s.toClient, [], Disturbance(payload), [Disturbance(payload)]);
    assert [Disturbance(payload)] == [Disturbance(payload)] + [];
    FirstLine(s.key, Next(s, Relayed(payload)).toClient, Disturbance(payload), []);
  }

  lemma {:induction false} FirstDisturbance(states: seq<State>, events: seq<Event>, n: nat) returns (k: nat)
    requires n <= |events| && |states| == |events| + 1 && !Undisturbed(states, events, n)
    ensures k < n && Undisturbed(states, events, k) && Disturbs(states[k], events[k])
  {
    if Undisturbed(states, events, n - 1) {
      k := n - 1;
    } else {
      k := FirstDisturbance(states, events, n - 1);
    }
  }

  lemma DisturbedRunIsSeen(states: seq<State>, events: seq<Event>, k: nat)
    requires IsRun(states, events) && k < |events| && Undisturbed(states, events, k) && Disturbs(states[k], events[k])
    ensures !SlotMatches(states[k + 1])
  {
    var t := RunIsInStep(states, events, k);
    DisturbanceIsSeen(states[k], t, events[k].payload);
  }

  /**
   * For every run: the slots match and the two are authenticated together in all of its states
   * exactly when no other handler's line falls between listing and OK.
   */
  lemma AlignedIffUndisturbed(states: seq<State>, events: seq<Event>)
    requires IsRun(states, events)
    ensures (forall k :: 0 <= k <= |events| ==> Aligned(states[k])) <==> Undisturbed(states, events, |events|)
  {
    if Undisturbed(states, events, |events|) {
      forall k | 0 <= k <= |events|
        ensures Aligned(states[k])
      {
        SlotsMatch(states, events, k);
        AuthenticatedTogether(states, events, k);
      }
    } else {
      var k := FirstDisturbance(states, events, |events|);
      DisturbedRunIsSeen(states, events, k);
      assert !Aligned(states[k + 1]);
    }
  }

  // What happens next: the client misses its OK.

  /** The client takes the line for the result of its attempt. */
  lemma ClientTakesItForResult(s: State, line: Bytes, more: seq<Bytes>)
    requires s.client.AtResult? && Lockstep.Holds(s.key, s.toClient, [line] + more) && ParsedFrame(line).kind != "OK"
    ensures Enabled(s, ClientStep([]))
    ensures var s' := Next(s, ClientStep([]));
            && s' == s.(client := AtMenu(s.client.round + 1), toClient := s'.toClient)
            && Lockstep.Holds(s.key, s'.toClient, more)
  {
    FirstLine(s.key, s.toClient, line, more);
  }

  lemma OkFollows(s: State, lines: seq<Bytes>, more: seq<Bytes>)
    requires s.server.SendOk? && Lockstep.Holds(s.key, s.toClient, lines) && PlainName(s.server)
    requires more == lines + [SaidBy(s.server)]
    ensures Enabled(s, ServerStep(true))
    ensures var s' := Next(s, ServerStep(true));
            && s' == s.(server := Chat(s.server.attempt, s.server.name), toClient := s'.toClient)
            && Lockstep.Holds(s.key, s'.toClient, more)
    ensures IsKind(SaidBy(s.server), "OK")
  {
    OutgoingSays(s.server);
    OutgoingIsSent(s, true);
    OneLineMore(s.key, s.toClient, lines, SaidBy(s.server), more);
  }

  /** The line, then the server's OK, reach the client that waits for the result. */
  lemma WelcomeComesSecond(s: State, t: Traffic, payload: Bytes)
    requires InStep(s, t) && s.server.SendOk? && Enabled(s, Relayed(payload))
    ensures var s1 := Next(s, Relayed(payload));
            var s2 := Next(s1, ServerStep(true));
            && Enabled(s1, ServerStep(true)) && s2.key == s.key
            && s2.server.Chat? && s2.client.AtResult? && IsKind(SaidBy(s.server), "OK")
            && Lockstep.Holds(s.key, s2.toClient, [Disturbance(payload)] + [SaidBy(s.server)])
  {
    DisturbanceIsSeen(s, t, payload);
    ListedIsSilent(s, t);
    OkFollows(Next(s, Relayed(payload)), [Disturbance(payload)], [Disturbance(payload)] + [SaidBy(s.server)]);
  }

  lemma OkIsLeftAtTheMenu(s: State, line: Bytes, ok: Bytes)
    requires s.server.Chat? && s.client.AtResult? && Lockstep.Holds(s.key, s.toClient, [line] + [ok])
    requires ParsedFrame(line).kind != "OK" && IsKind(ok, "OK")
    ensures Enabled(s, ClientStep([])) && MissedOk(Next(s, ClientStep([])))
  {
    ClientTakesItForResult(s, line, [ok]);
    assert [ok] == [ok] + [];
    FirstLine(s.key, Next(s, ClientStep([])).toClient, ok, []);
  }

  /**
   * The line, the server's OK, the client's next read: the server is in the chat, the client is
   * back at the menu, and OK is all it will find there.
   */
  lemma ClientMissesOk(s: State, t: Traffic, payload: Bytes)
    requires InStep(s, t) && s.server.SendOk? && Enabled(s, Relayed(payload))
    ensures var s1 := Next(s, Relayed(payload));
            var s2 := Next(s1, ServerStep(true));
            Enabled(s1, ServerStep(true)) && Enabled(s2, ClientStep([])) && MissedOk(Next(s2, ClientStep([])))
  {
    WelcomeComesSecond(s, t, payload);
    IsNoResult(payload, 0);
    OkIsLeftAtTheMenu(Next(Next(s, Relayed(payload)), ServerStep(true)), Disturbance(payload), SaidBy(s.server));
  }

  ghost predicate MissedOk(s: State) {
    && s.server.Chat? && s.client.AtMenu?
    && HasLine(s.key, s.toClient) && IsKind(ReadLine(s.key, s.toClient).line, "OK")
  }

  lemma SaidAsItIs(line: Bytes)
    requires var m := ParsedFrame(line); m.kind != "EXIT" && m.kind != "MSG" && !ChatCommands.IsQuit(m.payload)
    requires !ChatCommands.IsQuit(line) && line != [] && line[0] != '/' && |line| <= ChatCommands.MAX_MSG_LEN
    ensures ChatCommands.LineCommand(line) == ChatCommands.Say(line)
  {
  }

  /** The choice that the user then makes is a chat line to the server. */
  lemma StrayChoiceIsSaid(typed: Bytes)
    requires typed == "1" || typed == "2"
    ensures ChatCommands.LineCommand(Body(Choice(typed))) == ChatCommands.Say(Body(Choice(typed)))
  {
    ParseOfStreamedLine(Choice(typed));
    ChoiceBody(typed);
    SaidAsItIs(Body(Choice(typed)));
  }

  lemma ChoiceBody(typed: Bytes)
    requires |typed| == 1
    ensures var line := Body(Choice(typed)); |line| == 8 && line[0] == 'C'
  {
  }

  // Such a run exists: one user logs in at the first attempt.

  /** The first attempt, and it is a login. */
  predicate FirstLogin(server: Server, client: Client) {
    && !server.SendErr? && !server.Chat? && !server.GaveUp? && server.attempt == 0
    && (!server.SendMenu? && !server.AwaitChoice? ==> !server.signUp)
    && (client.AtNamePrompt? || client.TypingName? ==> !client.signUp)
    && (client.AtPasswordPrompt? || client.TypingPassword? ==> !client.signUp)
  }

  function LoginSample(client: Client): Bytes {
    if client.Picking? then "2" else "x"
  }

  lemma ServerGoesOnWithLogin(s: State, t: Traffic)
    requires InStep(s, t) && FirstLogin(s.server, s.client) && !s.server.SendOk?
    requires ServerReads(s.server) ==> t.lc != []
    ensures Enabled(s, ServerStep(true)) && FirstLogin(ServerNext(s, true).server, s.client)
    ensures ServerNext(s, true).client == s.client
  {
    HasLineIff(s.key, s.toServer, t.lc);
    if ServerReads(s.server) {
      Receiving(s.key, s.toServer, t.lc);
      assert Answers(t.lc[0], t.answers[0]);
      ShapeAfterAnswer(s.server, s.client, t.says, t.answers, t.lc[0]);
      AnswerIsUnderstood(s, true, t.lc[0], t.answers[0]);
    }
  }

  lemma ClientGoesOnWithLogin(s: State, t: Traffic)
    requires InStep(s, t) && FirstLogin(s.server, s.client) && ServerReads(s.server) && t.lc == []
    ensures var e := ClientStep(LoginSample(s.client));
            Enabled(s, e) && FirstLogin(s.server, Next(s, e).client) && Next(s, e).server == s.server
  {
    HasLineIff(s.key, s.toClient, t.ls);
    if ClientReads(s.client) && t.says == [] {
      ShapeHasAMove(s.server, s.client, t.says, t.answers);
    }
  }

  /** A run that leads to a listed client without its OK. */
  lemma LoginRun(key: Byte) returns (states: seq<State>, events: seq<Event>, t: Traffic)
    ensures IsRun(states, events) && Undisturbed(states, events, |events|)
    ensures states[|events|].key == key && states[|events|].server.SendOk? && InStep(states[|events|], t)
  {
    var s := State(key, SendMenu(0), AtMenu(0), [], []);
    states, events, t := [s], [], Traffic([], [], [], []);
    while !s.server.SendOk?
      invariant IsRun(states, events) && Undisturbed(states, events, |events|) && states[|events|] == s && s.key == key
      invariant InStep(s, t) && FirstLogin(s.server, s.client)
      invariant 0 <= ServerLeft(s.server) && 0 <= ClientLeft(s.client)
      decreases ServerLeft(s.server) + ClientLeft(s.client)
    {
      var e, s', t' := LoginStep(s, t);
      states, events := Extended(states, events, e);
      s, t := s', t';
    }
  }

  lemma LoginStep(s: State, t: Traffic) returns (e: Event, s': State, t': Traffic)
    requires InStep(s, t) && FirstLogin(s.server, s.client) && !s.server.SendOk?
    ensures Enabled(s, e) && s' == Next(s, e) && !Disturbs(s, e) && s'.key == s.key
    ensures InStep(s', t') && FirstLogin(s'.server, s'.client)
    ensures 0 <= ServerLeft(s'.server) && 0 <= ClientLeft(s'.client)
    ensures ServerLeft(s'.server) + ClientLeft(s'.client) < ServerLeft(s.server) + ClientLeft(s.client)
  {
    if ServerReads(s.server) && t.lc == [] {
      e := ClientStep(LoginSample(s.client));
      ClientGoesOnWithLogin(s, t);
      t' := ClientKeepsStep(s, t, LoginSample(s.client));
    } else {
      e := ServerStep(true);
      ServerGoesOnWithLogin(s, t);
      t' := ServerKeepsStep(s, t, true);
    }
    s' := Next(s, e);
    StepTakesOne(s, e, t);
    ShapeIsBounded(s'.server, s'.client, t'.says, t'.answers);
  }

  lemma Extended(states: seq<State>, events: seq<Event>, e: Event) returns (states': seq<State>, events': seq<Event>)
    requires IsRun(states, events) && Enabled(states[|events|], e)
    ensures events' == events + [e] && states' == states + [Next(states[|events|], e)]
    ensures IsRun(states', events')
    ensures Undisturbed(states, events, |events|) && !Disturbs(states[|events|], e) ==>
              Undisturbed(states', events', |events'|)
  {
    states', events' := states + [Next(states[|events|], e)], events + [e];
  }

  /** One line of another user at the wrong moment, and the two programs part. */
  lemma FailingRun(key: Byte, payload: Bytes) returns (states: seq<State>, events: seq<Event>)
    requires payload != [] && '\n' !in payload
    ensures IsRun(states, events) && !Undisturbed(states, events, |events|) && MissedOk(states[|events|])
  {
    var t: Traffic;
    states, events, t := LoginRun(key);
    var n := |events|;
    ClientMissesOk(states[n], t, payload);
    states, events := Extended(states, events, Relayed(payload));
    assert Disturbs(states[n], events[n]);
    states, events := Extended(states, events, ServerStep(true));
    states, events := Extended(states, events, ClientStep([]));
    assert Disturbs(states[n], events[n]);
  }

  // What no disturbance breaks.

  /** Nothing that the client may read is an OK. */
  ghost predicate NoOkYet(s: State, lines: seq<Bytes>) {
    && Lockstep.Holds(s.key, s.toClient, lines) && !s.client.Authenticated?
    && forall i :: 0 <= i < |lines| ==> ParsedFrame(lines[i]).kind != "OK"
  }

  lemma PromptIsNoOk(line: Bytes)
    requires line != [] && line[0] == 'E'
    ensures ParsedFrame(line).kind != "OK"
  {
    ParsedBodyIsPrefix(line);
  }

  predicate IsNoOk(line: Bytes) {
    '\n' !in line && ParsedFrame(line).kind != "OK"
  }

  lemma OtherKindIsNoOk(line: Bytes, kind: Bytes)
    requires '\n' !in line && IsKind(line, kind) && kind != "OK"
    ensures IsNoOk(line)
  {
  }

  lemma MenuIsNoOk()
    ensures IsNoOk(Body(MENU))
  {
    MenuLine();
  }

  lemma ErrIsNoOk(why: Refusal)
    ensures IsNoOk(Body(Err(Detail(why))))
  {
    ErrLine(why);
    OtherKindIsNoOk(Body(Err(Detail(why))), "ERR");
  }

  lemma PromptsAreNoOk()
    ensures IsNoOk(NAME_PROMPT) && IsNoOk(PASSWORD_PROMPT)
  {
    PromptsArePlain();
    PromptIsNoOk(NAME_PROMPT);
    PromptIsNoOk(PASSWORD_PROMPT);
  }

  lemma OnlyOkIsOk(server: Server)
    requires ServerSendsNow(server) && !server.SendOk?
    ensures IsNoOk(SaidBy(server))
  {
    match server
    case SendMenu(_) => MenuIsNoOk(); ErrIsNoOk(TooManyAttempts);
    case SendErr(_, why) => ErrIsNoOk(why);
    case AskName(_, _) => PromptsAreNoOk();
    case AskPassword(_, _, _) => PromptsAreNoOk();
  }

  lemma ServerSendsNoOk(s: State, lines: seq<Bytes>, accepted: bool) returns (lines': seq<Bytes>)
    requires NoOkYet(s, lines) && Enabled(s, ServerStep(accepted)) && !s.server.SendOk?
    ensures NoOkYet(ServerNext(s, accepted), lines')
  {
    lines' := lines;
    if ServerSendsNow(s.server) {
      OnlyOkIsOk(s.server);
      OutgoingIsSent(s, accepted);
      lines' := lines + [SaidBy(s.server)];
      OneLineMore(s.key, s.toClient, lines, SaidBy(s.server), lines');
    }
  }

  lemma ClientReadsNoOk(s: State, lines: seq<Bytes>, typed: Bytes) returns (lines': seq<Bytes>)
    requires NoOkYet(s, lines) && Enabled(s, ClientStep(typed))
    ensures NoOkYet(ClientNext(s, typed), lines')
  {
    lines' := lines;
    if ClientReads(s.client) {
      if lines == [] {
        ReceivingNothing(s.key, s.toClient);
        EmptyLineHasNoKind();
      } else {
        Receiving(s.key, s.toClient, lines);
        lines' := lines[1..];
      }
    }
  }

  lemma RelayIsNoOk(s: State, lines: seq<Bytes>, payload: Bytes) returns (lines': seq<Bytes>)
    requires NoOkYet(s, lines) && Enabled(s, Relayed(payload))
    ensures NoOkYet(Next(s, Relayed(payload)), lines')
  {
    IsNoResult(payload, 0);
    lines' := lines + [Disturbance(payload)];
    OneLineMore(s.key, s.toClient, lines, Disturbance(payload), lines');
  }

  lemma NoOkBeforeChat(s: State, lines: seq<Bytes>, e: Event) returns (lines': seq<Bytes>)
    requires NoOkYet(s, lines) && !s.server.Chat? && Enabled(s, e) && !Next(s, e).server.Chat?
    ensures NoOkYet(Next(s, e), lines')
  {
    match e
    case ServerStep(accepted) => lines' := ServerSendsNoOk(s, lines, accepted);
    case ClientStep(typed) => lines' := ClientReadsNoOk(s, lines, typed);
    case Relayed(payload) => lines' := RelayIsNoOk(s, lines, payload);
  }

  lemma ChatIsForGood(s: State, e: Event)
    requires s.server.Chat? && Enabled(s, e)
    ensures Next(s, e).server.Chat?
  {
  }

  lemma {:induction false} RunHasNoOk(states: seq<State>, events: seq<Event>, k: nat) returns (lines: seq<Bytes>)
    requires IsRun(states, events) && k <= |events|
    ensures states[k].server.Chat? || NoOkYet(states[k], lines)
  {
    lines := [];
    if k > 0 {
      var before := RunHasNoOk(states, events, k - 1);
      if states[k - 1].server.Chat? {
        ChatIsForGood(states[k - 1], events[k - 1]);
      } else if !states[k].server.Chat? {
        lines := NoOkBeforeChat(states[k - 1], before, events[k - 1]);
      }
    }
  }

  /** In every run, disturbed or not, the client takes itself for authenticated only if the server does. */
  lemma ClientIsNeverAhead(states: seq<State>, events: seq<Event>, k: nat)
    requires IsRun(states, events) && k <= |events|
    ensures states[k].client.Authenticated? ==> states[k].server.Chat?
  {
    var lines := RunHasNoOk(states, events, k);
  }
}
