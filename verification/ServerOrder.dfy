// Progress and order: every step of a handler gets it on, whoever is let in gets into the chat,
// and what one user says arrives everywhere in the order in which it was said.

module ServerOrder {
  import opened ByteStrings
  import opened ChatCommands
  import opened ServerHearing
  import opened ServerInvariant
  import opened ServerSpeech
  import opened ServerSteps
  import opened ServerSystem
  import opened ServerTheorems

  // Progress.

  /** How far a handler is from waiting in recv_line, or from the end. */
  function Distance(pc: Pc): int {
    match pc
    case Menu(k) => 100 - 10 * k
    case Choosing(k) => 99 - 10 * k
    case SigningUp(k, _, _) => 98 - 10 * k
    case SigningIn(k, _, _) => 98 - 10 * k
    case Naming(_) => 60
    case Adding => 59
    case Entering => 58
    case Leaving(_) => 23
    case Speaking(_) => 23
    case Paging(_, _) => 23
    case Joining => 22
    case Relaying(_, _) => 22
    case Chatting => 20
    case _ => CleanupLeft(pc)
  }

  function Unserved(pc: Pc): nat {
    if pc.Relaying? then |pc.rest| else 0
  }

  predicate Closer(pc: Pc, pc': Pc) {
    0 <= Distance(pc') < Distance(pc) || (Distance(pc') == Distance(pc) && Unserved(pc') < Unserved(pc))
  }

  predicate GetsOn(s: State, s': State, i: Sid) {
    i < |s.threads| && i < |s'.threads| && Closer(s.threads[i].pc, s'.threads[i].pc)
  }

  lemma MenuGetsOn(s: State, i: Sid, step: HandlerStep)
    requires i < |s.threads| && OwnOk(s, i, s.threads[i]) && HandlerEnabled(s, s.threads[i], step) && IsMenu(step)
    ensures GetsOn(s, HandlerNext(s, i, s.threads[i], step), i)
  {
  }

  lemma EntryGetsOn(s: State, i: Sid, step: HandlerStep)
    requires i < |s.threads| && OwnOk(s, i, s.threads[i]) && HandlerEnabled(s, s.threads[i], step)
    requires step.SetName? || step.AddClient? || step.Enter?
    ensures GetsOn(s, HandlerNext(s, i, s.threads[i], step), i)
  {
  }

  lemma RegisterGetsOn(s: State, i: Sid, step: HandlerStep)
    requires i < |s.threads| && OwnOk(s, i, s.threads[i]) && HandlerEnabled(s, s.threads[i], step) && step.CallRegister?
    ensures GetsOn(s, HandlerNext(s, i, s.threads[i], step), i)
  {
  }

  lemma MoveGetsOn(s: State, i: Sid, step: HandlerStep)
    requires i < |s.threads| && HandlerEnabled(s, s.threads[i], step)
    requires step.LeaveCurrent? || step.JoinCurrent? || step.EndRelay?
    ensures GetsOn(s, HandlerNext(s, i, s.threads[i], step), i)
  {
  }

  lemma SpeakRelaysNewest(s: State, i: Sid)
    requires i < |s.threads| && HandlerEnabled(s, s.threads[i], Speak)
    ensures RelaysNewest(s, HandlerNext(s, i, s.threads[i], Speak), i)
  {
  }

  lemma PageRelaysNewest(s: State, i: Sid)
    requires i < |s.threads| && HandlerEnabled(s, s.threads[i], Page)
    ensures RelaysNewest(s, HandlerNext(s, i, s.threads[i], Page), i)
  {
  }

  /** Handler i relays the line that has just been added, or has nothing to relay. */
  predicate RelaysNewest(s: State, s': State, i: Sid) {
    && i < |s'.threads|
    && (s'.threads[i].pc.Chatting?
        || (s'.threads[i].pc.Relaying? && |s'.lines| == |s.lines| + 1 && s'.threads[i].pc.line == |s.lines|))
  }

  lemma SpeechGetsOn(s: State, s': State, i: Sid)
    requires i < |s.threads| && (s.threads[i].pc.Speaking? || s.threads[i].pc.Paging?) && RelaysNewest(s, s', i)
    ensures GetsOn(s, s', i)
  {
  }

  lemma DeliveryGetsOn(s: State, i: Sid, step: HandlerStep)
    requires i < |s.threads| && HandlerEnabled(s, s.threads[i], step) && step.Deliver?
    ensures GetsOn(s, HandlerNext(s, i, s.threads[i], step), i)
  {
    var t := s.threads[i];
    var rest := t.pc.rest - {step.to};
    assert t.pc.rest == rest + {step.to} && step.to !in rest;
    assert HandlerNext(s, i, t, step).threads[i].pc == Relaying(t.pc.line, rest);
  }

  lemma CleanupGetsOn(s: State, i: Sid, step: HandlerStep)
    requires i < |s.threads| && InCleanup(s.threads[i].pc) && HandlerEnabled(s, s.threads[i], step)
    requires !step.SendFails?
    ensures GetsOn(s, HandlerNext(s, i, s.threads[i], step), i)
  {
    OwnStepCleansUp(s, i, step);
  }

  /** Between two lines that it hears a handler takes finitely many steps, each nearer to recv_line or to the end. */
  lemma EveryStepGetsOn(s: State, i: Sid, step: HandlerStep)
    requires Reachable(s) && i < |s.threads| && HandlerEnabled(s, s.threads[i], step)
    requires !step.Hear? && !step.SendFails?
    ensures GetsOn(s, HandlerNext(s, i, s.threads[i], step), i)
  {
    ReachableInv(s);
    InvOwn(s, i);
    if IsMenu(step) {
      MenuGetsOn(s, i, step);
    } else if step.CallRegister? {
      RegisterGetsOn(s, i, step);
    } else if IsEarly(step) {
      EntryGetsOn(s, i, step);
    } else if step.Deliver? {
      DeliveryGetsOn(s, i, step);
    } else if step.Speak? {
      SpeakRelaysNewest(s, i);
      SpeechGetsOn(s, HandlerNext(s, i, s.threads[i], step), i);
    } else if step.Page? {
      PageRelaysNewest(s, i);
      SpeechGetsOn(s, HandlerNext(s, i, s.threads[i], step), i);
    } else if IsChat(step) {
      MoveGetsOn(s, i, step);
    } else {
      CleanupGetsOn(s, i, step);
    }
  }

  /** How far the main thread is from the end of shutdown. */
  function ShutdownLeft(s: State): nat {
    match s.main
    case Accepting => 0
    case Sweeping(_, _) => SweepLeft(s.main) + |s.tids| + 2
    case Swept => |s.tids| + 2
    case JoiningAll(todo) => |todo| + 1
    case Stopped => 0
  }

  lemma SweepStepGetsOn(s: State, act: MainStep)
    requires s.main.Sweeping? && MainEnabled(s, act) && (s.main.todo != [] ==> s.main.todo[0] < |s.threads|)
    ensures ShutdownLeft(MainNext(s, act)) < ShutdownLeft(s)
  {
    SweepGoesOn(s, act);
  }

  lemma JoinStepGetsOn(s: State, act: MainStep)
    requires (s.main.Swept? || s.main.JoiningAll?) && MainEnabled(s, act)
    ensures ShutdownLeft(MainNext(s, act)) < ShutdownLeft(s)
  {
  }

  /** The next step of the main thread once shutdown has begun. */
  function NextOfMain(m: Main): MainStep {
    match m
    case Sweeping(todo, stage) =>
      if todo == [] then SweepEnd
      else if stage == Swap then SweepSwap
      else if stage == Close then SweepClose
      else SweepMark
    case Swept => StartJoin
    case JoiningAll(todo) => if todo == [] then EndJoin else JoinOne
    case _ => StartShutdown
  }

  /** Each step of shutdown brings it nearer to its end. */
  lemma ShutdownGetsOn(s: State, act: MainStep)
    requires Reachable(s) && !s.main.Accepting? && MainEnabled(s, act)
    ensures ShutdownLeft(MainNext(s, act)) < ShutdownLeft(s)
  {
    ReachableInv(s);
    if s.main.Sweeping? {
      if s.main.todo != [] {
        SweptIsConnected(s, s.main.todo[0]);
      }
      SweepStepGetsOn(s, act);
    } else {
      JoinStepGetsOn(s, act);
    }
  }

  /** Shutdown waits for nothing but the thread that it joins. */
  lemma ShutdownOnlyWaitsForJoins(s: State)
    requires Reachable(s) && !s.main.Accepting? && !s.main.Stopped?
    ensures || MainEnabled(s, NextOfMain(s.main))
            || (s.main.JoiningAll? && s.main.todo != [] && s.main.todo[0] < |s.threads|
                && !s.threads[s.main.todo[0]].pc.Done?)
  {
    ReachableInv(s);
    if s.main.JoiningAll? && s.main.todo != [] {
      JoinedNextIsThere(s);
    }
  }

  lemma JoinedNextIsThere(s: State)
    requires MainOk(s) && s.main.JoiningAll? && s.main.todo != []
    ensures s.main.todo[0] < |s.threads|
  {
    IotaElements(|s.threads|);
    assert (s.joined + s.main.todo + s.tids)[|s.joined|] == s.main.todo[0];
  }

  // Whoever is let in gets into the chat.

  /** Let in under this name: about to take it, or with it and on the way into the chat, in it or through with it. */
  predicate IsLetIn(s: State, i: Sid, name: Bytes) {
    && i < |s.threads|
    && var t := s.threads[i];
       t.pc == Naming(name) || (i in s.names && s.names[i] == name && (t.pc.Adding? || t.adds == 1))
  }

  lemma OtherStepKeepsLetIn(s: State, e: Event, i: Sid, name: Bytes)
    requires Enabled(s, e) && IsLetIn(s, i, name) && !(e.OfHandler? && e.i == i)
    ensures IsLetIn(Next(s, e), i, name)
  {
    StepKeepsNames(s, e);
    if e.OfHandler? {
      OtherStepKeepsPosition(s, i, e.i, e.step);
    } else {
      MainStepKeepsPosition(s, i, e.act);
    }
  }

  lemma EntryKeepsLetIn(s: State, i: Sid, step: HandlerStep, name: Bytes)
    requires i < |s.threads| && OwnOk(s, i, s.threads[i]) && HandlerEnabled(s, s.threads[i], step)
    requires IsLetIn(s, i, name) && s.threads[i].adds == 0
    ensures IsLetIn(HandlerNext(s, i, s.threads[i], step), i, name)
  {
    assert step.SetName? || step.AddClient? || step.SendFails?;
  }

  predicate IsAdded(s: State, i: Sid) {
    i < |s.threads| && s.threads[i].adds == 1
  }

  lemma EnterKeepsAdds(s: State, i: Sid)
    requires IsAdded(s, i) && HandlerEnabled(s, s.threads[i], Enter)
    ensures IsAdded(HandlerNext(s, i, s.threads[i], Enter), i)
  {
  }

  lemma ObeyingKeepsAdds(t: Thread, command: Command)
    ensures Obeyed(t, command).adds == t.adds
  {
  }

  lemma HearKeepsAdds(s: State, i: Sid, line: Bytes)
    requires IsAdded(s, i) && s.threads[i].pc.Chatting?
    ensures IsAdded(At(s, i, Heard(s.threads[i], line)), i)
  {
    if line != [] {
      ObeyingKeepsAdds(s.threads[i], LineCommand(line));
    }
    var t := Heard(s.threads[i], line);
    assert t.adds == 1;
  }

  lemma ChatStepKeepsAdds(s: State, i: Sid, step: HandlerStep)
    requires IsAdded(s, i) && HandlerEnabled(s, s.threads[i], step) && IsChat(step) && !step.Speak? && !step.Page?
    ensures IsAdded(HandlerNext(s, i, s.threads[i], step), i)
  {
  }

  lemma SpeakKeepsAdds(s: State, i: Sid)
    requires IsAdded(s, i) && HandlerEnabled(s, s.threads[i], Speak)
    ensures IsAdded(HandlerNext(s, i, s.threads[i], Speak), i)
  {
  }

  lemma PageKeepsAdds(s: State, i: Sid)
    requires IsAdded(s, i) && HandlerEnabled(s, s.threads[i], Page)
    ensures IsAdded(HandlerNext(s, i, s.threads[i], Page), i)
  {
  }

  lemma LateStepKeepsAdds(s: State, i: Sid, step: HandlerStep)
    requires IsAdded(s, i) && HandlerEnabled(s, s.threads[i], step) && !IsEarly(step) && !IsChat(step)
    ensures IsAdded(HandlerNext(s, i, s.threads[i], step), i)
  {
  }

  lemma OwnStepKeepsAdds(s: State, i: Sid, step: HandlerStep)
    requires IsAdded(s, i) && OwnOk(s, i, s.threads[i]) && HandlerEnabled(s, s.threads[i], step)
    ensures IsAdded(HandlerNext(s, i, s.threads[i], step), i)
  {
    if IsEarly(step) {
      if step.Hear? {
        HearKeepsAdds(s, i, step.line);
      } else {
        EnterKeepsAdds(s, i);
      }
    } else if step.Speak? {
      SpeakKeepsAdds(s, i);
    } else if step.Page? {
      PageKeepsAdds(s, i);
    } else if IsChat(step) {
      ChatStepKeepsAdds(s, i, step);
    } else {
      LateStepKeepsAdds(s, i, step);
    }
  }

  lemma StepKeepsLetIn(s: State, e: Event, i: Sid, name: Bytes)
    requires Inv(s) && Enabled(s, e) && IsLetIn(s, i, name)
    ensures IsLetIn(Next(s, e), i, name)
  {
    InvOwn(s, i);
    if !(e.OfHandler? && e.i == i) {
      OtherStepKeepsLetIn(s, e, i, name);
    } else if s.threads[i].adds == 0 {
      EntryKeepsLetIn(s, i, e.step, name);
    } else {
      StepKeepsNames(s, e);
      OwnStepKeepsAdds(s, i, e.step);
    }
  }

  ghost predicate StaysLetIn(s: State, s': State, i: Sid, name: Bytes) {
    IsLetIn(s, i, name) ==> IsLetIn(s', i, name)
  }

  lemma {:induction false} LetInAlong(states: seq<State>, i: Sid, j: nat, k: nat, name: Bytes)
    requires j <= k < |states|
    requires forall m :: 0 <= m < |states| - 1 ==> StaysLetIn(states[m], states[m + 1], i, name)
    ensures StaysLetIn(states[j], states[k], i, name)
  {
    if j < k {
      LetInAlong(states, i, j, k - 1, name);
      assert StaysLetIn(states[k - 1], states[k - 1 + 1], i, name);
    }
  }

  /**
   * Over every run: whoever the registry lets in keeps the name and is then on its way into the
   * chat or has been added; it never cleans up without.
   */
  lemma WhoIsLetInGetsIn(states: seq<State>, events: seq<Event>, i: Sid, j: nat, k: nat, name: Bytes)
    requires IsRun(states, events) && j <= k <= |events|
    requires i < |states[j].threads| && states[j].threads[i].pc == Naming(name)
    ensures IsLetIn(states[k], i, name)
    ensures InCleanup(states[k].threads[i].pc) ==> states[k].threads[i].adds == 1 && states[k].names[i] == name
  {
    forall m | 0 <= m < |events|
      ensures StaysLetIn(states[m], states[m + 1], i, name)
    {
      if IsLetIn(states[m], i, name) {
        RunKeepsInv(states, events, m);
        StepKeepsLetIn(states[m], events[m], i, name);
      }
    }
    LetInAlong(states, i, j, k, name);
  }

  // Order.

  /** x has taken nothing more. */
  predicate SameInbox(s: State, s': State, x: Sid) {
    x < |s.threads| ==> x < |s'.threads| && s'.threads[x].inbox == s.threads[x].inbox
  }

  lemma MainKeepsInbox(s: State, act: MainStep, x: Sid)
    requires MainEnabled(s, act)
    ensures SameInbox(s, MainNext(s, act), x)
  {
  }

  lemma MenuStepKeepsInbox(s: State, i: Sid, step: HandlerStep, x: Sid)
    requires i < |s.threads| && HandlerEnabled(s, s.threads[i], step) && (IsMenu(step) || step.CallRegister?)
    ensures SameInbox(s, HandlerNext(s, i, s.threads[i], step), x)
  {
  }

  lemma EntryStepKeepsInbox(s: State, i: Sid, step: HandlerStep, x: Sid)
    requires i < |s.threads| && HandlerEnabled(s, s.threads[i], step)
    requires step.SetName? || step.AddClient? || step.Enter?
    ensures SameInbox(s, HandlerNext(s, i, s.threads[i], step), x)
  {
  }

  /** Obeying a command neither relays nor takes anything. */
  lemma ObeyedIsOwn(t: Thread, command: Command)
    requires t.pc.Chatting?
    ensures var t' := Obeyed(t, command); !t'.pc.Relaying? && t'.inbox == t.inbox && t'.adds == t.adds
  {
  }

  lemma HearKeepsInbox(s: State, i: Sid, line: Bytes, x: Sid)
    requires i < |s.threads| && s.threads[i].pc.Chatting?
    ensures SameInbox(s, At(s, i, Heard(s.threads[i], line)), x)
  {
    if line != [] {
      ObeyedIsOwn(s.threads[i], LineCommand(line));
    }
  }

  lemma ChatStepKeepsInbox(s: State, i: Sid, step: HandlerStep, x: Sid)
    requires i < |s.threads| && HandlerEnabled(s, s.threads[i], step)
    requires step.LeaveCurrent? || step.JoinCurrent? || step.EndRelay?
    ensures SameInbox(s, HandlerNext(s, i, s.threads[i], step), x)
  {
  }

  lemma SpeakKeepsInbox(s: State, i: Sid, x: Sid)
    requires i < |s.threads| && HandlerEnabled(s, s.threads[i], Speak)
    ensures SameInbox(s, HandlerNext(s, i, s.threads[i], Speak), x)
  {
  }

  lemma PageKeepsInbox(s: State, i: Sid, x: Sid)
    requires i < |s.threads| && HandlerEnabled(s, s.threads[i], Page)
    ensures SameInbox(s, HandlerNext(s, i, s.threads[i], Page), x)
  {
  }

  lemma LateStepKeepsInbox(s: State, i: Sid, step: HandlerStep, x: Sid)
    requires i < |s.threads| && HandlerEnabled(s, s.threads[i], step) && !IsEarly(step) && !IsChat(step)
    ensures SameInbox(s, HandlerNext(s, i, s.threads[i], step), x)
  {
  }

  /** Only a delivery fills an inbox. */
  lemma StepKeepsInbox(s: State, e: Event, x: Sid)
    requires Enabled(s, e) && !(e.OfHandler? && e.step.Deliver?)
    ensures SameInbox(s, Next(s, e), x)
  {
    match e
    case OfMain(act) => MainKeepsInbox(s, act, x);
    case OfHandler(i, step) =>
      if step.Hear? {
        HearKeepsInbox(s, i, step.line, x);
      } else if IsMenu(step) || step.CallRegister? {
        MenuStepKeepsInbox(s, i, step, x);
      } else if IsEarly(step) {
        EntryStepKeepsInbox(s, i, step, x);
      } else if step.Speak? {
        SpeakKeepsInbox(s, i, x);
      } else if step.Page? {
        PageKeepsInbox(s, i, x);
      } else if IsChat(step) {
        ChatStepKeepsInbox(s, i, step, x);
      } else {
        LateStepKeepsInbox(s, i, step, x);
      }
  }

  /** Lines of one speaker are in the inbox in the order in which they were said. */
  predicate InOrder(lines: seq<Line>, inbox: seq<nat>) {
    forall p, q ::
      && 0 <= p < q < |inbox| && inbox[p] < |lines| && inbox[q] < |lines|
      && lines[inbox[p]].speaker == lines[inbox[q]].speaker
      ==> inbox[p] < inbox[q]
  }

  /** A relayed line is the last one of its speaker. */
  predicate RelaysLast(s: State, i: Sid) {
    i < |s.threads| && s.threads[i].pc.Relaying? ==>
      forall l :: 0 <= l < |s.lines| && s.lines[l].speaker == i ==> l <= s.threads[i].pc.line
  }

  lemma DeliveryIsInOrder(lines: seq<Line>, lines': seq<Line>, inbox: seq<nat>, l: nat)
    requires InOrder(lines, inbox) && |lines'| == |lines|
    requires forall m :: 0 <= m < |lines| ==> lines'[m].speaker == lines[m].speaker
    requires forall p :: 0 <= p < |inbox| ==> inbox[p] < |lines| && inbox[p] != l
    requires l < |lines| && forall m :: 0 <= m < |lines| && lines[m].speaker == lines[l].speaker ==> m <= l
    ensures InOrder(lines', inbox + [l])
  {
  }

  lemma SameInboxIsInOrder(lines: seq<Line>, lines': seq<Line>, inbox: seq<nat>)
    requires InOrder(lines, inbox) && |lines'| >= |lines|
    requires forall m :: 0 <= m < |lines| ==> lines'[m].speaker == lines[m].speaker
    requires forall p :: 0 <= p < |inbox| ==> inbox[p] < |lines|
    ensures InOrder(lines', inbox)
  {
  }

  lemma InboxesHoldLines(s: State, x: Sid)
    requires Inv(s) && x < |s.threads|
    ensures forall p :: 0 <= p < |s.threads[x].inbox| ==> WasSent(s, s.threads[x].inbox[p], x)
  {
    assert InboxOk(s, x);
    forall p | 0 <= p < |s.threads[x].inbox|
      ensures WasSent(s, s.threads[x].inbox[p], x)
    {
      assert s.threads[x].inbox[p] in s.threads[x].inbox;
    }
  }

  // Handler i while it relays.

  lemma OwnStepRelaysLast(s: State, i: Sid, step: HandlerStep)
    requires Inv(s) && i < |s.threads| && HandlerEnabled(s, s.threads[i], step) && RelaysLast(s, i)
    ensures RelaysLast(HandlerNext(s, i, s.threads[i], step), i)
  {
    var s' := HandlerNext(s, i, s.threads[i], step);
    HandlerSpeech(s, i, step);
    RelayAfter(s, i, step);
    if s'.threads[i].pc.Relaying? {
      forall l | 0 <= l < |s'.lines| && s'.lines[l].speaker == i
        ensures l <= s'.threads[i].pc.line
      {
        if l < |s.lines| {
          assert SameLine(s.lines[l], s'.lines[l]);
        }
      }
    }
  }

  /** After a step of its own a handler relays the newest line, or the line that it relayed before. */
  lemma RelayAfter(s: State, i: Sid, step: HandlerStep)
    requires i < |s.threads| && HandlerEnabled(s, s.threads[i], step)
    ensures var s' := HandlerNext(s, i, s.threads[i], step);
            && i < |s'.threads|
            && (s'.threads[i].pc.Relaying? ==>
                  || (|s'.lines| == |s.lines| + 1 && s'.threads[i].pc.line == |s.lines|)
                  || (|s'.lines| == |s.lines| && s.threads[i].pc.Relaying?
                      && s'.threads[i].pc.line == s.threads[i].pc.line))
  {
    if step.Speak? {
      SpeakRelaysNewest(s, i);
    } else if step.Page? {
      PageRelaysNewest(s, i);
    } else if step.Deliver? {
      DeliveryRelaysOn(s, i, step);
    } else {
      HandlerFrame(s, i, s.threads[i], step);
      OthersDoNotRelay(s, i, step);
    }
  }

  lemma DeliveryRelaysOn(s: State, i: Sid, step: HandlerStep)
    requires i < |s.threads| && HandlerEnabled(s, s.threads[i], step) && step.Deliver?
    ensures var s' := HandlerNext(s, i, s.threads[i], step);
            && i < |s'.threads| && |s'.lines| == |s.lines| && s'.threads[i].pc.Relaying?
            && s'.threads[i].pc.line == s.threads[i].pc.line
  {
  }

  lemma OthersDoNotRelay(s: State, i: Sid, step: HandlerStep)
    requires i < |s.threads| && HandlerEnabled(s, s.threads[i], step)
    requires !step.Speak? && !step.Page? && !step.Deliver?
    ensures i < |HandlerNext(s, i, s.threads[i], step).threads|
    ensures HandlerNext(s, i, s.threads[i], step).threads[i].pc.Relaying? ==>
              HandlerNext(s, i, s.threads[i], step).threads[i].pc == s.threads[i].pc
  {
    if step.SendFails? {
      assert HandlerNext(s, i, s.threads[i], step) == At(s, i, s.threads[i].(active := false));
    } else if InCleanup(s.threads[i].pc) {
      OwnStepCleansUp(s, i, step);
    } else if IsMenu(step) {
      MenuDoesNotRelay(s, i, step);
    } else if IsEarly(step) && !step.Hear? {
      EntryDoesNotRelay(s, i, step);
    } else if step.Hear? {
      HeardDoesNotRelay(s.threads[i], step.line);
    } else {
      MoveDoesNotRelay(s, i, step);
    }
  }

  lemma MenuDoesNotRelay(s: State, i: Sid, step: HandlerStep)
    requires i < |s.threads| && HandlerEnabled(s, s.threads[i], step) && IsMenu(step)
    ensures i < |HandlerNext(s, i, s.threads[i], step).threads|
    ensures !HandlerNext(s, i, s.threads[i], step).threads[i].pc.Relaying?
  {
  }

  lemma EntryDoesNotRelay(s: State, i: Sid, step: HandlerStep)
    requires i < |s.threads| && HandlerEnabled(s, s.threads[i], step)
    requires step.CallRegister? || step.SetName? || step.AddClient? || step.Enter?
    ensures i < |HandlerNext(s, i, s.threads[i], step).threads|
    ensures !HandlerNext(s, i, s.threads[i], step).threads[i].pc.Relaying?
  {
  }

  lemma MoveDoesNotRelay(s: State, i: Sid, step: HandlerStep)
    requires i < |s.threads| && HandlerEnabled(s, s.threads[i], step)
    requires step.LeaveCurrent? || step.JoinCurrent? || step.EndRelay?
    ensures i < |HandlerNext(s, i, s.threads[i], step).threads|
    ensures !HandlerNext(s, i, s.threads[i], step).threads[i].pc.Relaying?
  {
  }

  lemma HeardDoesNotRelay(t: Thread, line: Bytes)
    requires t.pc.Chatting?
    ensures !Heard(t, line).pc.Relaying?
  {
    if line != [] {
      ObeyedIsOwn(t, LineCommand(line));
    }
  }

  lemma OtherStepRelaysLast(s: State, e: Event, i: Sid)
    requires Inv(s) && Enabled(s, e) && i < |s.threads| && RelaysLast(s, i) && !(e.OfHandler? && e.i == i)
    ensures RelaysLast(Next(s, e), i)
  {
    var s' := Next(s, e);
    StepSpeech(s, e);
    if e.OfHandler? {
      OtherStepKeepsPosition(s, i, e.i, e.step);
    } else {
      MainStepKeepsPosition(s, i, e.act);
    }
    OthersSayNothingOfHis(s, e, s', i);
  }

  lemma OthersSayNothingOfHis(s: State, e: Event, s': State, i: Sid)
    requires SpeechStep(s, e, s') && KeepsPosition(s, s', i) && i < |s.threads| && RelaysLast(s, i)
    requires e.OfHandler? ==> e.i != i
    ensures RelaysLast(s', i)
  {
    forall l | 0 <= l < |s'.lines| && s'.lines[l].speaker == i
      ensures l < |s.lines| && s.lines[l].speaker == i
    {
      if l < |s.lines| {
        assert SameLine(s.lines[l], s'.lines[l]);
      }
    }
  }

  lemma RunRelaysLast(states: seq<State>, events: seq<Event>, k: nat, i: Sid)
    requires IsRun(states, events) && k < |events| && RelaysLast(states[k], i)
    ensures RelaysLast(states[k + 1], i)
  {
    RunKeepsInv(states, events, k);
    if i >= |states[k].threads| {
      NewThreads(states[k], events[k], i);
      RunKeepsInv(states, events, k + 1);
      NewThreadRelaysNothing(states[k + 1], i);
    } else if events[k].OfHandler? && events[k].i == i {
      OwnStepRelaysLast(states[k], i, events[k].step);
    } else {
      OtherStepRelaysLast(states[k], events[k], i);
    }
  }

  lemma NewThreadRelaysNothing(s: State, i: Sid)
    requires Inv(s) && (i < |s.threads| ==> s.threads[i].adds == 0)
    ensures RelaysLast(s, i)
  {
    if i < |s.threads| {
      InvOwn(s, i);
    }
  }

  lemma {:induction false} RelaysLastAlong(states: seq<State>, events: seq<Event>, k: nat, i: Sid)
    requires IsRun(states, events) && k <= |events|
    ensures RelaysLast(states[k], i)
  {
    if k > 0 {
      RelaysLastAlong(states, events, k - 1, i);
      RunRelaysLast(states, events, k - 1, i);
    }
  }

  /** One step: the inbox stays, or a line of a speaker comes after all earlier ones of the same speaker. */
  ghost predicate OrderStep(s: State, s': State, x: Sid) {
    && |s'.lines| >= |s.lines|
    && (forall m :: 0 <= m < |s.lines| ==> s'.lines[m].speaker == s.lines[m].speaker)
    && x < |s.threads| && x < |s'.threads|
    && (s'.threads[x].inbox == s.threads[x].inbox
        || exists l: nat ::
             && l < |s.lines| == |s'.lines| && s'.threads[x].inbox == s.threads[x].inbox + [l]
             && forall m :: 0 <= m < |s.lines| && s.lines[m].speaker == s.lines[l].speaker ==> m <= l)
  }

  lemma DeliveryIsOrderStep(s: State, i: Sid, to: Sid, sent: bool, x: Sid)
    requires Inv(s) && RelaysLast(s, i) && x < |s.threads|
    requires i < |s.threads| && HandlerEnabled(s, s.threads[i], Deliver(to, sent))
    ensures OrderStep(s, HandlerNext(s, i, s.threads[i], Deliver(to, sent)), x)
  {
    var s', l := HandlerNext(s, i, s.threads[i], Deliver(to, sent)), s.threads[i].pc.line;
    DeliveryEffect(s, i, to, sent);
    DeliveryKeepsLines(s, i, Deliver(to, sent));
    DeliveryRelaysOn(s, i, Deliver(to, sent));
    forall m | 0 <= m < |s.lines|
      ensures s'.lines[m].speaker == s.lines[m].speaker
    {
      assert SameLine(s.lines[m], s'.lines[m]);
    }
    assert s.lines[l].speaker == i;
    assert s.threads[x].inbox + [] == s.threads[x].inbox;
    if s'.threads[x].inbox != s.threads[x].inbox {
      assert s'.threads[x].inbox == s.threads[x].inbox + [l];
    }
  }

  lemma OtherOrderStep(s: State, e: Event, x: Sid)
    requires Inv(s) && Enabled(s, e) && x < |s.threads| && !(e.OfHandler? && e.step.Deliver?)
    ensures OrderStep(s, Next(s, e), x)
  {
    StepKeepsInbox(s, e, x);
    StepSpeech(s, e);
    forall m | 0 <= m < |s.lines|
      ensures Next(s, e).lines[m].speaker == s.lines[m].speaker
    {
      assert SameLine(s.lines[m], Next(s, e).lines[m]);
    }
  }

  lemma OrderStays(s: State, s': State, x: Sid)
    requires Inv(s) && OrderStep(s, s', x) && InOrder(s.lines, s.threads[x].inbox) && Inv(s')
    ensures InOrder(s'.lines, s'.threads[x].inbox)
  {
    InboxesHoldLines(s, x);
    var inbox := s.threads[x].inbox;
    if s'.threads[x].inbox == inbox {
      SameInboxIsInOrder(s.lines, s'.lines, inbox);
    } else {
      var l: nat :|
        && l < |s.lines| == |s'.lines| && s'.threads[x].inbox == inbox + [l]
        && forall m :: 0 <= m < |s.lines| && s.lines[m].speaker == s.lines[l].speaker ==> m <= l;
      InboxIsNew(s', x, inbox, l);
      DeliveryIsInOrder(s.lines, s'.lines, inbox, l);
    }
  }

  lemma InboxIsNew(s': State, x: Sid, inbox: seq<nat>, l: nat)
    requires Inv(s') && x < |s'.threads| && s'.threads[x].inbox == inbox + [l]
    ensures forall p :: 0 <= p < |inbox| ==> inbox[p] != l
  {
    assert InboxOk(s', x);
    forall p | 0 <= p < |inbox|
      ensures inbox[p] != l
    {
      assert (inbox + [l])[p] != (inbox + [l])[|inbox|];
    }
  }

  lemma RunOrderStep(states: seq<State>, events: seq<Event>, k: nat, x: Sid)
    requires IsRun(states, events) && k < |events| && x < |states[k].threads|
    ensures OrderStep(states[k], states[k + 1], x)
  {
    RunKeepsInv(states, events, k);
    if events[k].OfHandler? && events[k].step.Deliver? {
      RelaysLastAlong(states, events, k, events[k].i);
      DeliveryIsOrderStep(states[k], events[k].i, events[k].step.to, events[k].step.sent, x);
    } else {
      OtherOrderStep(states[k], events[k], x);
    }
  }

  lemma NewInboxIsEmpty(s: State, e: Event, x: Sid)
    requires Enabled(s, e) && x >= |s.threads|
    ensures x < |Next(s, e).threads| ==> Next(s, e).threads[x].inbox == []
  {
    if e.OfHandler? {
      HandlerFrame(s, e.i, s.threads[e.i], e.step);
    }
  }

  lemma RunKeepsOrder(states: seq<State>, events: seq<Event>, k: nat, x: Sid)
    requires IsRun(states, events) && k < |events|
    requires x < |states[k].threads| ==> InOrder(states[k].lines, states[k].threads[x].inbox)
    ensures x < |states[k + 1].threads| ==> InOrder(states[k + 1].lines, states[k + 1].threads[x].inbox)
  {
    if x < |states[k].threads| {
      RunKeepsInv(states, events, k);
      RunKeepsInv(states, events, k + 1);
      RunOrderStep(states, events, k, x);
      OrderStays(states[k], states[k + 1], x);
    } else {
      NewInboxIsEmpty(states[k], events[k], x);
    }
  }

  /**
   * In every run what one user says arrives at any session in the order in which it was said,
   * whatever is said by others in between and whatever is lost.
   */
  lemma {:induction false} ArrivesInOrder(states: seq<State>, events: seq<Event>, k: nat, x: Sid)
    requires IsRun(states, events) && k <= |events|
    ensures x < |states[k].threads| ==> InOrder(states[k].lines, states[k].threads[x].inbox)
  {
    if k > 0 {
      ArrivesInOrder(states, events, k - 1, x);
      RunKeepsOrder(states, events, k - 1, x);
    }
  }
}
