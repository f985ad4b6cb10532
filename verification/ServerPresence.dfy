// Who can be reached: the client list holds everybody who is in the chat, a session that a send
// has failed on gets nothing more, and a shutdown closes everybody who is listed.

module ServerPresence {
  import opened ByteStrings
  import opened ClientTables
  import opened ServerInvariant
  import opened ServerRuns
  import opened ServerSteps
  import opened ServerSystem
  import opened ServerTheorems

  // The client list.

  /** Until the tables are cleared, everybody between add_client and remove_client is listed. */
  predicate AllListed(s: State) {
    s.main.Accepting? || s.main.Sweeping? ==>
      forall i :: 0 <= i < |s.threads| && Connected(s.threads[i]) ==> i in s.clients.list
  }

  /** Handlers other than i are connected if they were. */
  lemma OthersStayConnected(s: State, s': State, i: Sid, x: Sid)
    requires x < |s.threads| && x < |s'.threads| && KeepsPosition(s, s', x)
    ensures Connected(s'.threads[x]) <==> Connected(s.threads[x])
  {
  }

  lemma LoginStepConnects(s: State, i: Sid, step: HandlerStep)
    requires i < |s.threads| && OwnOk(s, i, s.threads[i]) && HandlerEnabled(s, s.threads[i], step)
    requires IsMenu(step) || step.CallRegister? || step.SetName?
    ensures i < |HandlerNext(s, i, s.threads[i], step).threads|
    ensures !Connected(HandlerNext(s, i, s.threads[i], step).threads[i])
  {
  }

  lemma EntryStepConnects(s: State, i: Sid, step: HandlerStep)
    requires i < |s.threads| && OwnOk(s, i, s.threads[i]) && HandlerEnabled(s, s.threads[i], step)
    requires step.AddClient? || step.Enter? || step.Hear?
    ensures i < |HandlerNext(s, i, s.threads[i], step).threads|
    ensures Connected(s.threads[i]) || step.AddClient?
  {
  }

  lemma ChatStepConnects(s: State, i: Sid, step: HandlerStep)
    requires i < |s.threads| && OwnOk(s, i, s.threads[i]) && HandlerEnabled(s, s.threads[i], step) && IsChat(step)
    ensures i < |HandlerNext(s, i, s.threads[i], step).threads|
    ensures Connected(HandlerNext(s, i, s.threads[i], step).threads[i]) ==> Connected(s.threads[i])
  {
  }

  lemma LateStepConnects(s: State, i: Sid, step: HandlerStep)
    requires i < |s.threads| && HandlerEnabled(s, s.threads[i], step) && !IsEarly(step) && !IsChat(step)
    ensures i < |HandlerNext(s, i, s.threads[i], step).threads|
    ensures Connected(HandlerNext(s, i, s.threads[i], step).threads[i]) ==>
              Connected(s.threads[i]) && !step.RemoveClient?
  {
  }

  /** Only add_client connects a session, and remove_client ends it. */
  lemma OwnStepConnects(s: State, i: Sid, step: HandlerStep)
    requires Inv(s) && i < |s.threads| && HandlerEnabled(s, s.threads[i], step)
    ensures i < |HandlerNext(s, i, s.threads[i], step).threads|
    ensures Connected(HandlerNext(s, i, s.threads[i], step).threads[i]) ==>
              (Connected(s.threads[i]) || step.AddClient?) && !step.RemoveClient?
  {
    InvOwn(s, i);
    if step.AddClient? || step.Enter? || step.Hear? {
      EntryStepConnects(s, i, step);
    } else if IsEarly(step) {
      LoginStepConnects(s, i, step);
    } else if IsChat(step) {
      ChatStepConnects(s, i, step);
    } else {
      LateStepConnects(s, i, step);
    }
  }

  /** What a step of handler i does to the client list. */
  lemma ListChanges(s: State, i: Sid, step: HandlerStep, x: Sid)
    requires Inv(s) && i < |s.threads| && HandlerEnabled(s, s.threads[i], step) && x in s.clients.list
    ensures x in HandlerNext(s, i, s.threads[i], step).clients.list || (x == i && step.RemoveClient?)
  {
    if step.RemoveClient? {
      WithoutElements(s.clients.list, i);
    } else if !step.AddClient? {
      HandlerFrame(s, i, s.threads[i], step);
    }
  }

  lemma AddedIsListed(s: State, i: Sid)
    requires i < |s.threads| && HandlerEnabled(s, s.threads[i], AddClient)
    ensures i in HandlerNext(s, i, s.threads[i], AddClient).clients.list
  {
  }

  lemma HandlerKeepsMain(s: State, i: Sid, step: HandlerStep)
    requires i < |s.threads| && HandlerEnabled(s, s.threads[i], step)
    ensures HandlerNext(s, i, s.threads[i], step).main == s.main
    ensures |HandlerNext(s, i, s.threads[i], step).threads| == |s.threads|
  {
    HandlerFrame(s, i, s.threads[i], step);
  }

  lemma HandlerKeepsListed(s: State, i: Sid, step: HandlerStep)
    requires Inv(s) && AllListed(s) && i < |s.threads| && HandlerEnabled(s, s.threads[i], step)
    ensures AllListed(HandlerNext(s, i, s.threads[i], step))
  {
    var s' := HandlerNext(s, i, s.threads[i], step);
    HandlerKeepsMain(s, i, step);
    if s.main.Accepting? || s.main.Sweeping? {
      forall x | 0 <= x < |s'.threads| && Connected(s'.threads[x])
        ensures x in s'.clients.list
      {
        StaysListed(s, i, step, x);
      }
    }
  }

  lemma StaysListed(s: State, i: Sid, step: HandlerStep, x: Sid)
    requires Inv(s) && AllListed(s) && (s.main.Accepting? || s.main.Sweeping?)
    requires i < |s.threads| && HandlerEnabled(s, s.threads[i], step) && x < |s.threads|
    requires x < |HandlerNext(s, i, s.threads[i], step).threads|
    requires Connected(HandlerNext(s, i, s.threads[i], step).threads[x])
    ensures x in HandlerNext(s, i, s.threads[i], step).clients.list
  {
    if x == i {
      OwnStepConnects(s, i, step);
      if step.AddClient? {
        AddedIsListed(s, i);
      } else {
        ListChanges(s, i, step, i);
      }
    } else {
      OtherStepKeepsPosition(s, x, i, step);
      OthersStayConnected(s, HandlerNext(s, i, s.threads[i], step), i, x);
      ListChanges(s, i, step, x);
    }
  }

  lemma MainKeepsListed(s: State, act: MainStep)
    requires AllListed(s) && MainEnabled(s, act)
    ensures AllListed(MainNext(s, act))
  {
    var s' := MainNext(s, act);
    if s'.main.Accepting? || s'.main.Sweeping? {
      forall x | 0 <= x < |s'.threads| && Connected(s'.threads[x])
        ensures x in s'.clients.list
      {
        if x < |s.threads| {
          MainStepKeepsPosition(s, x, act);
          OthersStayConnected(s, s', 0, x);
        }
      }
    }
  }

  lemma RunKeepsListed(states: seq<State>, events: seq<Event>, k: nat)
    requires IsRun(states, events) && k < |events| && AllListed(states[k])
    ensures AllListed(states[k + 1])
  {
    RunKeepsInv(states, events, k);
    match events[k]
    case OfHandler(i, step) => HandlerKeepsListed(states[k], i, step);
    case OfMain(act) => MainKeepsListed(states[k], act);
  }

  lemma {:induction false} AllListedAlong(states: seq<State>, events: seq<Event>, k: nat)
    requires IsRun(states, events) && k <= |events|
    ensures AllListed(states[k])
  {
    if k > 0 {
      AllListedAlong(states, events, k - 1);
      RunKeepsListed(states, events, k - 1);
    }
  }

  /** Until shutdown clears it, the client list holds exactly the sessions between add_client and remove_client. */
  lemma ListIsWhoIsConnected(s: State, i: Sid)
    requires Reachable(s) && (s.main.Accepting? || s.main.Sweeping?)
    ensures i in s.clients.list <==> i < |s.threads| && Connected(s.threads[i])
  {
    ReachableInv(s);
    var states, events :| IsRun(states, events) && states[|events|] == s;
    AllListedAlong(states, events, |events|);
  }

  // The flag `active`.

  predicate IsInactive(s: State, x: Sid) {
    x < |s.threads| && !s.threads[x].active
  }

  lemma MenuStepKeepsInactive(s: State, i: Sid, step: HandlerStep)
    requires i < |s.threads| && HandlerEnabled(s, s.threads[i], step) && IsInactive(s, i)
    requires IsMenu(step) || step.CallRegister?
    ensures IsInactive(HandlerNext(s, i, s.threads[i], step), i)
  {
  }

  lemma EntryStepKeepsInactive(s: State, i: Sid, step: HandlerStep)
    requires i < |s.threads| && HandlerEnabled(s, s.threads[i], step) && IsInactive(s, i)
    requires step.SetName? || step.AddClient? || step.Enter?
    ensures IsInactive(HandlerNext(s, i, s.threads[i], step), i)
  {
  }

  lemma HearKeepsInactive(s: State, i: Sid, line: Bytes)
    requires i < |s.threads| && s.threads[i].pc.Chatting? && IsInactive(s, i)
    ensures IsInactive(At(s, i, Heard(s.threads[i], line)), i)
  {
  }

  lemma SpeakKeepsInactive(s: State, i: Sid)
    requires i < |s.threads| && HandlerEnabled(s, s.threads[i], Speak) && IsInactive(s, i)
    ensures IsInactive(HandlerNext(s, i, s.threads[i], Speak), i)
  {
  }

  lemma PageKeepsInactive(s: State, i: Sid)
    requires i < |s.threads| && HandlerEnabled(s, s.threads[i], Page) && IsInactive(s, i)
    ensures IsInactive(HandlerNext(s, i, s.threads[i], Page), i)
  {
  }

  lemma DeliveryKeepsInactive(s: State, i: Sid, step: HandlerStep, x: Sid)
    requires i < |s.threads| && HandlerEnabled(s, s.threads[i], step) && step.Deliver? && IsInactive(s, x)
    ensures IsInactive(HandlerNext(s, i, s.threads[i], step), x)
  {
  }

  lemma ChatStepKeepsInactive(s: State, i: Sid, step: HandlerStep)
    requires i < |s.threads| && HandlerEnabled(s, s.threads[i], step) && IsInactive(s, i)
    requires step.LeaveCurrent? || step.JoinCurrent? || step.EndRelay?
    ensures IsInactive(HandlerNext(s, i, s.threads[i], step), i)
  {
  }

  lemma LateStepKeepsInactive(s: State, i: Sid, step: HandlerStep)
    requires i < |s.threads| && HandlerEnabled(s, s.threads[i], step) && IsInactive(s, i)
    requires !IsEarly(step) && !IsChat(step)
    ensures IsInactive(HandlerNext(s, i, s.threads[i], step), i)
  {
  }

  lemma OwnStepKeepsInactive(s: State, i: Sid, step: HandlerStep)
    requires i < |s.threads| && HandlerEnabled(s, s.threads[i], step) && IsInactive(s, i)
    ensures IsInactive(HandlerNext(s, i, s.threads[i], step), i)
  {
    match step
    case Hear(line) => HearKeepsInactive(s, i, line);
    case Speak => SpeakKeepsInactive(s, i);
    case Page => PageKeepsInactive(s, i);
    case Deliver(_, _) => DeliveryKeepsInactive(s, i, step, i);
    case _ =>
      if IsMenu(step) || step.CallRegister? {
        MenuStepKeepsInactive(s, i, step);
      } else if IsEarly(step) {
        EntryStepKeepsInactive(s, i, step);
      } else if IsChat(step) {
        ChatStepKeepsInactive(s, i, step);
      } else {
        LateStepKeepsInactive(s, i, step);
      }
  }

  /** An inactive session stays inactive. */
  lemma InactiveStays(s: State, e: Event, x: Sid)
    requires Enabled(s, e) && IsInactive(s, x)
    ensures IsInactive(Next(s, e), x)
  {
    match e
    case OfHandler(i, step) =>
      if i == x {
        OwnStepKeepsInactive(s, i, step);
      } else {
        OtherStepKeepsPosition(s, x, i, step);
      }
    case OfMain(act) => MainStepKeepsPosition(s, x, act);
  }

  ghost predicate StaysInactive(s: State, s': State, x: Sid) {
    IsInactive(s, x) ==> IsInactive(s', x)
  }

  lemma {:induction false} InactiveAlong(states: seq<State>, j: nat, k: nat, x: Sid)
    requires j <= k < |states| && forall m :: 0 <= m < |states| - 1 ==> StaysInactive(states[m], states[m + 1], x)
    ensures StaysInactive(states[j], states[k], x)
  {
    if j < k {
      InactiveAlong(states, j, k - 1, x);
      assert StaysInactive(states[k - 1], states[k - 1 + 1], x);
    }
  }

  lemma RunKeepsInactive(states: seq<State>, events: seq<Event>, j: nat, k: nat, x: Sid)
    requires IsRun(states, events) && j <= k <= |events|
    ensures StaysInactive(states[j], states[k], x)
  {
    forall m | 0 <= m < |events|
      ensures StaysInactive(states[m], states[m + 1], x)
    {
      if IsInactive(states[m], x) {
        InactiveStays(states[m], events[m], x);
      }
    }
    InactiveAlong(states, j, k, x);
  }

  lemma FailedDeliveryDeactivates(s: State, i: Sid, to: Sid, sent: bool)
    requires i < |s.threads| && HandlerEnabled(s, s.threads[i], Deliver(to, sent))
    requires FateOf(s, s.lines[s.threads[i].pc.line], to, sent).Failed?
    ensures IsInactive(HandlerNext(s, i, s.threads[i], Deliver(to, sent)), to)
  {
  }

  /** Event e tries to send line l to x and fails. */
  predicate Fails(s: State, e: Event, l: nat, x: Sid) {
    Delivers(s, e, l, x) && l < |s.lines| && x < |s.threads| && FateOf(s, s.lines[l], x, e.step.sent).Failed?
  }

  /** A send that fails is the last one that is tried: nothing arrives at the session afterwards. */
  lemma NothingArrivesAfterAFailure(
    states: seq<State>, events: seq<Event>, j: nat, k: nat, l: nat, l': nat, x: Sid)
    requires IsRun(states, events) && j < k < |events|
    requires Fails(states[j], events[j], l, x)
    requires Delivers(states[k], events[k], l', x) && l' < |states[k].lines| && x < |states[k].threads|
    ensures !Arrives(states[k], events[k], l', x)
    ensures IsInactive(states[|events|], x)
  {
    FailedDeliveryDeactivates(states[j], events[j].i, x, events[j].step.sent);
    RunKeepsInactive(states, events, j + 1, k, x);
    RunKeepsInactive(states, events, k, |events|, x);
  }

  // Shutdown.

  /** Session x, listed when shutdown began, is still to be swept or is inactive. */
  predicate IsSwept(s: State, x: Sid) {
    && x < |s.threads| && !s.main.Accepting?
    && (!s.threads[x].active || (s.main.Sweeping? && x in s.main.todo))
  }

  lemma SweepSweeps(s: State, act: MainStep, x: Sid)
    requires Inv(s) && MainEnabled(s, act) && IsSwept(s, x) && s.main.Sweeping? && s.main.todo != []
    ensures IsSwept(MainNext(s, act), x)
  {
    var i := s.main.todo[0];
    SweptIsConnected(s, i);
    SweepChange(s, i, act);
    InvOwn(s, i);
    SweepStepSweeps(s, MainNext(s, act), i, x);
  }

  lemma SweepStepSweeps(s: State, s': State, i: Sid, x: Sid)
    requires i < |s.threads| && OneSwept(s, s', i) && IsSwept(s, x) && DescriptorOk(s.threads[i], s.main.stage)
    ensures IsSwept(s', x)
  {
    if x in s.main.todo && x != i {
      assert x in s.main.todo[1..];
    }
  }

  lemma PhaseSweeps(s: State, act: MainStep, x: Sid)
    requires MainEnabled(s, act) && IsSwept(s, x) && (IsPhase(act) || act.Spawn?)
    ensures IsSwept(MainNext(s, act), x)
  {
  }

  lemma HandlerKeepsSwept(s: State, i: Sid, step: HandlerStep, x: Sid)
    requires IsSwept(s, x) && i < |s.threads| && HandlerEnabled(s, s.threads[i], step)
    ensures IsSwept(HandlerNext(s, i, s.threads[i], step), x)
  {
    HandlerKeepsMain(s, i, step);
    if IsInactive(s, x) {
      InactiveStays(s, OfHandler(i, step), x);
    }
  }

  lemma RunSweeps(states: seq<State>, events: seq<Event>, k: nat, x: Sid)
    requires IsRun(states, events) && k < |events| && IsSwept(states[k], x)
    ensures IsSwept(states[k + 1], x)
  {
    RunKeepsInv(states, events, k);
    match events[k]
    case OfHandler(i, step) => HandlerKeepsSwept(states[k], i, step, x);
    case OfMain(act) =>
      if act.SweepSwap? || act.SweepClose? || act.SweepMark? {
        SweepSweeps(states[k], act, x);
      } else {
        PhaseSweeps(states[k], act, x);
      }
  }

  ghost predicate StaysSwept(s: State, s': State, x: Sid) {
    IsSwept(s, x) ==> IsSwept(s', x)
  }

  lemma {:induction false} SweptAlong(states: seq<State>, j: nat, k: nat, x: Sid)
    requires j <= k < |states| && forall m :: 0 <= m < |states| - 1 ==> StaysSwept(states[m], states[m + 1], x)
    ensures StaysSwept(states[j], states[k], x)
  {
    if j < k {
      SweptAlong(states, j, k - 1, x);
      assert StaysSwept(states[k - 1], states[k - 1 + 1], x);
    }
  }

  lemma RunKeepsSwept(states: seq<State>, events: seq<Event>, j: nat, k: nat, x: Sid)
    requires IsRun(states, events) && j <= k <= |events|
    ensures StaysSwept(states[j], states[k], x)
  {
    forall m | 0 <= m < |events|
      ensures StaysSwept(states[m], states[m + 1], x)
    {
      if IsSwept(states[m], x) {
        RunSweeps(states, events, m, x);
      }
    }
    SweptAlong(states, j, k, x);
  }

  /** Whoever is in the client list when shutdown begins is inactive once the sweep is over. */
  lemma ShutdownReachesEverybody(states: seq<State>, events: seq<Event>, j: nat, k: nat, x: Sid)
    requires IsRun(states, events) && j < k <= |events| && events[j] == OfMain(StartShutdown)
    requires x in states[j].clients.list && !states[k].main.Sweeping?
    ensures IsInactive(states[k], x)
  {
    RunKeepsInv(states, events, j);
    StartSweeps(states[j], x);
    RunKeepsSwept(states, events, j + 1, k, x);
  }

  lemma StartSweeps(s: State, x: Sid)
    requires ClientsOk(s) && MainEnabled(s, StartShutdown) && x in s.clients.list
    ensures IsSwept(MainNext(s, StartShutdown), x)
  {
  }
}
