// What happens over whole runs of the server: each delivery is one event, and the accounts are
// the registry file all along.

module ServerRuns {
  import opened ByteStrings
  import opened ServerInvariant
  import opened ServerSteps
  import opened ServerSystem
  import opened ServerTheorems
  import FileIo
  import Registry

  // Deliveries.

  /** Event e is the attempt to send line l to x. */
  predicate Delivers(s: State, e: Event, l: nat, x: Sid) {
    && e.OfHandler? && e.i < |s.threads| && e.step.Deliver? && e.step.to == x
    && s.threads[e.i].pc.Relaying? && s.threads[e.i].pc.line == l
  }

  predicate HasFate(s: State, l: nat, x: Sid) {
    l < |s.lines| && x in s.lines[l].fates
  }

  /** From s to s' by event e: a delivery to x settles its fate, anything else leaves it as it is. */
  predicate FateStep(s: State, e: Event, s': State, l: nat, x: Sid) {
    if Delivers(s, e, l, x) then
      && l < |s.lines| && x < |s.threads| && !HasFate(s, l, x) && HasFate(s', l, x)
      && s'.lines[l].fates[x] == FateOf(s, s.lines[l], x, e.step.sent)
    else
      && (HasFate(s', l, x) <==> HasFate(s, l, x))
      && (HasFate(s, l, x) ==> s'.lines[l].fates[x] == s.lines[l].fates[x])
  }

  lemma MainKeepsLines(s: State, act: MainStep)
    requires MainEnabled(s, act)
    ensures MainNext(s, act).lines == s.lines
  {
  }

  lemma RelayAddsLine(s: State, i: Sid, t: Thread, step: HandlerStep, l: nat, x: Sid)
    requires i < |s.threads| && t == s.threads[i] && HandlerEnabled(s, t, step) && (step.Speak? || step.Page?)
    ensures HasFate(HandlerNext(s, i, t, step), l, x) <==> HasFate(s, l, x)
    ensures HasFate(s, l, x) ==> HandlerNext(s, i, t, step).lines[l] == s.lines[l]
  {
  }

  lemma DeliverGivesFate(s: State, i: Sid, to: Sid, sent: bool, l: nat, x: Sid)
    requires Inv(s) && i < |s.threads| && HandlerEnabled(s, s.threads[i], Deliver(to, sent))
    ensures FateStep(s, OfHandler(i, Deliver(to, sent)), HandlerNext(s, i, s.threads[i], Deliver(to, sent)), l, x)
  {
    var t := s.threads[i];
    assert LineOk(s, t.pc.line) && Pending(s, t.pc.line) == t.pc.rest;
  }

  /** A member of the audience gets its fate by the event that delivers to it, and keeps it. */
  lemma HandlerGivesFate(s: State, i: Sid, step: HandlerStep, l: nat, x: Sid)
    requires Inv(s) && i < |s.threads| && HandlerEnabled(s, s.threads[i], step)
    ensures FateStep(s, OfHandler(i, step), HandlerNext(s, i, s.threads[i], step), l, x)
  {
    if step.Deliver? {
      DeliverGivesFate(s, i, step.to, step.sent, l, x);
    } else if step.Speak? || step.Page? {
      RelayAddsLine(s, i, s.threads[i], step, l, x);
    } else {
      HandlerFrame(s, i, s.threads[i], step);
    }
  }

  lemma StepGivesFate(s: State, e: Event, l: nat, x: Sid)
    requires Inv(s) && Enabled(s, e)
    ensures FateStep(s, e, Next(s, e), l, x)
  {
    match e
    case OfHandler(i, step) => HandlerGivesFate(s, i, step, l, x);
    case OfMain(act) => MainKeepsLines(s, act);
  }

  lemma RunGivesFate(states: seq<State>, events: seq<Event>, k: nat, l: nat, x: Sid)
    requires IsRun(states, events) && k < |events|
    ensures FateStep(states[k], events[k], states[k + 1], l, x)
  {
    RunKeepsInv(states, events, k);
    StepGivesFate(states[k], events[k], l, x);
  }

  lemma FateStays(states: seq<State>, events: seq<Event>, k: nat, l: nat, x: Sid)
    requires IsRun(states, events) && k < |events| && HasFate(states[k], l, x)
    ensures HasFate(states[k + 1], l, x) && states[k + 1].lines[l].fates[x] == states[k].lines[l].fates[x]
  {
    RunGivesFate(states, events, k, l, x);
  }

  ghost predicate SameFate(s: State, s': State, l: nat, x: Sid) {
    HasFate(s, l, x) ==> HasFate(s', l, x) && s'.lines[l].fates[x] == s.lines[l].fates[x]
  }

  lemma FatesStay(states: seq<State>, events: seq<Event>, j: nat, k: nat, l: nat, x: Sid)
    requires IsRun(states, events) && j <= k <= |events|
    ensures SameFate(states[j], states[k], l, x)
  {
    forall m | 0 <= m < |events|
      ensures SameFate(states[m], states[m + 1], l, x)
    {
      if HasFate(states[m], l, x) {
        FateStays(states, events, m, l, x);
      }
    }
    SameFateAlong(states, j, k, l, x);
  }

  lemma {:induction false} SameFateAlong(states: seq<State>, j: nat, k: nat, l: nat, x: Sid)
    requires j <= k < |states|
    requires forall m :: 0 <= m < |states| - 1 ==> SameFate(states[m], states[m + 1], l, x)
    ensures SameFate(states[j], states[k], l, x)
  {
    if j < k {
      SameFateAlong(states, j, k - 1, l, x);
      assert SameFate(states[k - 1], states[k - 1 + 1], l, x);
    }
  }

  /** A fate comes from a delivery. */
  lemma {:induction false} FateHasEvent(states: seq<State>, events: seq<Event>, n: nat, l: nat, x: Sid) returns (k: nat)
    requires IsRun(states, events) && n <= |events| && HasFate(states[n], l, x)
    ensures k < n && Delivers(states[k], events[k], l, x) && l < |states[k].lines| && x < |states[k].threads|
    ensures states[n].lines[l].fates[x] == FateOf(states[k], states[k].lines[l], x, events[k].step.sent)
  {
    if n == 0 {
      assert false;
    } else {
      RunGivesFate(states, events, n - 1, l, x);
      if Delivers(states[n - 1], events[n - 1], l, x) {
        k := n - 1;
      } else {
        k := FateHasEvent(states, events, n - 1, l, x);
      }
    }
  }

  /** No second delivery follows. */
  lemma DeliveriesDiffer(states: seq<State>, events: seq<Event>, j: nat, k: nat, l: nat, x: Sid)
    requires IsRun(states, events) && j < k < |events|
    ensures !(Delivers(states[j], events[j], l, x) && Delivers(states[k], events[k], l, x))
  {
    RunGivesFate(states, events, j, l, x);
    RunGivesFate(states, events, k, l, x);
    if Delivers(states[j], events[j], l, x) {
      FatesStay(states, events, j + 1, k, l, x);
    }
  }

  /** What it takes at the moment of the delivery. */
  predicate Arrives(s: State, e: Event, l: nat, x: Sid)
    requires Delivers(s, e, l, x) && l < |s.lines| && x < |s.threads|
  {
    && e.step.sent && !IsDying(s.threads[x].pc) && s.threads[x].active
    && !(s.lines[l].scope.InRoom? && NameOf(s, x) == s.lines[l].sender)
  }

  /**
   * A line that is out: each member of its audience was tried by exactly one event of the run, and
   * has the line once if it was alive, active and no namesake just before that event and the send
   * succeeded, otherwise not at all.
   */
  lemma DeliveredByOneEvent(states: seq<State>, events: seq<Event>, l: nat, x: Sid) returns (k: nat)
    requires IsRun(states, events)
    requires var s := states[|events|]; l < |s.lines| && Finished(s, l) && x in s.lines[l].audience
    ensures k < |events| && Delivers(states[k], events[k], l, x) && l < |states[k].lines| && x < |states[k].threads|
    ensures forall k' :: 0 <= k' < |events| && Delivers(states[k'], events[k'], l, x) ==> k' == k
    ensures x < |states[|events|].threads|
    ensures multiset(states[|events|].threads[x].inbox)[l] == if Arrives(states[k], events[k], l, x) then 1 else 0
  {
    AudienceHasFates(states[|events|], l, x);
    DeliveredOnce(states[|events|], l, x);
    k := FateHasEvent(states, events, |events|, l, x);
    OnlyOneDelivery(states, events, k, l, x);
  }

  lemma AudienceHasFates(s: State, l: nat, x: Sid)
    requires Reachable(s) && l < |s.lines| && Finished(s, l) && x in s.lines[l].audience
    ensures x < |s.threads| && HasFate(s, l, x)
  {
    ReachableInv(s);
    assert LineOk(s, l) && Pending(s, l) == {};
  }

  lemma OnlyOneDelivery(states: seq<State>, events: seq<Event>, k: nat, l: nat, x: Sid)
    requires IsRun(states, events) && k < |events| && Delivers(states[k], events[k], l, x)
    ensures forall k' :: 0 <= k' < |events| && Delivers(states[k'], events[k'], l, x) ==> k' == k
  {
    forall k' | 0 <= k' < |events| && Delivers(states[k'], events[k'], l, x)
      ensures k' == k
    {
      if k' < k {
        DeliveriesDiffer(states, events, k', k, l, x);
      } else if k < k' {
        DeliveriesDiffer(states, events, k, k', l, x);
      }
    }
  }

  /** Nobody outside the audience is ever tried, and nobody else has the line. */
  lemma OnlyTheAudience(states: seq<State>, events: seq<Event>, l: nat, x: Sid, k: nat)
    requires IsRun(states, events)
    requires var s := states[|events|]; l < |s.lines| && Finished(s, l) && x !in s.lines[l].audience && x < |s.threads|
    ensures k < |events| ==> !Delivers(states[k], events[k], l, x)
    ensures l !in states[|events|].threads[x].inbox
  {
    var s := states[|events|];
    ReachableInv(s);
    DeliveredOnce(s, l, x);
    if k < |events| && Delivers(states[k], events[k], l, x) {
      RunGivesFate(states, events, k, l, x);
      FatesStay(states, events, k + 1, |events|, l, x);
    }
  }

  // Accounts.

  /** The text of the registry file along a run; disks[k] is how the disk treats event k. */
  ghost predicate FileTrace(states: seq<State>, events: seq<Event>, texts: seq<Bytes>, disks: seq<FileIo.Disk>) {
    && IsRun(states, events) && |texts| == |events| + 1 && |disks| == |events|
    && forall k :: 0 <= k < |events| ==> FileStep(states[k], events[k], texts[k], texts[k + 1], disks[k])
  }

  /** Only register_user touches the file; `written` says what the disk did. */
  predicate FileStep(s: State, e: Event, text: Bytes, text': Bytes, disk: FileIo.Disk) {
    if e.OfHandler? && e.step.CallRegister? && e.i < |s.threads| && s.threads[e.i].pc.SigningUp? then
      var pc := s.threads[e.i].pc;
      && e.step.written == FileIo.Written(disk, |Registry.RecordsOf(text)| + 1)
      && text' == Registry.Registered(text, pc.name, pc.password, disk).1
    else text' == text
  }

  ghost predicate StandsFor(text: Bytes, s: State) {
    Registry.WellFormed(text) && Registry.UsersIn(text) == s.users
  }

  lemma MainKeepsUsers(s: State, act: MainStep)
    requires MainEnabled(s, act)
    ensures MainNext(s, act).users == s.users
  {
  }

  lemma FileFollowsStep(s: State, e: Event, text: Bytes, text': Bytes, disk: FileIo.Disk)
    requires Inv(s) && Enabled(s, e) && StandsFor(text, s) && FileStep(s, e, text, text', disk)
    ensures StandsFor(text', Next(s, e))
  {
    match e
    case OfHandler(i, step) =>
      if step.CallRegister? {
        InvOwn(s, i);
        RegistryFileRefinesSteps(s, i, text, disk);
      } else {
        HandlerFrame(s, i, s.threads[i], step);
      }
    case OfMain(act) => MainKeepsUsers(s, act);
  }

  /** Along every run the file stands for the accounts, over failing writes and any racing handlers. */
  lemma {:induction false} FileIsTheAccounts(
    states: seq<State>, events: seq<Event>, texts: seq<Bytes>, disks: seq<FileIo.Disk>, k: nat)
    requires FileTrace(states, events, texts, disks) && StandsFor(texts[0], states[0]) && k <= |events|
    ensures StandsFor(texts[k], states[k])
  {
    if k > 0 {
      FileIsTheAccounts(states, events, texts, disks, k - 1);
      FileFollowsRun(states, events, texts, disks, k - 1);
    }
  }

  lemma FileFollowsRun(
    states: seq<State>, events: seq<Event>, texts: seq<Bytes>, disks: seq<FileIo.Disk>, k: nat)
    requires FileTrace(states, events, texts, disks) && k < |events| && StandsFor(texts[k], states[k])
    ensures StandsFor(texts[k + 1], states[k + 1])
  {
    RunKeepsInv(states, events, k);
    FileFollowsStep(states[k], events[k], texts[k], texts[k + 1], disks[k]);
  }

  /** Event e is a registration of this name, and the registry accepts it. */
  predicate Registers(s: State, e: Event, name: Bytes) {
    && e.OfHandler? && e.i < |s.threads| && e.step.CallRegister? && s.threads[e.i].pc.SigningUp?
    && s.threads[e.i].pc.name == name && name !in s.users && e.step.written
  }

  lemma RegistrationStays(s: State, e: Event, name: Bytes)
    requires Enabled(s, e) && Registers(s, e, name)
    ensures name in Next(s, e).users && Next(s, e).users[name] == s.threads[e.i].pc.password
  {
  }

  /**
   * A name is registered by at most one event of a run, and at any later state the account is
   * there with the password of that registration.
   */
  lemma RegisteredOnce(states: seq<State>, events: seq<Event>, name: Bytes, j: nat, k: nat)
    requires IsRun(states, events) && j < k <= |events| && Registers(states[j], events[j], name)
    ensures name in states[k].users && states[k].users[name] == states[j].threads[events[j].i].pc.password
    ensures k < |events| ==> !Registers(states[k], events[k], name)
  {
    RegistrationStays(states[j], events[j], name);
    NamesNeverChange(states, events, j + 1, k);
  }

  /** So the file lets the user in with exactly that password from then on. */
  lemma FileRemembersRegistration(
    states: seq<State>, events: seq<Event>, texts: seq<Bytes>, disks: seq<FileIo.Disk>, name: Bytes, j: nat, k: nat,
    encPassword: Bytes)
    requires FileTrace(states, events, texts, disks) && StandsFor(texts[0], states[0])
    requires j < k <= |events| && Registers(states[j], events[j], name)
    ensures Registry.Authenticated(texts[k], name, encPassword) <==>
            encPassword == states[j].threads[events[j].i].pc.password
  {
    FileIsTheAccounts(states, events, texts, disks, k);
    RegisteredOnce(states, events, name, j, k);
    Registry.AuthenticateRefines(texts[k], name, encPassword);
  }

  // Cleaning up.

  /** The steps that handler i takes from state j to state k. */
  function OwnSteps(events: seq<Event>, i: Sid, j: nat, k: nat): nat
    requires j <= k <= |events|
  {
    if j == k then 0 else OwnSteps(events, i, j, k - 1) + if IsOwn(events[k - 1], i) then 1 else 0
  }

  lemma {:induction false} CleanupAlong(states: seq<State>, events: seq<Event>, i: Sid, j: nat, k: nat)
    requires |states| == |events| + 1 && j <= k <= |events|
    requires forall m :: 0 <= m < |events| ==>
               CleansUp(states[m], states[m + 1], i, if IsOwn(events[m], i) then 1 else 0)
    ensures CleansUp(states[j], states[k], i, OwnSteps(events, i, j, k))
  {
    if j < k {
      CleanupAlong(states, events, i, j, k - 1);
      assert CleansUp(states[k - 1], states[k - 1 + 1], i, if IsOwn(events[k - 1], i) then 1 else 0);
    }
  }

  lemma CleanupStays(states: seq<State>, events: seq<Event>, i: Sid, j: nat, k: nat)
    requires IsRun(states, events) && j <= k <= |events|
    ensures CleansUp(states[j], states[k], i, OwnSteps(events, i, j, k))
  {
    forall m | 0 <= m < |events|
      ensures CleansUp(states[m], states[m + 1], i, if IsOwn(events[m], i) then 1 else 0)
    {
      CleanupGoesOn(states[m], events[m], i);
    }
    CleanupAlong(states, events, i, j, k);
  }

  /**
   * A handler that has begun to clean up takes at most ten steps more and is done after ten of
   * them; until then it can take the next one, unless shutdown_all has the client list locked.
   */
  lemma CleanupIsShort(states: seq<State>, events: seq<Event>, i: Sid, j: nat, k: nat)
    requires IsRun(states, events) && j <= k <= |events|
    requires i < |states[j].threads| && InCleanup(states[j].threads[i].pc)
    ensures i < |states[k].threads| && InCleanup(states[k].threads[i].pc)
    ensures OwnSteps(events, i, j, k) + CleanupLeft(states[k].threads[i].pc) <= 10
    ensures OwnSteps(events, i, j, k) == 10 ==> states[k].threads[i].pc.Done?
    ensures var s, t := states[k], states[k].threads[i];
            || t.pc.Done?
            || (exists step: HandlerStep :: !step.SendFails? && HandlerEnabled(s, t, step))
            || (s.main.Sweeping? && t.pc.Removing?)
  {
    CleanupStays(states, events, i, j, k);
    CleanupStepIsEnabled(states[k], states[k].threads[i]);
  }

  lemma CleanupStepIsEnabled(s: State, t: Thread)
    requires InCleanup(t.pc)
    ensures || t.pc.Done?
            || (exists step: HandlerStep :: !step.SendFails? && HandlerEnabled(s, t, step))
            || (s.main.Sweeping? && t.pc.Removing?)
  {
    if !t.pc.Done? {
      StepAtIsEnabled(s, t, 0);
    }
  }
}
