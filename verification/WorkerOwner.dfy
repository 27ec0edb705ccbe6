/** `workerRuntimeOwner`: the coordinator monitor and any number of Close callers share
    three sync.Once values; a failure may be seen only after the runtime is closed. */
module WorkerOwner {

  datatype Once = Unclaimed | Running(owner: nat) | Finished

  datatype Pc =
    // monitorCoordinator
    | MonitorWait
    | MonitorRuntimeDo(failure: nat) | MonitorRuntimeClosing(failure: nat) | MonitorRuntimeClosed(failure: nat)
    | MonitorSend(failure: nat) | MonitorCloseFailures
    // Close
    | CloseDo | StopCoordinator
    | RuntimeDo | RuntimeClosing | RuntimeClosed
    | GatewayDo | GatewayClosing | GatewayClosed
    | CloseEnd
    | Returned

  /** The coordinator's failure channel. */
  datatype Source = Open | Carrying(failure: nat) | Closed

  datatype Shared = Shared(
    source: Source, runtimeOnce: Once, gatewayOnce: Once, closeOnce: Once,
    runtimeBegun: nat, runtimeEnded: nat, gatewayBegun: nat, gatewayEnded: nat, stops: nat,
    failures: seq<nat>, failuresClosed: bool)

  datatype World = World(shared: Shared, threads: map<nat, Pc>)

  datatype Action = BeginClose(t: nat) | Tick(t: nat) | CoordinatorFails(failure: nat) | CoordinatorEnds

  predicate Init(w: World) {
    && w.shared == Shared(Open, Unclaimed, Unclaimed, Unclaimed, 0, 0, 0, 0, 0, [], false)
    && (w.threads == map[] || exists t :: t in w.threads && w.threads == map[t := MonitorWait])
  }

  predicate CanTick(s: Shared, pc: Pc) {
    match pc
    case MonitorWait => !s.source.Open?
    case MonitorRuntimeDo(_) | RuntimeDo => !s.runtimeOnce.Running?
    case GatewayDo => !s.gatewayOnce.Running?
    case CloseDo => !s.closeOnce.Running?
    case Returned => false
    case _ => true
  }

  predicate Enabled(w: World, a: Action) {
    match a
    case BeginClose(t) => t !in w.threads
    case Tick(t) => t in w.threads && CanTick(w.shared, w.threads[t])
    case CoordinatorFails(_) | CoordinatorEnds => w.shared.source.Open?
  }

  function BeginRuntime(s: Shared, t: nat): Shared {
    s.(runtimeOnce := Running(t), runtimeBegun := s.runtimeBegun + 1)
  }

  function MonitorStep(s: Shared, t: nat, pc: Pc): (Pc, Shared)
    requires MonitorPc(pc) && CanTick(s, pc)
  {
    match pc
    case MonitorWait =>
      (if s.source.Carrying? then MonitorRuntimeDo(s.source.failure) else MonitorCloseFailures, s)
    case MonitorRuntimeDo(f) =>
      if s.runtimeOnce.Unclaimed? then (MonitorRuntimeClosing(f), BeginRuntime(s, t)) else (MonitorSend(f), s)
    case MonitorRuntimeClosing(f) => (MonitorRuntimeClosed(f), s.(runtimeEnded := s.runtimeEnded + 1))
    case MonitorRuntimeClosed(f) => (MonitorSend(f), s.(runtimeOnce := Finished))
    case MonitorSend(f) => (MonitorCloseFailures, s.(failures := s.failures + [f]))
    case MonitorCloseFailures => (Returned, s.(failuresClosed := true))
  }

  function CloseStep(s: Shared, t: nat, pc: Pc): (Pc, Shared)
    requires !MonitorPc(pc) && CanTick(s, pc)
  {
    match pc
    case CloseDo =>
      if s.closeOnce.Unclaimed? then (StopCoordinator, s.(closeOnce := Running(t))) else (Returned, s)
    case StopCoordinator => (RuntimeDo, s.(stops := s.stops + 1))
    case RuntimeDo =>
      if s.runtimeOnce.Unclaimed? then (RuntimeClosing, BeginRuntime(s, t)) else (GatewayDo, s)
    case RuntimeClosing => (RuntimeClosed, s.(runtimeEnded := s.runtimeEnded + 1))
    case RuntimeClosed => (GatewayDo, s.(runtimeOnce := Finished))
    case GatewayDo =>
      if s.gatewayOnce.Unclaimed? then
        (GatewayClosing, s.(gatewayOnce := Running(t), gatewayBegun := s.gatewayBegun + 1))
      else (CloseEnd, s)
    case GatewayClosing => (GatewayClosed, s.(gatewayEnded := s.gatewayEnded + 1))
    case GatewayClosed => (CloseEnd, s.(gatewayOnce := Finished))
    case CloseEnd => (Returned, s.(closeOnce := Finished))
  }

  function ThreadStep(s: Shared, t: nat, pc: Pc): (Pc, Shared)
    requires CanTick(s, pc)
  {
    if MonitorPc(pc) then MonitorStep(s, t, pc) else CloseStep(s, t, pc)
  }

  function Step(w: World, a: Action): World
    requires Enabled(w, a)
  {
    match a
    case BeginClose(t) => w.(threads := w.threads[t := CloseDo])
    case Tick(t) =>
      var (pc, shared) := ThreadStep(w.shared, t, w.threads[t]);
      World(shared, w.threads[t := pc])
    case CoordinatorFails(f) => w.(shared := w.shared.(source := Carrying(f)))
    case CoordinatorEnds => w.(shared := w.shared.(source := Closed))
  }

  ghost predicate Run(w: World, acts: seq<Action>, last: World)
    decreases |acts|
  {
    if acts == [] then w == last
    else Enabled(w, acts[0]) && Run(Step(w, acts[0]), acts[1..], last)
  }

  // ---- invariant ------------------------------------------------------------------

  predicate InRuntime(pc: Pc) {
    pc.MonitorRuntimeClosing? || pc.MonitorRuntimeClosed? || pc.RuntimeClosing? || pc.RuntimeClosed?
  }

  predicate InGateway(pc: Pc) { pc.GatewayClosing? || pc.GatewayClosed? }

  predicate InClose(pc: Pc) {
    || pc.StopCoordinator? || pc.RuntimeDo? || pc.RuntimeClosing? || pc.RuntimeClosed?
    || pc.GatewayDo? || InGateway(pc) || pc.CloseEnd?
  }

  predicate MonitorPc(pc: Pc) {
    || pc.MonitorWait? || pc.MonitorRuntimeDo? || pc.MonitorRuntimeClosing? || pc.MonitorRuntimeClosed?
    || pc.MonitorSend? || pc.MonitorCloseFailures?
  }

  /** Who is inside which Once body, and what it has done there. */
  predicate ThreadInv(s: Shared, t: nat, pc: Pc) {
    && (InRuntime(pc) <==> s.runtimeOnce == Running(t))
    && (InGateway(pc) <==> s.gatewayOnce == Running(t))
    && (InClose(pc) <==> s.closeOnce == Running(t))
    && (pc.MonitorRuntimeClosing? || pc.RuntimeClosing? ==> s.runtimeBegun == 1 && s.runtimeEnded == 0)
    && (pc.MonitorRuntimeClosed? || pc.RuntimeClosed? ==> s.runtimeBegun == 1 && s.runtimeEnded == 1)
    && (pc.MonitorSend? || pc.GatewayDo? || InGateway(pc) || pc.CloseEnd? ==> s.runtimeOnce.Finished?)
    && (pc.GatewayClosing? ==> s.gatewayBegun == 1 && s.gatewayEnded == 0)
    && (pc.GatewayClosed? ==> s.gatewayBegun == 1 && s.gatewayEnded == 1)
    && (pc.CloseEnd? ==> s.gatewayOnce.Finished?)
    && (pc.StopCoordinator? ==> s.stops == 0)
    && (InClose(pc) && !pc.StopCoordinator? ==> s.stops == 1)
    && (MonitorPc(pc) ==> !s.failuresClosed && (s.failures != [] ==> pc.MonitorCloseFailures?))
  }

  predicate SharedInv(s: Shared) {
    && (s.runtimeOnce.Unclaimed? ==> s.runtimeBegun == 0 && s.runtimeEnded == 0)
    && (s.runtimeOnce.Finished? ==> s.runtimeBegun == 1 && s.runtimeEnded == 1)
    && (s.gatewayOnce.Unclaimed? ==> s.gatewayBegun == 0 && s.gatewayEnded == 0)
    && (s.gatewayOnce.Finished? ==> s.gatewayBegun == 1 && s.gatewayEnded == 1)
    && (!s.gatewayOnce.Unclaimed? ==> s.runtimeOnce.Finished?)
    && (s.closeOnce.Unclaimed? ==> s.stops == 0)
    && (s.closeOnce.Finished? ==> s.gatewayOnce.Finished? && s.stops == 1)
    && (s.failures != [] ==> s.runtimeOnce.Finished?)
    && |s.failures| <= 1
  }

  predicate OwnerInv(w: World, o: Once) { o.Running? ==> o.owner in w.threads }

  predicate Inv(w: World) {
    && SharedInv(w.shared)
    && (forall t :: t in w.threads ==> ThreadInv(w.shared, t, w.threads[t]))
    && OwnerInv(w, w.shared.runtimeOnce) && OwnerInv(w, w.shared.gatewayOnce) && OwnerInv(w, w.shared.closeOnce)
    // there is one monitor
    && (forall t, u :: t in w.threads && u in w.threads && MonitorPc(w.threads[t]) && MonitorPc(w.threads[u]) ==> t == u)
  }

  lemma MonitorStepInv(s: Shared, t: nat, pc: Pc)
    requires SharedInv(s) && ThreadInv(s, t, pc) && MonitorPc(pc) && CanTick(s, pc)
    ensures var (pc', s') := MonitorStep(s, t, pc); SharedInv(s') && ThreadInv(s', t, pc')
  {
  }

  lemma CloseStepInv(s: Shared, t: nat, pc: Pc)
    requires SharedInv(s) && ThreadInv(s, t, pc) && !MonitorPc(pc) && CanTick(s, pc)
    ensures var (pc', s') := CloseStep(s, t, pc);
            SharedInv(s') && ThreadInv(s', t, pc') && !MonitorPc(pc')
  {
  }

  /** What a step may change for the others: a free Once is claimed, an own Once is
      finished, and counters move only inside the body they belong to. */
  predicate Guarantees(s: Shared, s': Shared, t: nat, monitor: bool) {
    && OnceMoves(s.runtimeOnce, s'.runtimeOnce, t) && OnceMoves(s.gatewayOnce, s'.gatewayOnce, t)
    && OnceMoves(s.closeOnce, s'.closeOnce, t)
    && (s.runtimeBegun != s'.runtimeBegun || s.runtimeEnded != s'.runtimeEnded ==>
          s.runtimeOnce.Unclaimed? || s.runtimeOnce == Running(t))
    && (s.gatewayBegun != s'.gatewayBegun || s.gatewayEnded != s'.gatewayEnded ==>
          s.gatewayOnce.Unclaimed? || s.gatewayOnce == Running(t))
    && (s.stops != s'.stops ==> s.closeOnce == Running(t))
    && (!monitor ==> s'.failures == s.failures && s'.failuresClosed == s.failuresClosed)
  }

  predicate OnceMoves(o: Once, o': Once, t: nat) {
    o' == o || (o.Unclaimed? && o' == Running(t)) || (o == Running(t) && o'.Finished?)
  }

  lemma StepGuarantees(s: Shared, t: nat, pc: Pc)
    requires ThreadInv(s, t, pc) && CanTick(s, pc)
    ensures Guarantees(s, ThreadStep(s, t, pc).1, t, MonitorPc(pc))
  {
  }

  lemma OthersRely(s: Shared, s': Shared, t: nat, monitor: bool, u: nat, pc: Pc)
    requires ThreadInv(s, u, pc) && Guarantees(s, s', t, monitor) && u != t
    requires monitor ==> !MonitorPc(pc)
    ensures ThreadInv(s', u, pc)
  {
  }

  lemma ThreadStepInv(s: Shared, t: nat, pc: Pc)
    requires SharedInv(s) && ThreadInv(s, t, pc) && CanTick(s, pc)
    ensures var (pc', s') := ThreadStep(s, t, pc);
            && SharedInv(s') && ThreadInv(s', t, pc') && Guarantees(s, s', t, MonitorPc(pc))
            && (MonitorPc(pc') ==> MonitorPc(pc))
  {
    if MonitorPc(pc) { MonitorStepInv(s, t, pc); } else { CloseStepInv(s, t, pc); }
    StepGuarantees(s, t, pc);
  }

  /** Any step within the guarantees keeps what the others rely on. */
  lemma MovedThreads(w: World, t: nat, pc: Pc, s: Shared)
    requires Inv(w) && t in w.threads && ThreadInv(s, t, pc)
    requires Guarantees(w.shared, s, t, MonitorPc(w.threads[t])) && (MonitorPc(pc) ==> MonitorPc(w.threads[t]))
    ensures forall u :: u in w.threads && u != t ==> ThreadInv(s, u, w.threads[u])
  {
    forall u | u in w.threads && u != t ensures ThreadInv(s, u, w.threads[u]) {
      assert ThreadInv(w.shared, u, w.threads[u]);
      OthersRely(w.shared, s, t, MonitorPc(w.threads[t]), u, w.threads[u]);
    }
  }

  lemma TickInv(w: World, t: nat)
    requires Inv(w) && Enabled(w, Tick(t))
    ensures Inv(Step(w, Tick(t)))
  {
    var (pc, s) := ThreadStep(w.shared, t, w.threads[t]);
    assert ThreadInv(w.shared, t, w.threads[t]);
    ThreadStepInv(w.shared, t, w.threads[t]);
    MovedThreads(w, t, pc, s);
    OwnersKept(w, t, pc, s);
  }

  lemma OwnersKept(w: World, t: nat, pc: Pc, s: Shared)
    requires Inv(w) && t in w.threads && Guarantees(w.shared, s, t, MonitorPc(w.threads[t]))
    ensures var w' := World(s, w.threads[t := pc]);
            OwnerInv(w', s.runtimeOnce) && OwnerInv(w', s.gatewayOnce) && OwnerInv(w', s.closeOnce)
  {
  }

  /** The coordinator's channel and a new Close call touch no Once. */
  lemma OutsideInv(w: World, a: Action)
    requires Inv(w) && Enabled(w, a) && !a.Tick?
    ensures Inv(Step(w, a))
  {
    var w' := Step(w, a);
    forall u | u in w'.threads ensures ThreadInv(w'.shared, u, w'.threads[u]) {
      if u in w.threads { assert ThreadInv(w.shared, u, w.threads[u]); }
    }
  }

  lemma StepInv(w: World, a: Action)
    requires Inv(w) && Enabled(w, a)
    ensures Inv(Step(w, a))
  {
    if a.Tick? { TickInv(w, a.t); } else { OutsideInv(w, a); }
  }

  lemma {:induction false} RunInv(w: World, acts: seq<Action>, last: World)
    requires Inv(w) && Run(w, acts, last)
    ensures Inv(last)
    decreases |acts|
  {
    if acts != [] {
      StepInv(w, acts[0]);
      RunInv(Step(w, acts[0]), acts[1..], last);
    }
  }

  // ---- main results --------------------------------------------------------------------

  /** In every interleaving of the monitor and Close: a failure is observable only after
      the runtime's Close returned, the gateway closes only after that too, and each
      of them is closed at most once. */
  lemma CloseBeforeSignal(w: World, acts: seq<Action>, last: World)
    requires Init(w) && Run(w, acts, last)
    ensures last.shared.failures != [] ==> last.shared.runtimeEnded == 1
    ensures last.shared.gatewayBegun > 0 ==> last.shared.runtimeEnded == 1
    ensures last.shared.runtimeBegun <= 1 && last.shared.gatewayBegun <= 1 && last.shared.stops <= 1 && |last.shared.failures| <= 1
    ensures last.shared.runtimeEnded <= last.shared.runtimeBegun && last.shared.gatewayEnded <= last.shared.gatewayBegun
  {
    RunInv(w, acts, last);
    if last.shared.runtimeOnce.Running? {
      assert ThreadInv(last.shared, last.shared.runtimeOnce.owner, last.threads[last.shared.runtimeOnce.owner]);
    }
    if last.shared.gatewayOnce.Running? {
      assert ThreadInv(last.shared, last.shared.gatewayOnce.owner, last.threads[last.shared.gatewayOnce.owner]);
    }
    if last.shared.closeOnce.Running? {
      assert ThreadInv(last.shared, last.shared.closeOnce.owner, last.threads[last.shared.closeOnce.owner]);
    }
  }

  /** What the one monitor `t` has done with the coordinator's failure. */
  predicate Delivering(w: World, t: nat) {
    && t in w.threads && (forall u :: u in w.threads && u != t ==> !MonitorPc(w.threads[u]))
    && match w.threads[t]
       case MonitorWait => w.shared.failures == [] && !w.shared.failuresClosed
       case MonitorRuntimeDo(f) => w.shared.source == Carrying(f) && w.shared.failures == [] && !w.shared.failuresClosed
       case MonitorRuntimeClosing(f) => w.shared.source == Carrying(f) && w.shared.failures == [] && !w.shared.failuresClosed
       case MonitorRuntimeClosed(f) => w.shared.source == Carrying(f) && w.shared.failures == [] && !w.shared.failuresClosed
       case MonitorSend(f) => w.shared.source == Carrying(f) && w.shared.failures == [] && !w.shared.failuresClosed
       case MonitorCloseFailures => Forwarded(w.shared) && !w.shared.failuresClosed
       case Returned => Forwarded(w.shared) && w.shared.failuresClosed
       case _ => false
  }

  /** The failure channel holds exactly the coordinator's failure, if there was one. */
  predicate Forwarded(s: Shared) {
    s.failures == match s.source case Carrying(f) => [f] case _ => []
  }

  lemma DeliveringTick(w: World, t: nat)
    requires Delivering(w, t) && Enabled(w, Tick(t))
    ensures Delivering(Step(w, Tick(t)), t)
  {
    assert MonitorPc(w.threads[t]);
  }

  lemma DeliveringStep(w: World, t: nat, a: Action)
    requires Delivering(w, t) && Enabled(w, a) && a != Tick(t)
    requires !w.threads[t].MonitorWait? ==> !w.shared.source.Open?
    ensures Delivering(Step(w, a), t)
  {
    if a.Tick? { CloserLeavesTheChannel(w.shared, a.t, w.threads[a.t]); }
  }

  lemma CloserLeavesTheChannel(s: Shared, t: nat, pc: Pc)
    requires !MonitorPc(pc) && CanTick(s, pc)
    ensures var (pc', s') := CloseStep(s, t, pc);
            !MonitorPc(pc') && s'.failures == s.failures && s'.failuresClosed == s.failuresClosed && s'.source == s.source
  {
  }

  lemma {:induction false} DeliveringRun(w: World, t: nat, acts: seq<Action>, last: World)
    requires Delivering(w, t) && (!w.threads[t].MonitorWait? ==> !w.shared.source.Open?)
    requires Run(w, acts, last)
    ensures Delivering(last, t) && (!last.threads[t].MonitorWait? ==> !last.shared.source.Open?)
    decreases |acts|
  {
    if acts != [] {
      var v := Step(w, acts[0]);
      if acts[0] == Tick(t) {
        DeliveringTick(w, t);
        SourceStays(w, t);
      } else {
        DeliveringStep(w, t, acts[0]);
        OtherKeepsWaiting(w, t, acts[0]);
      }
      DeliveringRun(v, t, acts[1..], last);
    }
  }

  lemma SourceStays(w: World, t: nat)
    requires t in w.threads && MonitorPc(w.threads[t]) && Enabled(w, Tick(t))
    requires !w.threads[t].MonitorWait? ==> !w.shared.source.Open?
    ensures Step(w, Tick(t)).shared.source == w.shared.source && !w.shared.source.Open?
  {
  }

  lemma OtherKeepsWaiting(w: World, t: nat, a: Action)
    requires Delivering(w, t) && Enabled(w, a) && a != Tick(t)
    requires !w.threads[t].MonitorWait? ==> !w.shared.source.Open?
    ensures var v := Step(w, a);
            t in v.threads && v.threads[t] == w.threads[t] && (!w.shared.source.Open? ==> v.shared.source == w.shared.source)
  {
    if a.Tick? { CloserLeavesTheChannel(w.shared, a.t, w.threads[a.t]); }
  }

  /** When the monitor has returned, the owner's failure channel is closed and has carried
      exactly the coordinator's failure, or nothing if the coordinator just ended. */
  lemma FailureIsDelivered(w: World, t: nat, acts: seq<Action>, last: World)
    requires Init(w) && w.threads == map[t := MonitorWait]
    requires Run(w, acts, last) && t in last.threads && last.threads[t].Returned?
    ensures last.shared.failuresClosed && !last.shared.source.Open?
    ensures last.shared.source.Carrying? ==> last.shared.failures == [last.shared.source.failure]
    ensures last.shared.source.Closed? ==> last.shared.failures == []
  {
    DeliveringRun(w, t, acts, last);
  }

  /** Any Close call that returns, first or later, finds everything closed. */
  lemma CloseReturnsClosed(w: World, t: nat)
    requires Inv(w) && Enabled(w, Tick(t)) && !MonitorPc(w.threads[t])
    requires Step(w, Tick(t)).threads[t].Returned?
    ensures w.shared.runtimeEnded == 1 && w.shared.gatewayEnded == 1 && w.shared.stops == 1
  {
    assert ThreadInv(w.shared, t, w.threads[t]);
  }

  /** Call `t` is a Close, and has returned only after some Close was complete. */
  predicate Closing(w: World, t: nat) {
    t in w.threads && !MonitorPc(w.threads[t]) && (w.threads[t].Returned? ==> w.shared.closeOnce.Finished?)
  }

  lemma ClosingStep(w: World, t: nat, a: Action)
    requires Inv(w) && Closing(w, t) && Enabled(w, a)
    ensures Closing(Step(w, a), t)
  {
    if a.Tick? {
      assert ThreadInv(w.shared, a.t, w.threads[a.t]);
      StepGuarantees(w.shared, a.t, w.threads[a.t]);
    }
  }

  lemma {:induction false} ClosingRun(w: World, t: nat, acts: seq<Action>, last: World)
    requires Inv(w) && Closing(w, t) && Run(w, acts, last)
    ensures Inv(last) && Closing(last, t)
    decreases |acts|
  {
    if acts != [] {
      StepInv(w, acts[0]);
      ClosingStep(w, t, acts[0]);
      ClosingRun(Step(w, acts[0]), t, acts[1..], last);
    }
  }

  /** The same for the whole call: whenever a Close that was begun has returned, the
      coordinator was stopped and the runtime and the gateway are closed. */
  lemma EveryCloseReturnsClosed(w: World, t: nat, acts: seq<Action>, last: World)
    requires Inv(w) && Enabled(w, BeginClose(t)) && Run(Step(w, BeginClose(t)), acts, last)
    requires t in last.threads && last.threads[t].Returned?
    ensures last.shared.runtimeEnded == 1 && last.shared.gatewayEnded == 1 && last.shared.stops == 1
  {
    StepInv(w, BeginClose(t));
    ClosingRun(Step(w, BeginClose(t)), t, acts, last);
  }

  /** A coordinator failure is delivered: from every reachable world in which some
      thread waits, a thread that is not waiting can move. */
  lemma NoDeadlock(w: World, t: nat) returns (u: nat)
    requires Inv(w) && t in w.threads && !w.threads[t].Returned? && !w.threads[t].MonitorWait?
    ensures u in w.threads && Enabled(w, Tick(u))
  {
    u := t;
    if !CanTick(w.shared, w.threads[t]) {
      // Only the Close body reaches the gateway, so its Once is never contended.
      assert ThreadInv(w.shared, t, w.threads[t]);
      u := if w.threads[t].CloseDo? then w.shared.closeOnce.owner else w.shared.runtimeOnce.owner;
      assert ThreadInv(w.shared, u, w.threads[u]);
      if !CanTick(w.shared, w.threads[u]) {
        u := w.shared.runtimeOnce.owner;
        assert ThreadInv(w.shared, u, w.threads[u]);
      }
    }
  }

  /** Every step of a thread brings it nearer to its end. */
  lemma TickDescends(w: World, t: nat)
    requires Enabled(w, Tick(t))
    ensures Left(Step(w, Tick(t)).threads[t]) < Left(w.threads[t])
  {
  }

  function Left(pc: Pc): nat {
    match pc
    case MonitorWait => 7 case MonitorRuntimeDo(_) => 6 case MonitorRuntimeClosing(_) => 5
    case MonitorRuntimeClosed(_) => 4 case MonitorSend(_) => 3 case MonitorCloseFailures => 2
    case CloseDo => 12 case StopCoordinator => 11 case RuntimeDo => 10 case RuntimeClosing => 9
    case RuntimeClosed => 8 case GatewayDo => 7 case GatewayClosing => 6 case GatewayClosed => 5
    case CloseEnd => 4
    case Returned => 0
  }
}
