/** `apiThemeRuntimeWatcherRuntime`: the theme watcher's run restores the default theme
    before it reports a failure; the launcher may itself consume that report. */
module ThemeWatcher {
  import opened Options

  datatype Runner =
    | NotStarted | Running
    | Returned(result: Option<nat>)
    | CheckFallback(result: Option<nat>)
    | FallingBack(failure: nat)
    | StoreErr(result: Option<nat>)
    | CheckStopping(result: Option<nat>)
    | Sending(failure: nat)
    | CloseFailures | CloseDone | Exited

  datatype Launcher =
    | Building | Starting | Selecting
    | ReadyCheckContext | ReadyPoll
    | AbortStop | AbortCancel | AbortWait
    | ReturnedHandle | ReturnedError

  const STOPPED: nat := 0

  /** The run's own fields. `sent` is the history of the failure channel and `buffer`
      its one slot. A failed fallback joins its own error to the watcher's. */
  datatype Runtime = Runtime(
    runner: Runner, hasFallback: bool, fallbacks: nat, stopping: bool,
    err: Option<nat>, errStored: bool, sent: seq<nat>, buffer: seq<nat>,
    failuresClosed: bool, doneClosed: bool)

  datatype World = World(
    run: Runtime, launcher: Launcher, stopClaimed: bool, runCanceled: bool,
    readyClosed: bool, contextDone: bool)

  datatype Action =
    | Build(ok: bool) | Launch
    | SelectReady | SelectFailure | SelectContext
    | PollFailure | PollDone | PollNothing
    | StopTimedOut
    | OnReady | ContextCancel
    | RunnerReturns(result: Option<nat>)
    | RunnerTick | FallbackEnds(joined: nat)
    | Consume
    | OwnerStop | OwnerCancel

  predicate Init(w: World) {
    && w.run == Runtime(NotStarted, w.run.hasFallback, 0, false, None, false, [], [], false, false)
    && w.launcher == Building && !w.stopClaimed && !w.runCanceled && !w.readyClosed
  }

  predicate CanRun(r: Runtime) {
    !(r.runner.NotStarted? || r.runner.Running? || r.runner.FallingBack? || r.runner.Exited?) &&
    (r.runner.Sending? ==> r.buffer == [])
  }

  /** `case runErr, ok := <-runtime.failures` is ready. */
  predicate FailureReady(r: Runtime) { r.buffer != [] || r.failuresClosed }

  predicate CanLaunch(w: World) {
    match w.launcher
    case Starting | ReadyCheckContext | AbortCancel => true
    case AbortStop => !w.stopClaimed || w.runCanceled
    case AbortWait => w.run.doneClosed
    case _ => false
  }

  predicate Enabled(w: World, a: Action) {
    match a
    case Build(_) => w.launcher.Building?
    case Launch => CanLaunch(w)
    case SelectReady => w.launcher.Selecting? && w.readyClosed
    case SelectFailure => w.launcher.Selecting? && FailureReady(w.run)
    case SelectContext => w.launcher.Selecting? && w.contextDone
    case PollFailure => w.launcher.ReadyPoll? && FailureReady(w.run)
    case PollDone => w.launcher.ReadyPoll? && w.run.doneClosed
    case PollNothing => w.launcher.ReadyPoll? && !FailureReady(w.run) && !w.run.doneClosed
    case StopTimedOut => w.launcher.AbortWait?
    case OnReady => !w.readyClosed
    case ContextCancel => !w.contextDone
    case RunnerReturns(_) => w.run.runner.Running?
    case RunnerTick => CanRun(w.run)
    case FallbackEnds(_) => w.run.runner.FallingBack?
    case Consume => w.launcher.ReturnedHandle? && w.run.buffer != []
    case OwnerStop => w.launcher.ReturnedHandle? && !w.stopClaimed
    case OwnerCancel => w.launcher.ReturnedHandle? && w.stopClaimed && !w.runCanceled
  }

  function RunnerStep(r: Runtime): Runtime
    requires CanRun(r)
  {
    match r.runner
    case Returned(result) =>
      r.(runner := CheckFallback(if result.None? && !r.stopping then Some(STOPPED) else result))
    case CheckFallback(result) =>
      r.(runner := if result.Some? && !r.stopping && r.hasFallback then FallingBack(result.value) else StoreErr(result))
    case StoreErr(result) => r.(runner := CheckStopping(result), err := result, errStored := true)
    case CheckStopping(result) =>
      r.(runner := if result.Some? && !r.stopping then Sending(result.value) else CloseFailures)
    case Sending(f) => r.(runner := CloseFailures, sent := r.sent + [f], buffer := [f])
    case CloseFailures => r.(runner := CloseDone, failuresClosed := true)
    case CloseDone => r.(runner := Exited, doneClosed := true)
  }

  function LaunchStep(w: World): World
    requires Enabled(w, Launch)
  {
    match w.launcher
    case Starting => w.(launcher := Selecting, run := w.run.(runner := Running))
    case ReadyCheckContext => w.(launcher := if w.contextDone then AbortStop else ReadyPoll)
    case AbortStop =>
      if w.stopClaimed then w.(launcher := AbortWait)
      else w.(launcher := AbortCancel, stopClaimed := true, run := w.run.(stopping := true))
    case AbortCancel => w.(launcher := AbortWait, runCanceled := true)
    case AbortWait => w.(launcher := ReturnedError)
  }

  function Step(w: World, a: Action): World
    requires Enabled(w, a)
  {
    match a
    case Build(ok) => w.(launcher := if ok then Starting else ReturnedError)
    case Launch => LaunchStep(w)
    case SelectReady => w.(launcher := ReadyCheckContext)
    case SelectFailure | PollFailure => w.(launcher := AbortStop, run := w.run.(buffer := []))
    case SelectContext => w.(launcher := AbortStop)
    case PollDone => w.(launcher := ReturnedError)
    case PollNothing => w.(launcher := ReturnedHandle)
    case StopTimedOut => w.(launcher := ReturnedError)
    case OnReady => w.(readyClosed := true)
    case ContextCancel => w.(contextDone := true)
    case RunnerReturns(result) => w.(run := w.run.(runner := Returned(result)))
    case RunnerTick => w.(run := RunnerStep(w.run))
    case FallbackEnds(joined) =>
      w.(run := w.run.(runner := StoreErr(Some(joined)), fallbacks := w.run.fallbacks + 1))
    case Consume => w.(run := w.run.(buffer := []))
    case OwnerStop => w.(stopClaimed := true, run := w.run.(stopping := true))
    case OwnerCancel => w.(runCanceled := true)
  }

  ghost predicate Run(w: World, acts: seq<Action>, last: World)
    decreases |acts|
  {
    if acts == [] then w == last
    else Enabled(w, acts[0]) && Run(Step(w, acts[0]), acts[1..], last)
  }

  // ---- invariant ---------------------------------------------------------------------

  predicate Fresh(r: Runtime) {
    r.sent == [] && r.buffer == [] && !r.failuresClosed && !r.doneClosed
  }

  /** The fallback has run, unless there is none or the run was told to stop. */
  predicate FellBack(r: Runtime) { r.fallbacks == 1 || !r.hasFallback || r.stopping }

  predicate Delivered(r: Runtime) {
    || (r.err.Some? && r.sent == [r.err.value] && (r.fallbacks == 1 || !r.hasFallback))
    || (r.sent == [] && r.stopping)
  }

  predicate RuntimeInv(r: Runtime) {
    && r.fallbacks <= 1 && (r.buffer != [] ==> r.buffer == r.sent)
    && match r.runner
       case NotStarted | Running | Returned(_) => Fresh(r) && !r.errStored && r.fallbacks == 0
       case CheckFallback(result) =>
         Fresh(r) && !r.errStored && r.fallbacks == 0 && (r.stopping || result.Some?)
       case FallingBack(_) => Fresh(r) && !r.errStored && r.fallbacks == 0 && r.hasFallback
       case StoreErr(result) =>
         Fresh(r) && !r.errStored && (r.stopping || result.Some?) && FellBack(r)
       case CheckStopping(result) =>
         Fresh(r) && r.errStored && r.err == result && (r.stopping || result.Some?) && FellBack(r)
       case Sending(f) =>
         Fresh(r) && r.errStored && r.err == Some(f) && (r.fallbacks == 1 || !r.hasFallback)
       case CloseFailures => r.errStored && Delivered(r) && !r.failuresClosed && !r.doneClosed
       case CloseDone => r.errStored && Delivered(r) && r.failuresClosed && !r.doneClosed
       case Exited => r.errStored && Delivered(r) && r.failuresClosed && r.doneClosed
  }

  predicate Inv(w: World) {
    && RuntimeInv(w.run) && (w.run.stopping <==> w.stopClaimed) && (w.runCanceled ==> w.stopClaimed)
    && match w.launcher
       case Building | Starting => w.run.runner.NotStarted? && !w.stopClaimed
       // so far nobody has emptied the failure slot
       case Selecting => !w.run.runner.NotStarted? && !w.stopClaimed && w.run.sent == w.run.buffer
       case ReadyCheckContext | ReadyPoll =>
         !w.run.runner.NotStarted? && !w.stopClaimed && w.readyClosed && w.run.sent == w.run.buffer
       case AbortStop => !w.run.runner.NotStarted? && !w.stopClaimed
       case AbortCancel => !w.run.runner.NotStarted? && w.stopClaimed
       case AbortWait => !w.run.runner.NotStarted? && w.runCanceled
       case ReturnedHandle => !w.run.runner.NotStarted? && w.readyClosed
       case ReturnedError => w.run.runner.NotStarted? || w.run.doneClosed || w.runCanceled
  }

  lemma RunnerStepInv(r: Runtime)
    requires RuntimeInv(r) && CanRun(r)
    ensures RuntimeInv(RunnerStep(r))
    ensures RunnerStep(r).stopping == r.stopping && !RunnerStep(r).runner.NotStarted?
    ensures r.doneClosed ==> RunnerStep(r).doneClosed
    ensures r.sent == r.buffer ==> RunnerStep(r).sent == RunnerStep(r).buffer
  {
  }

  lemma StartInv(w: World)
    requires Inv(w) && w.launcher.Starting?
    ensures Inv(Step(w, Launch))
  {
  }

  lemma AbortInv(w: World)
    requires Inv(w) && Enabled(w, Launch) && !w.launcher.Starting?
    ensures Inv(Step(w, Launch))
  {
    StoppingKeepsRuntime(w.run);
  }

  lemma StoppingKeepsRuntime(r: Runtime)
    requires RuntimeInv(r)
    ensures RuntimeInv(r.(stopping := true)) && RuntimeInv(r.(buffer := []))
  {
  }

  predicate ByRunner(a: Action) { a.RunnerTick? || a.RunnerReturns? || a.FallbackEnds? }

  lemma RunnerEndsInv(r: Runtime, result: Option<nat>, joined: nat)
    requires RuntimeInv(r)
    ensures r.runner.Running? ==> RuntimeInv(r.(runner := Returned(result)))
    ensures r.runner.FallingBack? ==> RuntimeInv(r.(runner := StoreErr(Some(joined)), fallbacks := r.fallbacks + 1))
  {
  }

  lemma RunnerInv(w: World, a: Action)
    requires Inv(w) && Enabled(w, a) && ByRunner(a)
    ensures Inv(Step(w, a))
  {
    match a
    case RunnerTick => RunnerStepInv(w.run);
    case RunnerReturns(result) => RunnerEndsInv(w.run, result, 0);
    case FallbackEnds(joined) => RunnerEndsInv(w.run, None, joined);
  }

  lemma OtherInv(w: World, a: Action)
    requires Inv(w) && Enabled(w, a) && !ByRunner(a) && !a.Launch?
    ensures Inv(Step(w, a))
  {
    StoppingKeepsRuntime(w.run);
  }

  lemma StepInv(w: World, a: Action)
    requires Inv(w) && Enabled(w, a)
    ensures Inv(Step(w, a))
  {
    if ByRunner(a) { RunnerInv(w, a); }
    else if !a.Launch? { OtherInv(w, a); }
    else if w.launcher.Starting? { StartInv(w); }
    else { AbortInv(w); }
  }

  lemma {:induction false} RunInv(w: World, acts: seq<Action>, last: World)
    requires Inv(w) && Run(w, acts, last)
    ensures Inv(last)
    decreases |acts|
  {
    if acts != [] {
      StepInv(w, acts[0]);
      RunInv(Step(w, acts[0]), acts[1..], last);
    }
  }

  // ---- main results ---------------------------------------------------------------------

  /** A failure is delivered only after the fallback ran, at most once, equal to Err and
      after it was stored; the channels close in order. */
  lemma FallbackBeforeFailure(w: World, acts: seq<Action>, last: World)
    requires Init(w) && Run(w, acts, last)
    ensures var r := last.run;
            && |r.sent| <= 1 && r.fallbacks <= 1
            && (r.sent != [] ==> r.errStored && r.err == Some(r.sent[0]) && (r.hasFallback ==> r.fallbacks == 1))
            && (r.doneClosed ==> r.failuresClosed)
            && (r.doneClosed && !r.stopping ==> |r.sent| == 1)
  {
    RunInv(w, acts, last);
  }

  /** Every error return leaves the watcher unstarted, finished or told to stop; a
      handle is returned only after readiness. */
  lemma LaunchLeavesNoOrphan(w: World, acts: seq<Action>, last: World)
    requires Init(w) && Run(w, acts, last)
    ensures last.launcher.ReturnedError? ==>
              last.run.runner.NotStarted? || last.run.doneClosed || (last.run.stopping && last.runCanceled)
    ensures last.launcher.ReturnedHandle? ==> last.readyClosed
  {
    RunInv(w, acts, last);
  }

  /** A handle is returned only while no failure has been reported and the run goes on. */
  lemma HandleIsReturnedAlive(w: World, a: Action)
    requires Inv(w) && Enabled(w, a) && !w.launcher.ReturnedHandle? && Step(w, a).launcher.ReturnedHandle?
    ensures w.run.sent == [] && !w.run.doneClosed && !w.run.stopping
  {
    assert a.PollNothing?;
  }

  /** A run that was told to stop before it came to restore the theme does not restore
      it, and reports nothing. */
  predicate Silenced(r: Runtime) {
    && r.stopping && r.fallbacks == 0 && r.sent == [] && !r.runner.FallingBack? && !r.runner.Sending?
  }

  lemma SilencedRunner(r: Runtime)
    requires Silenced(r) && CanRun(r)
    ensures Silenced(RunnerStep(r))
  {
  }

  lemma SilencedStep(w: World, a: Action)
    requires Silenced(w.run) && Enabled(w, a)
    ensures Silenced(Step(w, a).run)
  {
    match a
    case RunnerTick => SilencedRunner(w.run);
    case RunnerReturns(_) | FallbackEnds(_) =>
    case Build(_) | Launch | SelectReady | SelectFailure | SelectContext =>
    case PollFailure | PollDone | PollNothing | StopTimedOut =>
    case OnReady | ContextCancel | Consume | OwnerStop | OwnerCancel =>
  }

  lemma {:induction false} StoppedRunIsSilent(w: World, acts: seq<Action>, last: World)
    requires Silenced(w.run) && Run(w, acts, last)
    ensures Silenced(last.run)
    decreases |acts|
  {
    if acts != [] {
      SilencedStep(w, acts[0]);
      StoppedRunIsSilent(Step(w, acts[0]), acts[1..], last);
    }
  }

  /** The caller was alive when the launcher checked: once its context is done before that
      check, no handle is ever returned. */
  predicate BeforeTheCheck(l: Launcher) { !l.ReadyPoll? && !l.ReturnedHandle? }

  lemma {:induction false} DoneContextMeansNoHandle(w: World, acts: seq<Action>, last: World)
    requires w.contextDone && BeforeTheCheck(w.launcher) && Run(w, acts, last)
    ensures last.contextDone && BeforeTheCheck(last.launcher)
    decreases |acts|
  {
    if acts != [] { DoneContextMeansNoHandle(Step(w, acts[0]), acts[1..], last); }
  }

  lemma UnbuiltStep(w: World, a: Action)
    requires w.run.runner.NotStarted? && w.launcher.ReturnedError? && Enabled(w, a)
    ensures Step(w, a).run.runner.NotStarted? && Step(w, a).launcher.ReturnedError?
  {
    assert a.OnReady? || a.ContextCancel?;
  }

  /** A watcher that cannot be built is never run. */
  lemma {:induction false} UnbuiltIsNeverRun(w: World, acts: seq<Action>, last: World)
    requires w.run.runner.NotStarted? && w.launcher.ReturnedError? && Run(w, acts, last)
    ensures last.run.runner.NotStarted? && last.launcher.ReturnedError?
    decreases |acts|
  {
    if acts != [] {
      UnbuiltStep(w, acts[0]);
      UnbuiltIsNeverRun(Step(w, acts[0]), acts[1..], last);
    }
  }

  lemma FailedBuildStartsNothing(w: World, acts: seq<Action>, last: World)
    requires Init(w) && Run(Step(w, Build(false)), acts, last)
    ensures last.run.runner.NotStarted? && last.launcher.ReturnedError?
  {
    UnbuiltIsNeverRun(Step(w, Build(false)), acts, last);
  }

  /** A failure that the launcher finds when it looks stops the run and no handle comes
      out; if it finds nothing at all, the handle is returned. */
  lemma LastLookDecides(w: World, a: Action)
    requires Inv(w) && w.launcher.ReadyPoll? && Enabled(w, a) && (a.PollFailure? || a.PollDone? || a.PollNothing?)
    ensures Step(w, a).launcher.ReturnedHandle? <==> !FailureReady(w.run) && !w.run.doneClosed
    ensures a.PollFailure? ==> Step(w, a).launcher.AbortStop?
  {
  }

  predicate ByLauncher(a: Action) {
    || a.Build? || a.Launch? || a.SelectReady? || a.SelectFailure? || a.SelectContext?
    || a.PollFailure? || a.PollDone? || a.PollNothing? || a.StopTimedOut?
  }

  function LauncherLeft(l: Launcher): nat {
    match l
    case Building => 9 case Starting => 8 case Selecting => 7 case ReadyCheckContext => 6 case ReadyPoll => 5
    case AbortStop => 4 case AbortCancel => 3 case AbortWait => 2
    case ReturnedHandle | ReturnedError => 0
  }

  /** Every step of the launcher brings it nearer to its return, and once an abort is
      under way, or readiness, a failure or the end of the context is there, it has one. */
  lemma LauncherDescends(w: World, a: Action)
    requires Enabled(w, a) && ByLauncher(a)
    ensures LauncherLeft(Step(w, a).launcher) < LauncherLeft(w.launcher)
  {
    match a
    case Launch =>
      match w.launcher {
        case Starting | ReadyCheckContext | AbortStop | AbortCancel | AbortWait =>
      }
    case _ =>
  }

  lemma LauncherMoves(w: World) returns (a: Action)
    requires Inv(w) && !w.launcher.ReturnedHandle? && !w.launcher.ReturnedError?
    requires w.launcher.Selecting? ==> w.readyClosed || FailureReady(w.run) || w.contextDone
    ensures Enabled(w, a) && ByLauncher(a)
  {
    a := match w.launcher
      case Building => Build(false)
      case Selecting => if w.readyClosed then SelectReady else if w.contextDone then SelectContext else SelectFailure
      case ReadyPoll => if FailureReady(w.run) then PollFailure else if w.run.doneClosed then PollDone else PollNothing
      case AbortWait => StopTimedOut
      case _ => Launch;
  }

  lemma Before(w: World, a: Action, rest: seq<Action>, last: World) returns (acts: seq<Action>)
    requires Enabled(w, a) && Run(Step(w, a), rest, last)
    ensures Run(w, acts, last)
  {
    acts := [a] + rest;
    assert acts[1..] == rest;
  }

  /** A watcher that is built and becomes ready is handed out, if its caller stays. */
  lemma HandleCanBeReturned(w: World) returns (acts: seq<Action>, last: World)
    requires Init(w) && !w.contextDone
    ensures Run(w, acts, last) && last.launcher.ReturnedHandle?
  {
    var w1 := Step(w, Build(true));
    var w2 := Step(w1, Launch);
    var w3 := Step(w2, OnReady);
    acts, last := ReadyIsEnough(w3);
    acts := Before(w2, OnReady, acts, last);
    acts := Before(w1, Launch, acts, last);
    acts := Before(w, Build(true), acts, last);
  }

  lemma ReadyIsEnough(w: World) returns (acts: seq<Action>, last: World)
    requires w.launcher.Selecting? && w.readyClosed && !w.contextDone && !FailureReady(w.run) && !w.run.doneClosed
    ensures Run(w, acts, last) && last.launcher.ReturnedHandle?
  {
    var w1 := Step(w, SelectReady);
    var w2 := Step(w1, Launch);
    last := Step(w2, PollNothing);
    acts := Before(w2, PollNothing, [], last);
    acts := Before(w1, Launch, acts, last);
    acts := Before(w, SelectReady, acts, last);
  }
}
