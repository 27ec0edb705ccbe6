/** `launchPluginRuntimeCoordinator` and the runtime it owns: the launcher, the runner
    goroutine, the coordinator's callbacks, the deadline, the caller's context and a
    later Stop all race. Channels, atomics and Once bodies step one at a time. */
module CoordinatorLaunch {
  import opened Options

  datatype Cause = StartupError(e: nat) | StartupPending | CallerCanceled

  /** What the error of the launch says. */
  datatype Why = NoGenesis | NotBuilt | RunOver | Aborted(cause: Cause)

  datatype Launcher =
    | Genesis | GenesisAccepted | Building | Starting | Selecting
    | ReadyPollErrors | ReadyCheckContext | ReadyCheckDone
    | AbortStop(cause: Cause) | AbortCancel(cause: Cause) | AbortWait(cause: Cause)
    | ReturnedHandle | ReturnedError(why: Why)

  /** `run`: the error is None when the coordinator returned nil. */
  datatype Runner =
    | NotStarted | Running
    | Returned(result: Option<nat>)
    | StoreErr(result: Option<nat>)
    | CheckStopping(result: Option<nat>)
    | Sending(failure: nat)
    | CloseFailures | CloseDone | Exited

  datatype Callback =
    | ReadyCheck | ReadySet | ReadyClose
    | ErrorCheck(e: nat) | ErrorPush(e: nat)
    | CallbackDone

  datatype StopOnce = Idle | Claimed(byLauncher: bool) | Finished

  const STOPPED_BEFORE_READY: nat := 0

  /** The runner and what it publishes: Err, Failures and Done. */
  datatype Output = Output(
    runner: Runner, err: Option<nat>, errStored: bool, failures: seq<nat>, failuresClosed: bool, doneClosed: bool)

  /** The callbacks and the readiness channels. `reportedInTime` is history: some error
      was pushed before the launcher last looked for one; so is `reported`, every error
      pushed so far. */
  datatype Board = Board(
    callbacks: map<nat, Callback>, readyFlag: bool, readyClosed: bool, startupErrors: Option<nat>,
    reportedInTime: bool, reported: set<nat>)

  datatype World = World(
    launcher: Launcher, out: Output, board: Board,
    genesisValid: bool, built: bool, contextDone: bool,
    stop: StopOnce, stopping: bool, runCanceled: bool, deadlinePassed: bool)

  datatype Action =
    | GenesisAnswer(valid: bool)
    | Build(ok: bool)
    | Launch
    | SelectReady | SelectError | SelectDone | SelectDeadline | SelectContext
    | StopTimedOut
    | ContextCancel
    | RunnerReturns(result: Option<nat>)
    | RunnerTick
    | OnReady(t: nat) | OnError(t: nat, e: nat) | CallbackTick(t: nat)
    | OwnerStop | OwnerCancel

  predicate Init(w: World) {
    && w == World(Genesis, Output(NotStarted, None, false, [], false, false), Board(map[], false, false, None, false, {}),
                  false, false, w.contextDone, Idle, false, false, false)
  }

  /** The launcher's own steps: all but genesis, the builder and the select. */
  predicate CanLaunch(w: World) {
    match w.launcher
    case GenesisAccepted | Starting | ReadyPollErrors | ReadyCheckContext | ReadyCheckDone => true
    case AbortStop(_) => !w.stop.Claimed?
    case AbortCancel(_) => true
    case AbortWait(_) => w.out.doneClosed
    case _ => false
  }

  predicate Enabled(w: World, a: Action) {
    match a
    case GenesisAnswer(_) => w.launcher.Genesis?
    case Build(_) => w.launcher.Building?
    case Launch => CanLaunch(w)
    case SelectReady => w.launcher.Selecting? && w.board.readyClosed
    case SelectError => w.launcher.Selecting? && w.board.startupErrors.Some?
    case SelectDone => w.launcher.Selecting? && w.out.doneClosed
    case SelectDeadline => w.launcher.Selecting?
    case SelectContext => w.launcher.Selecting? && w.contextDone
    case StopTimedOut => w.launcher.AbortWait?
    case ContextCancel => !w.contextDone
    case RunnerReturns(_) => w.out.runner.Running?
    case RunnerTick => CanRun(w.out)
    // The builder hands the callbacks out; they may be called from then on.
    case OnReady(t) => t !in w.board.callbacks && (w.built || w.launcher.Building?)
    case OnError(t, _) => t !in w.board.callbacks && (w.built || w.launcher.Building?)
    case CallbackTick(t) => t in w.board.callbacks && !w.board.callbacks[t].CallbackDone?
    case OwnerStop => w.launcher.ReturnedHandle? && w.stop.Idle?
    case OwnerCancel => w.stop == Claimed(false)
  }

  function LaunchStep(w: World): World
    requires Enabled(w, Launch)
  {
    match w.launcher
    case GenesisAccepted => w.(launcher := if w.contextDone then ReturnedError(Aborted(CallerCanceled)) else Building)
    case Starting => w.(launcher := Selecting, out := w.out.(runner := Running))
    case ReadyPollErrors =>
      if w.board.startupErrors.Some? then TakeError(w) else w.(launcher := ReadyCheckContext)
    case ReadyCheckContext => w.(launcher := if w.contextDone then AbortStop(CallerCanceled) else ReadyCheckDone)
    case ReadyCheckDone => w.(launcher := if w.out.doneClosed then ReturnedError(RunOver) else ReturnedHandle)
    case AbortStop(cause) =>
      if w.stop.Idle? then w.(launcher := AbortCancel(cause), stop := Claimed(true), stopping := true)
      else w.(launcher := AbortWait(cause))
    case AbortCancel(cause) => w.(launcher := AbortWait(cause), stop := Finished, runCanceled := true)
    case AbortWait(cause) => w.(launcher := ReturnedError(Aborted(cause)))
  }

  /** The launcher takes the pushed error and aborts. */
  function TakeError(w: World): World
    requires w.board.startupErrors.Some?
  {
    w.(launcher := AbortStop(StartupError(w.board.startupErrors.value)), board := w.board.(startupErrors := None))
  }

  predicate CanRun(o: Output) {
    !(o.runner.NotStarted? || o.runner.Running? || o.runner.Exited?) &&
    // a send into the one-slot channel blocks while it is full
    (o.runner.Sending? ==> o.failures == [])
  }

  function RunnerStep(o: Output, stopping: bool): Output
    requires CanRun(o)
  {
    match o.runner
    case Returned(result) =>
      o.(runner := StoreErr(if result.None? && !stopping then Some(STOPPED_BEFORE_READY) else result))
    case StoreErr(result) => o.(runner := CheckStopping(result), err := result, errStored := true)
    case CheckStopping(result) =>
      o.(runner := if result.Some? && !stopping then Sending(result.value) else CloseFailures)
    case Sending(failure) => o.(runner := CloseFailures, failures := o.failures + [failure])
    case CloseFailures => o.(runner := CloseDone, failuresClosed := true)
    case CloseDone => o.(runner := Exited, doneClosed := true)
  }

  /** The launcher has taken its last look for a startup error and goes on. */
  predicate Looked(l: Launcher) { l.ReadyCheckContext? || l.ReadyCheckDone? || l.ReturnedHandle? }

  function CallbackStep(b: Board, stopping: bool, looked: bool, t: nat): Board
    requires t in b.callbacks && !b.callbacks[t].CallbackDone?
  {
    match b.callbacks[t]
    case ReadyCheck => b.(callbacks := b.callbacks[t := if stopping then CallbackDone else ReadySet])
    case ReadySet =>
      if b.readyFlag then b.(callbacks := b.callbacks[t := CallbackDone])
      else b.(callbacks := b.callbacks[t := ReadyClose], readyFlag := true)
    case ReadyClose => b.(callbacks := b.callbacks[t := CallbackDone], readyClosed := true)
    case ErrorCheck(e) =>
      b.(callbacks := b.callbacks[t := if b.readyFlag || stopping then CallbackDone else ErrorPush(e)])
    case ErrorPush(e) =>
      b.(callbacks := b.callbacks[t := CallbackDone],
         startupErrors := if b.startupErrors.None? then Some(e) else b.startupErrors,
         reportedInTime := b.reportedInTime || !looked, reported := b.reported + {e})
  }

  function Step(w: World, a: Action): World
    requires Enabled(w, a)
  {
    match a
    case GenesisAnswer(valid) =>
      w.(launcher := if valid then GenesisAccepted else ReturnedError(NoGenesis), genesisValid := valid)
    case Build(ok) => w.(launcher := if ok then Starting else ReturnedError(NotBuilt), built := true)
    case Launch => LaunchStep(w)
    case SelectReady => w.(launcher := ReadyPollErrors)
    case SelectError => TakeError(w)
    case SelectDone => w.(launcher := ReturnedError(RunOver))
    case SelectDeadline => w.(launcher := AbortStop(StartupPending), deadlinePassed := true)
    case SelectContext => w.(launcher := AbortStop(CallerCanceled))
    case StopTimedOut => w.(launcher := ReturnedError(Aborted(w.launcher.cause)))
    case ContextCancel => w.(contextDone := true)
    case RunnerReturns(result) => w.(out := w.out.(runner := Returned(result)))
    case RunnerTick => w.(out := RunnerStep(w.out, w.stopping))
    case OnReady(t) => w.(board := w.board.(callbacks := w.board.callbacks[t := ReadyCheck]))
    case OnError(t, e) => w.(board := w.board.(callbacks := w.board.callbacks[t := ErrorCheck(e)]))
    case CallbackTick(t) => w.(board := CallbackStep(w.board, w.stopping, Looked(w.launcher), t))
    case OwnerStop => w.(stop := Claimed(false), stopping := true)
    case OwnerCancel => w.(stop := Finished, runCanceled := true)
  }

  ghost predicate Run(w: World, acts: seq<Action>, last: World)
    decreases |acts|
  {
    if acts == [] then w == last
    else Enabled(w, acts[0]) && Run(Step(w, acts[0]), acts[1..], last)
  }

  // ---- invariant -----------------------------------------------------------------

  predicate Started(w: World) { !w.out.runner.NotStarted? }

  predicate StopInv(w: World) {
    && (w.stopping <==> !w.stop.Idle?) && (w.runCanceled <==> w.stop.Finished?)
    && (w.stop == Claimed(true) <==> w.launcher.AbortCancel?)
    && (w.stop == Claimed(false) ==> w.launcher.ReturnedHandle?)
  }

  predicate LauncherInv(w: World) {
    match w.launcher
    case Genesis => !w.genesisValid && !w.built && !Started(w) && w.stop.Idle?
    case GenesisAccepted | Building => w.genesisValid && !w.built && !Started(w) && w.stop.Idle?
    case Starting => w.genesisValid && w.built && !Started(w) && w.stop.Idle?
    case Selecting => w.genesisValid && Started(w) && w.stop.Idle?
    case ReadyPollErrors => w.genesisValid && Started(w) && w.board.readyClosed && w.stop.Idle?
    case ReadyCheckContext | ReadyCheckDone => w.genesisValid && Started(w) && w.board.readyClosed && w.stop.Idle?
    case AbortStop(_) => w.genesisValid && Started(w) && w.stop.Idle?
    case AbortCancel(_) => w.genesisValid && Started(w)
    case AbortWait(_) => w.genesisValid && Started(w) && w.stop.Finished?
    case ReturnedHandle => w.genesisValid && Started(w) && w.board.readyClosed
    case ReturnedError(_) => Started(w) ==> w.genesisValid && (w.out.doneClosed || w.stop.Finished?)
  }

  /** Some pushed error is still in front of the launcher's look. */
  predicate Waylaid(l: Launcher, pushed: bool) {
    || (pushed && (l.Building? || l.Starting? || l.Selecting? || l.ReadyPollErrors?))
    || l.AbortStop? || l.AbortCancel? || l.AbortWait? || l.ReturnedError?
  }

  /** An error pushed in time is still in the channel until the launcher takes it and
      aborts. */
  predicate ReportInv(w: World) {
    w.board.reportedInTime ==> Waylaid(w.launcher, w.board.startupErrors.Some?)
  }

  predicate RunnerInv(o: Output, stopping: bool) {
    match o.runner
    case NotStarted | Running | Returned(_) =>
      !o.errStored && o.err.None? && o.failures == [] && !o.failuresClosed && !o.doneClosed
    case StoreErr(result) =>
      && !o.errStored && o.err.None? && o.failures == [] && !o.failuresClosed && !o.doneClosed
      && (stopping || result.Some?)
    case CheckStopping(result) =>
      && o.errStored && o.err == result && o.failures == [] && !o.failuresClosed && !o.doneClosed
      && (stopping || result.Some?)
    case Sending(failure) =>
      o.errStored && o.err == Some(failure) && o.failures == [] && !o.failuresClosed && !o.doneClosed
    case CloseFailures => o.errStored && Delivered(o, stopping) && !o.failuresClosed && !o.doneClosed
    case CloseDone => o.errStored && Delivered(o, stopping) && o.failuresClosed && !o.doneClosed
    case Exited => o.errStored && Delivered(o, stopping) && o.failuresClosed && o.doneClosed
  }

  /** At most one failure, equal to Err, and missing only when stopping was asked. */
  predicate Delivered(o: Output, stopping: bool) {
    || (o.err.Some? && o.failures == [o.err.value])
    || (o.failures == [] && stopping)
  }

  ghost predicate OrderInv(w: World) {
    && (Started(w) ==> w.built) && (w.built ==> w.genesisValid)
    && (w.board.callbacks != map[] ==> w.genesisValid && (w.built || w.launcher.Building?))
    && FlagInv(w.board)
  }

  ghost predicate FlagInv(b: Board) {
    && (b.readyClosed ==> b.readyFlag)
    && (forall t :: ClosesReady(b, t) ==> b.readyFlag && !b.readyClosed)
    && (forall t, u :: ClosesReady(b, t) && ClosesReady(b, u) ==> t == u)
  }

  predicate ClosesReady(b: Board, t: nat) { t in b.callbacks && b.callbacks[t].ReadyClose? }

  ghost predicate Inv(w: World) {
    StopInv(w) && LauncherInv(w) && ReportInv(w) && RunnerInv(w.out, w.stopping) && OrderInv(w)
  }

  // One lemma per part of the invariant.

  /** The flags depend on the callbacks that close readiness, and on the two bits. */
  lemma FlagSame(b: Board, b': Board)
    requires FlagInv(b) && b'.readyFlag == b.readyFlag && b'.readyClosed == b.readyClosed
    requires forall t :: ClosesReady(b', t) ==> ClosesReady(b, t)
    ensures FlagInv(b')
  {
  }

  lemma LaunchInv(w: World)
    requires Inv(w) && Enabled(w, Launch)
    ensures StopInv(Step(w, Launch)) && LauncherInv(Step(w, Launch)) && ReportInv(Step(w, Launch))
    ensures OrderInv(Step(w, Launch))
  {
    var w' := LaunchStep(w);
    assert w'.board.callbacks == w.board.callbacks;
    assert forall t :: ClosesReady(w'.board, t) <==> ClosesReady(w.board, t);
    FlagSame(w.board, w'.board);
    match w.launcher
    case GenesisAccepted | Starting =>
    case ReadyPollErrors | ReadyCheckContext | ReadyCheckDone =>
    case AbortStop(_) | AbortCancel(_) | AbortWait(_) =>
  }

  lemma LaunchRunner(w: World)
    requires Inv(w) && Enabled(w, Launch)
    ensures RunnerInv(Step(w, Launch).out, Step(w, Launch).stopping)
  {
    var w' := LaunchStep(w);
    if !w.launcher.Starting? {
      assert w'.out == w.out && (w.stopping ==> w'.stopping);
      StoppingKeepsRunner(w.out, w.stopping, w'.stopping);
    }
  }

  lemma StoppingKeepsRunner(o: Output, before: bool, after: bool)
    requires RunnerInv(o, before) && (before ==> after)
    ensures RunnerInv(o, after)
  {
  }

  /** What no callback takes back. */
  lemma CallbackEffect(b: Board, stopping: bool, looked: bool, t: nat)
    requires t in b.callbacks && !b.callbacks[t].CallbackDone? && FlagInv(b)
    ensures var b' := CallbackStep(b, stopping, looked, t);
            && (b.readyFlag ==> b'.readyFlag) && (b.readyClosed ==> b'.readyClosed)
            && (b.reportedInTime ==> b'.reportedInTime) && (b.startupErrors.Some? ==> b'.startupErrors.Some?)
            && (b'.reportedInTime && !b.reportedInTime ==> !looked && b'.startupErrors.Some?)
            && FlagInv(b') && b'.callbacks != map[]
  {
    FlagKept(b, stopping, looked, t);
  }

  lemma FlagKept(b: Board, stopping: bool, looked: bool, t: nat)
    requires t in b.callbacks && !b.callbacks[t].CallbackDone? && FlagInv(b)
    ensures var b' := CallbackStep(b, stopping, looked, t);
            FlagInv(b') && b'.callbacks != map[]
  {
    var b' := CallbackStep(b, stopping, looked, t);
    assert t in b'.callbacks && b'.callbacks == b.callbacks[t := b'.callbacks[t]];
    forall u | ClosesReady(b', u) && u != t ensures ClosesReady(b, u) {
      assert b'.callbacks[u] == b.callbacks[u];
    }
    assert b.callbacks[t].ReadyClose? ==> ClosesReady(b, t);
  }

  lemma CallbackInv(w: World, t: nat)
    requires Inv(w) && Enabled(w, CallbackTick(t))
    ensures Inv(Step(w, CallbackTick(t)))
  {
    CallbackEffect(w.board, w.stopping, Looked(w.launcher), t);
  }

  lemma RunnerOutcome(o: Output, stopping: bool)
    requires RunnerInv(o, stopping) && CanRun(o)
    ensures var o' := RunnerStep(o, stopping);
            RunnerInv(o', stopping) && !o'.runner.NotStarted? && (o.doneClosed ==> o'.doneClosed)
  {
  }

  lemma RunnerTickInv(w: World)
    requires Inv(w) && Enabled(w, RunnerTick)
    ensures Inv(Step(w, RunnerTick))
  {
    RunnerOutcome(w.out, w.stopping);
  }

  lemma OtherInv(w: World, a: Action)
    requires Inv(w) && Enabled(w, a) && !a.Launch? && !a.CallbackTick? && !a.RunnerTick?
    ensures Inv(Step(w, a))
  {
    var w' := Step(w, a);
    if !a.RunnerReturns? {
      StoppingKeepsRunner(w.out, w.stopping, w'.stopping);
    }
    if a.SelectError? {
      assert forall t :: ClosesReady(w'.board, t) <==> ClosesReady(w.board, t);
      FlagSame(w.board, w'.board);
    }
    if a.OnReady? || a.OnError? {
      forall u | ClosesReady(w'.board, u) ensures ClosesReady(w.board, u) {
        assert u in w.board.callbacks && w'.board.callbacks[u] == w.board.callbacks[u];
      }
      FlagSame(w.board, w'.board);
    }
  }

  lemma StepInv(w: World, a: Action)
    requires Inv(w) && Enabled(w, a)
    ensures Inv(Step(w, a))
  {
    match a
    case Launch => LaunchInv(w); LaunchRunner(w);
    case CallbackTick(t) => CallbackInv(w, t);
    case RunnerTick => RunnerTickInv(w);
    case _ => OtherInv(w, a);
  }

  lemma {:induction false} RunPreserves(p: World -> bool, w: World, acts: seq<Action>, last: World)
    requires Inv(w) && p(w) && Run(w, acts, last)
    requires forall v, a | Inv(v) && p(v) && Enabled(v, a) :: p(Step(v, a))
    ensures Inv(last) && p(last)
    decreases |acts|
  {
    if acts != [] {
      StepInv(w, acts[0]);
      RunPreserves(p, Step(w, acts[0]), acts[1..], last);
    }
  }

  /** What no step takes back, and what only the runner changes. */
  lemma HistoryKept(w: World, a: Action)
    requires Inv(w) && Enabled(w, a)
    ensures var w' := Step(w, a);
            && (w.board.reportedInTime ==> w'.board.reportedInTime) && (w.stopping ==> w'.stopping)
            && (!a.RunnerTick? ==> w'.out.failures == w.out.failures && w'.out.err == w.out.err && w'.out.failuresClosed == w.out.failuresClosed)
            && (!a.RunnerTick? && w'.out.runner.Sending? ==> w.out.runner.Sending?)
            && (a.RunnerTick? && w.out.failuresClosed ==>
                  w'.out.failuresClosed && w'.out.failures == w.out.failures && w'.out.err == w.out.err)
            && (a.RunnerTick? && w.stopping && !w.out.runner.Sending? ==>
                  !w'.out.runner.Sending? && w'.out.failures == w.out.failures)
  {
    if a.CallbackTick? { CallbackEffect(w.board, w.stopping, Looked(w.launcher), a.t); }
  }

  // ---- main results --------------------------------------------------------------------

  /** The builder and the runner never start before a valid genesis. */
  lemma GenesisComesFirst(w: World, acts: seq<Action>, last: World)
    requires Init(w) && Run(w, acts, last)
    ensures last.built || Started(last) || last.board.callbacks != map[] ==> last.genesisValid
  {
    RunPreserves(_ => true, w, acts, last);
  }

  /** Every error return leaves the runner unstarted, finished, or told to stop. */
  lemma ErrorReturnLeavesNoOrphan(w: World, acts: seq<Action>, last: World)
    requires Init(w) && Run(w, acts, last) && last.launcher.ReturnedError?
    ensures !Started(last) || last.out.doneClosed || (last.stopping && last.runCanceled)
  {
    RunPreserves(_ => true, w, acts, last);
  }

  /** An error pushed before the launcher's last look means that no handle is ever
      returned, on any continuation of the run. */
  lemma EarlyErrorMeansNoHandle(w: World, acts: seq<Action>, last: World)
    requires Inv(w) && w.board.reportedInTime && Run(w, acts, last)
    ensures !last.launcher.ReturnedHandle?
  {
    BarredForever(w, acts, last);
  }

  /** No handle can come out of here any more. */
  predicate Barred(w: World) {
    || Waylaid(w.launcher, w.board.startupErrors.Some?)
    || (w.launcher.ReadyCheckContext? && (w.contextDone || w.out.doneClosed))
    || (w.launcher.ReadyCheckDone? && w.out.doneClosed)
  }

  lemma BarredStep(w: World, a: Action)
    requires Inv(w) && Barred(w) && Enabled(w, a)
    ensures Barred(Step(w, a))
  {
    if a.CallbackTick? { CallbackEffect(w.board, w.stopping, Looked(w.launcher), a.t); }
    if a.RunnerTick? { RunnerOutcome(w.out, w.stopping); }
  }

  lemma BarredForever(w: World, acts: seq<Action>, last: World)
    requires Inv(w) && Barred(w) && Run(w, acts, last)
    ensures !last.launcher.ReturnedHandle?
  {
    var p := (v: World) => Barred(v);
    forall v, a | Inv(v) && p(v) && Enabled(v, a) ensures p(Step(v, a)) { BarredStep(v, a); }
    RunPreserves(p, w, acts, last);
  }

  /** Some continuation returns a handle. */
  ghost predicate HandlePossible(w: World) {
    exists acts, last :: Run(w, acts, last) && last.launcher.ReturnedHandle?
  }

  /** What the launcher still has to see, once it has looked for errors. */
  predicate OnlyPassingChecks(w: World) {
    || w.launcher.ReturnedHandle?
    || (w.launcher.ReadyCheckDone? && !w.out.doneClosed)
    || (w.launcher.ReadyCheckContext? && !w.contextDone && !w.out.doneClosed)
  }

  lemma ReturnsNow(w: World)
    requires Inv(w) && OnlyPassingChecks(w)
    ensures HandlePossible(w)
  {
    if w.launcher.ReturnedHandle? {
      assert Run(w, [], w);
    } else if w.launcher.ReadyCheckDone? {
      var last := Step(w, Launch);
      var acts := Before(w, Launch, [], last);
    } else {
      var v := Step(w, Launch);
      var last := Step(v, Launch);
      var acts := Before(v, Launch, [], last);
      acts := Before(w, Launch, acts, last);
    }
  }

  /** A pushed error is lost exactly when the launcher had already looked and nothing
      else stops it: a handle can still be returned after the push if and only if it
      was returned, or only the check of the finished run is left and the run goes on,
      or that and the check of the caller's context are left and both pass. */
  lemma PushedErrorIsLostIff(w: World, t: nat)
    requires Inv(w) && Enabled(w, CallbackTick(t)) && w.board.callbacks[t].ErrorPush?
    ensures HandlePossible(Step(w, CallbackTick(t))) <==> OnlyPassingChecks(w)
  {
    var v := Step(w, CallbackTick(t));
    StepInv(w, CallbackTick(t));
    if OnlyPassingChecks(w) {
      ReturnsNow(v);
    } else {
      assert Barred(v);
      forall acts, last | Run(v, acts, last) ensures !last.launcher.ReturnedHandle? {
        BarredForever(v, acts, last);
      }
    }
  }

  /** A handle is only ever returned ready, with the run not yet over, never stopped
      and no error pushed in time. */
  lemma HandleIsReturnedAlive(w: World, a: Action)
    requires Inv(w) && Enabled(w, a) && !w.launcher.ReturnedHandle?
    requires Step(w, a).launcher.ReturnedHandle?
    ensures w.board.readyClosed && !w.out.doneClosed && !w.stopping && !w.board.reportedInTime && Started(w)
  {
    OnlyTheLauncherReturns(w, a);
    assert w.launcher == ReadyCheckDone;
  }

  /** The launcher has passed its check of the caller's context. */
  predicate ContextChecked(l: Launcher) { l.ReadyCheckDone? || l.ReturnedHandle? }

  /** The caller's context was alive when the launcher checked it: once it is done
      before that check, no handle is ever returned. */
  lemma DoneContextMeansNoHandle(w: World, acts: seq<Action>, last: World)
    requires Inv(w) && w.contextDone && !ContextChecked(w.launcher) && Run(w, acts, last)
    ensures !last.launcher.ReturnedHandle?
  {
    var p := (v: World) => v.contextDone && !ContextChecked(v.launcher);
    forall v, a | Inv(v) && p(v) && Enabled(v, a) ensures p(Step(v, a)) { ContextStep(v, a); }
    RunPreserves(p, w, acts, last);
  }

  lemma ContextStep(w: World, a: Action)
    requires Enabled(w, a) && w.contextDone && !ContextChecked(w.launcher)
    ensures Step(w, a).contextDone && !ContextChecked(Step(w, a).launcher)
  {
    match a
    case Launch => assert ContextChecked(LaunchStep(w).launcher) ==> w.launcher == ReadyCheckContext;
    case _ =>
  }

  lemma OnlyTheLauncherReturns(w: World, a: Action)
    requires Enabled(w, a) && !w.launcher.ReturnedHandle? && Step(w, a).launcher.ReturnedHandle?
    ensures a.Launch? && w.launcher == ReadyCheckDone && !w.out.doneClosed
  {
    if a.Launch? {
      LaunchNext(w);
    } else if ByLauncher(a) {
      SelectReturnsNoHandle(w, a);
    } else {
      StrangersLeaveTheLauncher(w, a);
    }
  }

  /** Where the launcher's own steps lead. */
  predicate Follows(before: Launcher, after: Launcher) {
    match before
    case GenesisAccepted => after.ReturnedError? || after.Building?
    case Starting => after.Selecting?
    case ReadyPollErrors => after.AbortStop? || after.ReadyCheckContext?
    case ReadyCheckContext => after.AbortStop? || after.ReadyCheckDone?
    case ReadyCheckDone => HasReturned(after)
    case AbortStop(_) => after.AbortCancel? || after.AbortWait?
    case AbortCancel(_) => after.AbortWait?
    case AbortWait(_) => after.ReturnedError?
    case _ => false
  }

  lemma LaunchNext(w: World)
    requires Enabled(w, Launch)
    ensures Follows(w.launcher, LaunchStep(w).launcher)
    ensures w.launcher.ReadyCheckDone? ==> (LaunchStep(w).launcher.ReturnedHandle? <==> !w.out.doneClosed)
  {
    match w.launcher
    case GenesisAccepted | Starting =>
    case ReadyPollErrors | ReadyCheckContext | ReadyCheckDone =>
    case AbortStop(_) | AbortCancel(_) | AbortWait(_) =>
  }

  lemma SelectReturnsNoHandle(w: World, a: Action)
    requires Enabled(w, a) && ByLauncher(a) && !a.Launch?
    ensures !Step(w, a).launcher.ReturnedHandle?
  {
    match a
    case GenesisAnswer(_) | Build(_) =>
    case SelectReady | SelectError | SelectDone =>
    case SelectDeadline | SelectContext | StopTimedOut =>
  }

  lemma StrangersLeaveTheLauncher(w: World, a: Action)
    requires Enabled(w, a) && !ByLauncher(a)
    ensures Step(w, a).launcher == w.launcher
  {
    match a
    case ContextCancel | RunnerReturns(_) | RunnerTick =>
    case OnReady(_) | OnError(_, _) | CallbackTick(_) =>
    case OwnerStop | OwnerCancel =>
  }

  /** What has to have happened for the launcher to give up with a cause. */
  predicate CauseOk(w: World, c: Cause) {
    match c
    case StartupError(e) => e in w.board.reported
    case StartupPending => w.deadlinePassed
    case CallerCanceled => w.contextDone
  }

  predicate WhyInv(w: World) {
    && (w.board.startupErrors.Some? ==> w.board.startupErrors.value in w.board.reported)
    && match w.launcher
       case AbortStop(c) => CauseOk(w, c)
       case AbortCancel(c) => CauseOk(w, c)
       case AbortWait(c) => CauseOk(w, c)
       case ReturnedError(why) =>
         (match why
          case NoGenesis => !w.genesisValid && !w.built && !Started(w)
          case NotBuilt => !Started(w)
          case RunOver => w.out.doneClosed
          case Aborted(c) => CauseOk(w, c))
       case _ => true
  }

  lemma LaunchWhy(w: World)
    requires Inv(w) && WhyInv(w) && Enabled(w, Launch)
    ensures WhyInv(Step(w, Launch))
  {
  }

  lemma OtherWhy(w: World, a: Action)
    requires Inv(w) && WhyInv(w) && Enabled(w, a) && !a.Launch?
    ensures WhyInv(Step(w, a))
  {
    if a.CallbackTick? {
      CallbackEffect(w.board, w.stopping, Looked(w.launcher), a.t);
      ReportedGrows(w.board, w.stopping, Looked(w.launcher), a.t);
    }
    if a.RunnerTick? { RunnerOutcome(w.out, w.stopping); }
  }

  lemma ReportedGrows(b: Board, stopping: bool, looked: bool, t: nat)
    requires t in b.callbacks && !b.callbacks[t].CallbackDone?
    ensures var b' := CallbackStep(b, stopping, looked, t);
            && b.reported <= b'.reported
            && (b.startupErrors.Some? ==> b'.startupErrors == b.startupErrors)
            && (b.startupErrors.None? && b'.startupErrors.Some? ==> b'.startupErrors.value in b'.reported)
  {
  }

  /** An error return tells the truth: no genesis was valid, the builder failed, the run
      is over, or the launch was aborted for an error some callback pushed, a deadline
      that passed, or a caller that was gone. */
  lemma ErrorTellsTheTruth(w: World, acts: seq<Action>, last: World)
    requires Init(w) && Run(w, acts, last) && last.launcher.ReturnedError?
    ensures match last.launcher.why
            case NoGenesis => !last.genesisValid && !Started(last)
            case NotBuilt => !Started(last)
            case RunOver => last.out.doneClosed && last.out.errStored
            case Aborted(c) => CauseOk(last, c)
  {
    var p := (v: World) => WhyInv(v);
    forall v, a | Inv(v) && p(v) && Enabled(v, a) ensures p(Step(v, a)) {
      if a.Launch? { LaunchWhy(v); } else { OtherWhy(v, a); }
    }
    RunPreserves(p, w, acts, last);
  }

  /** The first error in the channel is the one an abort reports: later ones never
      displace it. */
  predicate FirstError(w: World, e: nat) {
    match w.launcher
    case Building | Starting | Selecting | ReadyPollErrors => w.board.startupErrors == Some(e)
    case AbortStop(c) => c.StartupError? ==> c.e == e
    case AbortCancel(c) => c.StartupError? ==> c.e == e
    case AbortWait(c) => c.StartupError? ==> c.e == e
    case ReturnedError(why) => why.Aborted? && why.cause.StartupError? ==> why.cause.e == e
    case _ => false
  }

  lemma FirstErrorStep(w: World, e: nat, a: Action)
    requires Inv(w) && FirstError(w, e) && Enabled(w, a)
    ensures FirstError(Step(w, a), e)
  {
    if a.CallbackTick? { ReportedGrows(w.board, w.stopping, Looked(w.launcher), a.t); }
  }

  lemma FirstErrorIsReported(w: World, e: nat, acts: seq<Action>, last: World)
    requires Inv(w) && w.board.startupErrors == Some(e) && Run(w, acts, last)
    requires w.launcher.Building? || w.launcher.Starting? || w.launcher.Selecting? || w.launcher.ReadyPollErrors?
    ensures last.launcher.ReturnedError? && last.launcher.why.Aborted? && last.launcher.why.cause.StartupError? ==>
              last.launcher.why.cause.e == e
    ensures !last.launcher.ReturnedHandle?
  {
    var p := (v: World) => FirstError(v, e);
    forall v, a | Inv(v) && p(v) && Enabled(v, a) ensures p(Step(v, a)) { FirstErrorStep(v, e, a); }
    RunPreserves(p, w, acts, last);
  }

  predicate AbortsWith(l: Launcher, c: Cause) {
    l == AbortStop(c) || l == AbortCancel(c) || l == AbortWait(c) || l == ReturnedError(Aborted(c))
  }

  lemma AbortStep(w: World, c: Cause, a: Action)
    requires AbortsWith(w.launcher, c) && Enabled(w, a)
    ensures AbortsWith(Step(w, a).launcher, c)
  {
    if !ByLauncher(a) { StrangersLeaveTheLauncher(w, a); }
  }

  /** A launch that is aborted for a cause returns that cause, however stopping goes. */
  lemma {:induction false} AbortKeepsItsCause(w: World, c: Cause, acts: seq<Action>, last: World)
    requires AbortsWith(w.launcher, c) && Run(w, acts, last)
    ensures AbortsWith(last.launcher, c)
    decreases |acts|
  {
    if acts != [] {
      AbortStep(w, c, acts[0]);
      AbortKeepsItsCause(Step(w, acts[0]), c, acts[1..], last);
    }
  }

  /** Nothing is built any more: the caller is gone before the builder, or it failed. */
  predicate NeverStarts(w: World) {
    && !Started(w) && !w.launcher.Starting?
    && (|| ((w.launcher.Genesis? || w.launcher.GenesisAccepted?) && w.contextDone && !w.built)
        || w.launcher.ReturnedError?)
  }

  lemma NeverStartsStep(w: World, a: Action)
    requires Inv(w) && NeverStarts(w) && Enabled(w, a)
    ensures NeverStarts(Step(w, a)) && (Step(w, a).built <==> w.built)
  {
  }

  lemma NeverStartsForever(w: World, acts: seq<Action>, last: World)
    requires Inv(w) && NeverStarts(w) && Run(w, acts, last)
    ensures NeverStarts(last) && (last.built <==> w.built)
  {
    var b := w.built;
    var p := (v: World) => NeverStarts(v) && v.built == b;
    forall v, a | Inv(v) && p(v) && Enabled(v, a) ensures p(Step(v, a)) { NeverStartsStep(v, a); }
    RunPreserves(p, w, acts, last);
  }

  /** A caller gone before the genesis was accepted means that nothing is ever built or
      run, and a builder that fails means that nothing is ever run. */
  lemma NothingStartsInVain(w: World, acts: seq<Action>, last: World)
    requires Inv(w)
    ensures (w.launcher.Genesis? || w.launcher.GenesisAccepted?) && w.contextDone && Run(w, acts, last) ==>
              !last.built && !Started(last)
    ensures w.launcher.Building? && Run(Step(w, Build(false)), acts, last) ==>
              !Started(last) && last.launcher == ReturnedError(NotBuilt)
  {
    if (w.launcher.Genesis? || w.launcher.GenesisAccepted?) && w.contextDone && Run(w, acts, last) {
      NeverStartsForever(w, acts, last);
    }
    if w.launcher.Building? && Run(Step(w, Build(false)), acts, last) {
      StepInv(w, Build(false));
      ReturnedStands(Step(w, Build(false)), acts, last);
      NeverStartsForever(Step(w, Build(false)), acts, last);
    }
  }

  predicate HasReturned(l: Launcher) { l.ReturnedHandle? || l.ReturnedError? }

  lemma ReturnedStandsStep(w: World, a: Action)
    requires HasReturned(w.launcher) && Enabled(w, a)
    ensures Step(w, a).launcher == w.launcher
  {
    assert !ByLauncher(a);
    StrangersLeaveTheLauncher(w, a);
  }

  lemma {:induction false} ReturnedStands(w: World, acts: seq<Action>, last: World)
    requires HasReturned(w.launcher) && Run(w, acts, last)
    ensures last.launcher == w.launcher
    decreases |acts|
  {
    if acts != [] {
      ReturnedStandsStep(w, acts[0]);
      ReturnedStands(Step(w, acts[0]), acts[1..], last);
    }
  }

  /** The readiness channel is closed at most once, however many callbacks report it. */
  lemma ReadyIsClosedOnce(w: World, acts: seq<Action>, last: World, t: nat)
    requires Init(w) && Run(w, acts, last) && Enabled(last, CallbackTick(t)) && last.board.callbacks[t].ReadyClose?
    ensures !last.board.readyClosed && last.board.readyFlag
    ensures forall u :: ClosesReady(last.board, u) ==> u == t
  {
    RunPreserves(_ => true, w, acts, last);
    assert ClosesReady(last.board, t);
  }

  /** A callback that comes after stopping, and an error that comes after readiness, do
      nothing at all. */
  predicate Ignored(w: World, t: nat) {
    && t in w.board.callbacks
    && match w.board.callbacks[t]
       case ReadyCheck => w.stopping
       case ErrorCheck(_) => w.stopping || w.board.readyFlag
       case CallbackDone => true
       case _ => false
  }

  lemma IgnoredStep(w: World, t: nat, a: Action)
    requires Inv(w) && Ignored(w, t) && Enabled(w, a)
    ensures Ignored(Step(w, a), t)
    ensures a == CallbackTick(t) ==> Step(w, a) == w.(board := w.board.(callbacks := w.board.callbacks[t := CallbackDone]))
  {
    if a == CallbackTick(t) {
      IgnoredTick(w.board, w.stopping, Looked(w.launcher), t);
    } else {
      OthersLeaveTheCallback(w, t, a);
    }
  }

  lemma IgnoredTick(b: Board, stopping: bool, looked: bool, t: nat)
    requires t in b.callbacks && (b.callbacks[t].ReadyCheck? || b.callbacks[t].ErrorCheck?)
    requires stopping || (b.callbacks[t].ErrorCheck? && b.readyFlag)
    ensures CallbackStep(b, stopping, looked, t) == b.(callbacks := b.callbacks[t := CallbackDone])
  {
  }

  lemma OthersLeaveTheCallback(w: World, t: nat, a: Action)
    requires Inv(w) && t in w.board.callbacks && Enabled(w, a) && a != CallbackTick(t)
    ensures var v := Step(w, a);
            && t in v.board.callbacks && v.board.callbacks[t] == w.board.callbacks[t]
            && (w.stopping ==> v.stopping) && (w.board.readyFlag ==> v.board.readyFlag)
  {
    if a.CallbackTick? { CallbackEffect(w.board, w.stopping, Looked(w.launcher), a.t); }
  }

  lemma LateCallbacksAreIgnored(w: World, t: nat, acts: seq<Action>, last: World)
    requires Inv(w) && Ignored(w, t) && Run(w, acts, last)
    ensures Ignored(last, t)
    ensures Enabled(last, CallbackTick(t)) ==>
              Step(last, CallbackTick(t)) == last.(board := last.board.(callbacks := last.board.callbacks[t := CallbackDone]))
  {
    var p := (v: World) => Ignored(v, t);
    forall v, a | Inv(v) && p(v) && Enabled(v, a) ensures p(Step(v, a)) { IgnoredStep(v, t, a); }
    RunPreserves(p, w, acts, last);
    if Enabled(last, CallbackTick(t)) { IgnoredStep(last, t, CallbackTick(t)); }
  }

  predicate ByLauncher(a: Action) {
    || a.GenesisAnswer? || a.Build? || a.Launch? || a.SelectReady? || a.SelectError? || a.SelectDone?
    || a.SelectDeadline? || a.SelectContext? || a.StopTimedOut?
  }

  function LauncherLeft(l: Launcher): nat {
    match l
    case Genesis => 12 case GenesisAccepted => 11 case Building => 10 case Starting => 9 case Selecting => 8
    case ReadyPollErrors => 7 case ReadyCheckContext => 6 case ReadyCheckDone => 5
    case AbortStop(_) => 4 case AbortCancel(_) => 3 case AbortWait(_) => 2
    case ReturnedHandle | ReturnedError(_) => 0
  }

  /** The launcher always returns: whatever the run, the callbacks and the caller do, it
      has a step of its own, by its deadlines if by nothing else, and each one brings it
      nearer to its return. */
  lemma LauncherReturns(w: World) returns (a: Action)
    requires Inv(w) && !HasReturned(w.launcher)
    ensures Enabled(w, a) && ByLauncher(a)
  {
    a := match w.launcher
      case Genesis => GenesisAnswer(false)
      case Building => Build(false)
      case Selecting => SelectDeadline
      case AbortWait(_) => StopTimedOut
      case _ => Launch;
  }

  lemma LauncherDescends(w: World, a: Action)
    requires Enabled(w, a) && ByLauncher(a)
    ensures LauncherLeft(Step(w, a).launcher) < LauncherLeft(w.launcher)
  {
    if a.Launch? { LaunchNext(w); }
  }

  /** Failures carries at most one value, equal to Err and published after it; Done
      closes after Failures, which closes after the value was sent. */
  lemma AtMostOneFailureInOrder(w: World, acts: seq<Action>, last: World)
    requires Init(w) && Run(w, acts, last)
    ensures |last.out.failures| <= 1
    ensures last.out.failures != [] ==> last.out.errStored && last.out.err == Some(last.out.failures[0])
    ensures last.out.failuresClosed ==> last.out.errStored
    ensures last.out.doneClosed ==> last.out.failuresClosed
    ensures last.out.doneClosed && !last.stopping ==> |last.out.failures| == 1
  {
    RunPreserves(_ => true, w, acts, last);
  }

  /** The runner has not yet looked at `stopping` for its failure. */
  predicate Undecided(r: Runner) {
    r.NotStarted? || r.Running? || r.Returned? || r.StoreErr? || r.CheckStopping?
  }

  /** No failure is delivered if stopping was set before the runner returned, or even
      before it came to deliver. */
  lemma StoppedRunIsSilent(w: World, acts: seq<Action>, last: World)
    requires Inv(w) && w.stopping && Undecided(w.out.runner) && Run(w, acts, last)
    ensures last.out.failures == []
  {
    var p := (v: World) => v.stopping && v.out.failures == [] && !v.out.runner.Sending?;
    forall v, a | Inv(v) && p(v) && Enabled(v, a) ensures p(Step(v, a)) { HistoryKept(v, a); }
    RunPreserves(p, w, acts, last);
  }

  /** After Close of the failure channel nothing is ever sent on it again. */
  lemma NothingAfterClose(w: World, acts: seq<Action>, last: World)
    requires Inv(w) && w.out.failuresClosed && Run(w, acts, last)
    ensures last.out.failuresClosed && last.out.failures == w.out.failures && last.out.err == w.out.err
  {
    var p := (v: World) => v.out.failuresClosed && v.out.failures == w.out.failures && v.out.err == w.out.err;
    forall v, a | Inv(v) && p(v) && Enabled(v, a) ensures p(Step(v, a)) { HistoryKept(v, a); }
    RunPreserves(p, w, acts, last);
  }

  /** The runner always reaches the end of `run` once the coordinator returns. */
  lemma RunnerNeverBlocks(w: World)
    requires Inv(w) && Started(w) && !w.out.runner.Running? && !w.out.runner.Exited?
    ensures Enabled(w, RunnerTick)
    ensures RunnerLeft(Step(w, RunnerTick).out.runner) < RunnerLeft(w.out.runner)
  {
  }

  function RunnerLeft(r: Runner): nat {
    match r
    case NotStarted => 8 case Running => 7 case Returned(_) => 6 case StoreErr(_) => 5
    case CheckStopping(_) => 4 case Sending(_) => 3 case CloseFailures => 2 case CloseDone => 1
    case Exited => 0
  }

  /** Such a loss is reachable: a callback tests `ready` in time and pushes only after
      the launcher's last look, and the handle is returned. */
  lemma LatePushIsLost(w: World) returns (acts: seq<Action>, last: World)
    requires Init(w) && !w.contextDone
    ensures Run(w, acts, last)
    ensures last.launcher.ReturnedHandle? && last.board.startupErrors == Some(7)
  {
    var w1 := Step(w, GenesisAnswer(true));
    var w2 := Step(w1, Launch);
    var w3 := Step(w2, Build(true));
    var w4 := Step(w3, Launch);
    acts, last := LatePushFromStart(w4);
    acts := Before(w3, Launch, acts, last);
    acts := Before(w2, Build(true), acts, last);
    acts := Before(w1, Launch, acts, last);
    acts := Before(w, GenesisAnswer(true), acts, last);
  }

  lemma LatePushFromStart(w: World) returns (acts: seq<Action>, last: World)
    requires w.launcher == Selecting && w.built && w.board.callbacks == map[] && !w.board.readyFlag && !w.stopping
    requires !w.contextDone && !w.out.doneClosed && w.board.startupErrors.None?
    ensures Run(w, acts, last)
    ensures last.launcher.ReturnedHandle? && last.board.startupErrors == Some(7)
  {
    var w1 := Step(w, OnError(0, 7));
    var w2 := Step(w1, CallbackTick(0));
    var w3 := Step(w2, OnReady(1));
    var w4 := Step(w3, CallbackTick(1));
    var w5 := Step(w4, CallbackTick(1));
    var w6 := Step(w5, CallbackTick(1));
    acts, last := LatePushAfterReady(w6);
    acts := Before(w5, CallbackTick(1), acts, last);
    acts := Before(w4, CallbackTick(1), acts, last);
    acts := Before(w3, CallbackTick(1), acts, last);
    acts := Before(w2, OnReady(1), acts, last);
    acts := Before(w1, CallbackTick(0), acts, last);
    acts := Before(w, OnError(0, 7), acts, last);
  }

  lemma LatePushAfterReady(w: World) returns (acts: seq<Action>, last: World)
    requires w.launcher == Selecting && w.board.readyClosed && 0 in w.board.callbacks && w.board.callbacks[0] == ErrorPush(7)
    requires !w.contextDone && !w.out.doneClosed && w.board.startupErrors.None?
    ensures Run(w, acts, last)
    ensures last.launcher.ReturnedHandle? && last.board.startupErrors == Some(7)
  {
    var w1 := Step(w, SelectReady);
    var w2 := Step(w1, Launch);
    var w3 := Step(w2, CallbackTick(0));
    var w4 := Step(w3, Launch);
    last := Step(w4, Launch);
    acts := Before(w4, Launch, [], last);
    acts := Before(w3, Launch, acts, last);
    acts := Before(w2, CallbackTick(0), acts, last);
    acts := Before(w1, Launch, acts, last);
    acts := Before(w, SelectReady, acts, last);
  }

  lemma Before(w: World, a: Action, rest: seq<Action>, last: World) returns (acts: seq<Action>)
    requires Enabled(w, a) && Run(Step(w, a), rest, last)
    ensures Run(w, acts, last)
  {
    acts := [a] + rest;
    assert acts[1..] == rest;
  }
}
