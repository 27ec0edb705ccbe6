/** `routeV2StreamSession`: terminal and cancellation race through one sync.Once.
    Every lock-protected section, wire call and Once transition is one labelled step
    of some thread; any number of operations run at the same time. */
module StreamSession {
  import opened Options
  import opened StreamErrors

  datatype Phase = Active | Terminal | Canceled

  datatype Response = Response(status: int, headers: nat)

  /** The session's fields, and the effects it has had on its surroundings.
      `leaseCause` is the cause of the lease context, None while it is alive. */
  datatype Shared = Shared(
    phase: Phase, response: Option<Response>, cause: Option<Error>,
    doneCloses: nat, leaseReleases: nat, wireCancels: nat, leaseCause: Option<Error>)

  // ---- the atomic sections of the session ---------------------------------

  function PublishTerminal(s: Shared, r: Response): Shared {
    s.(phase := Terminal, response := Some(r), cause := None)
  }

  function PublishCanceled(s: Shared, cause: Error): Shared {
    s.(phase := Canceled, cause := Some(cause), response := None)
  }

  function CancelWireOf(s: Shared): Shared { s.(wireCancels := s.wireCancels + 1) }

  /** Releasing the lease cancels its context with a nil cause. */
  function ReleaseLeaseOf(s: Shared): Shared {
    s.(leaseReleases := s.leaseReleases + 1,
       leaseCause := if s.leaseCause.Some? then s.leaseCause else Some(Leaf(ContextCanceled)))
  }

  function CloseDoneOf(s: Shared): Shared { s.(doneCloses := s.doneCloses + 1) }

  function CanceledCause(s: Shared): Option<Error> {
    if s.phase != Canceled then None
    else if s.cause.Some? then s.cause else Some(Leaf(ContextCanceled))
  }

  function ResponseOf(s: Shared): Option<Response> {
    if s.phase == Terminal then s.response else None
  }

  /** The cause the cancelling Once body publishes. */
  function CapturedCause(s: Shared, cause: Option<Error>): Error {
    Classify(if cause.Some? then cause.value
             else if s.leaseCause.Some? then s.leaseCause.value
             else Leaf(ContextCanceled))
  }

  /** What `completeOperationFailure(failure)` answers once the session has a winner. */
  function Provenance(winner: Option<Error>, failure: Error): Error {
    if HostOwned(winner) then Classify(winner.value) else failure
  }

  // ---- threads -------------------------------------------------------------

  datatype Once = Unclaimed | Running(owner: nat) | Finished

  datatype Result = Ok | Received | Eof | Failed(error: Error)

  /** What a caller of `completeCancel` does when it returns. */
  datatype Goal = ReturnUnit | ReturnFailure(failure: Error) | ReturnOperation(failure: Error)

  datatype Pc =
    | SendCheck | SendWire
    | CloseCheck | CloseWire | CloseRecheck(error: Error) | CloseTerminal(error: Error)
    | RecvCheck | RecvWire | RecvTerminal
    | CancelDo(requested: Option<Error>, goal: Goal)
    | CancelCapture(requested: Option<Error>, goal: Goal)
    | CancelPublish(captured: Error, goal: Goal)
    | CancelWire(goal: Goal) | CancelRelease(goal: Goal) | CancelDone(goal: Goal) | CancelEnd(goal: Goal)
    | TerminalDo(response: Response) | TerminalPublish(response: Response)
    | TerminalRelease | TerminalDone | TerminalEnd
    | TerminalReadPhase | TerminalReadCause
    | ReadWinner(failure: Error)
    | Returned(result: Result)

  datatype World = World(
    expected: int, once: Once, shared: Shared, threads: map<nat, Pc>, armed: bool)

  datatype Call = Send | CloseRequest | Recv | Cancel(cause: Option<Error>)

  /** What the environment answers to a wire call. */
  datatype Env = Quiet | WireOk | WireFailed(error: Error) | WireTerminal(response: Option<Response>)

  datatype Action =
    | Begin(t: nat, call: Call)
    | CancelLease(cause: Error)
    | FireArmed(t: nat)
    | Tick(t: nat, env: Env)

  /** newRouteV2StreamSession followed by arm. */
  predicate Init(w: World) {
    && w.once == Unclaimed && w.threads == map[] && w.armed
    && w.shared == Shared(Active, None, None, 0, 0, 0, None)
  }

  function FirstPc(call: Call): Pc {
    match call
    case Send => SendCheck
    case CloseRequest => CloseCheck
    case Recv => RecvCheck
    case Cancel(cause) => CancelDo(ClassifyOption(cause), ReturnUnit)
  }

  /** A thread waits at the Once only while another one runs its body. */
  predicate CanTick(w: World, pc: Pc, env: Env) {
    match pc
    case SendWire | CloseWire | RecvWire => env.WireOk? || env.WireFailed?
    case CloseTerminal(_) | RecvTerminal => env.WireTerminal?
    case CancelDo(_, _) | TerminalDo(_) => env.Quiet? && !w.once.Running?
    case Returned(_) => false
    case _ => env.Quiet?
  }

  predicate Enabled(w: World, a: Action) {
    match a
    case Begin(t, _) => t !in w.threads
    case CancelLease(_) => w.shared.leaseCause.None?
    case FireArmed(t) => t !in w.threads && w.armed && w.shared.leaseCause.Some?
    case Tick(t, env) => t in w.threads && CanTick(w, w.threads[t], env)
  }

  function Fail(err: Error): Pc {
    CancelDo(Some(Classify(err)), ReturnOperation(Classify(err)))
  }

  function MissingTerminalFailure(): Error {
    WithIncident(Leaf(RuntimeTarget), MissingTerminal)
  }

  function StatusDriftFailure(): Error { Wrapped(Leaf(RuntimeTarget)) }

  function After(goal: Goal): Pc {
    match goal
    case ReturnUnit => Returned(Ok)
    case ReturnFailure(failure) => Returned(Failed(failure))
    case ReturnOperation(failure) => ReadWinner(failure)
  }

  /** `if cause, canceled := canceledCause(); canceled { return classify(cause) }` */
  function Guarded(s: Shared, next: Pc): Pc {
    var c := CanceledCause(s);
    if c.Some? then Returned(Failed(Classify(c.value))) else next
  }

  /** The next program point of a thread that is not inside the Once body. */
  function NextPc(w: World, pc: Pc, env: Env): Pc
    requires CanTick(w, pc, env) && !InBody(pc)
  {
    match pc
    case SendCheck => Guarded(w.shared, SendWire)
    case SendWire => if env.WireFailed? then Fail(env.error) else Returned(Ok)
    case CloseCheck => Guarded(w.shared, CloseWire)
    case CloseWire => if env.WireFailed? then CloseRecheck(env.error) else Returned(Ok)
    case CloseRecheck(error) =>
      var c := CanceledCause(w.shared);
      if c.Some? && HostOwned(c) then Returned(Failed(Classify(c.value))) else CloseTerminal(error)
    case CloseTerminal(error) =>
      if env.response.Some? && env.response.value.status == w.expected then Returned(Ok) else Fail(error)
    case RecvCheck => Guarded(w.shared, RecvWire)
    case RecvWire =>
      if env.WireOk? then Returned(Received)
      else if Is(env.error, EndOfFile) then RecvTerminal
      else Fail(env.error)
    case RecvTerminal =>
      if env.response.None? then
        CancelDo(Some(MissingTerminalFailure()), ReturnFailure(MissingTerminalFailure()))
      else if env.response.value.status != w.expected then
        CancelDo(Some(StatusDriftFailure()), ReturnFailure(StatusDriftFailure()))
      else TerminalDo(env.response.value)
    case CancelDo(requested, goal) =>
      if w.once.Unclaimed? then CancelCapture(requested, goal) else After(goal)
    case TerminalDo(r) => if w.once.Unclaimed? then TerminalPublish(r) else TerminalReadPhase
    case TerminalReadPhase =>
      if w.shared.phase == Terminal then Returned(Eof) else TerminalReadCause
    case TerminalReadCause =>
      // Classifying a nil cause would return a nil error, that is, a received chunk.
      if w.shared.cause.Some? then Returned(Failed(Classify(w.shared.cause.value))) else Returned(Received)
    case ReadWinner(failure) => Returned(Failed(Provenance(w.shared.cause, failure)))
  }

  predicate InBody(pc: Pc) {
    || pc.CancelCapture? || pc.CancelPublish? || pc.CancelWire? || pc.CancelRelease?
    || pc.CancelDone? || pc.CancelEnd?
    || pc.TerminalPublish? || pc.TerminalRelease? || pc.TerminalDone? || pc.TerminalEnd?
  }

  /** The Once body, one effect at a time. */
  function BodyStep(w: World, pc: Pc): (Pc, Once, Shared)
    requires InBody(pc)
  {
    match pc
    case CancelCapture(requested, goal) =>
      (CancelPublish(CapturedCause(w.shared, requested), goal), w.once, w.shared)
    case CancelPublish(captured, goal) => (CancelWire(goal), w.once, PublishCanceled(w.shared, captured))
    case CancelWire(goal) => (CancelRelease(goal), w.once, CancelWireOf(w.shared))
    case CancelRelease(goal) => (CancelDone(goal), w.once, ReleaseLeaseOf(w.shared))
    case CancelDone(goal) => (CancelEnd(goal), w.once, CloseDoneOf(w.shared))
    case CancelEnd(goal) => (After(goal), Finished, w.shared)
    case TerminalPublish(r) => (TerminalRelease, w.once, PublishTerminal(w.shared, r))
    case TerminalRelease => (TerminalDone, w.once, ReleaseLeaseOf(w.shared))
    case TerminalDone => (TerminalEnd, w.once, CloseDoneOf(w.shared))
    case TerminalEnd => (Returned(Eof), Finished, w.shared)
  }

  function TickStep(w: World, t: nat, env: Env): World
    requires Enabled(w, Tick(t, env))
  {
    var pc := w.threads[t];
    if InBody(pc) then
      var (next, once, shared) := BodyStep(w, pc);
      w.(threads := w.threads[t := next], once := once, shared := shared)
    else
      var claims := (pc.CancelDo? || pc.TerminalDo?) && w.once.Unclaimed?;
      w.(threads := w.threads[t := NextPc(w, pc, env)], once := if claims then Running(t) else w.once)
  }

  function Step(w: World, a: Action): World
    requires Enabled(w, a)
  {
    match a
    case Begin(t, call) => w.(threads := w.threads[t := FirstPc(call)])
    case CancelLease(cause) => w.(shared := w.shared.(leaseCause := Some(cause)))
    case FireArmed(t) =>
      w.(threads := w.threads[t := CancelDo(Some(Classify(w.shared.leaseCause.value)), ReturnUnit)],
         armed := false)
    case Tick(t, env) => TickStep(w, t, env)
  }

  ghost predicate Run(w: World, acts: seq<Action>, last: World)
    decreases |acts|
  {
    if acts == [] then w == last
    else Enabled(w, acts[0]) && Run(Step(w, acts[0]), acts[1..], last)
  }

  // ---- the inductive invariant ---------------------------------------------

  /** Nothing has happened to the session yet. */
  predicate Untouched(s: Shared) {
    s.phase == Active && s.response.None? && s.cause.None? &&
    s.doneCloses == 0 && s.leaseReleases == 0 && s.wireCancels == 0
  }

  predicate PublishedCanceled(s: Shared) {
    s.phase == Canceled && s.cause.Some? && s.response.None?
  }

  predicate PublishedTerminal(s: Shared, expected: int) {
    s.phase == Terminal && s.cause.None? && s.response.Some? && s.response.value.status == expected
  }

  predicate Effects(s: Shared, wire: nat, lease: nat, done: nat) {
    s.wireCancels == wire && s.leaseReleases == lease && s.doneCloses == done
  }

  /** What the runner of the Once body has done before it reaches `pc`. */
  predicate BodyInv(w: World, pc: Pc)
    requires InBody(pc)
  {
    match pc
    case CancelCapture(_, _) | CancelPublish(_, _) => Untouched(w.shared)
    case CancelWire(_) => PublishedCanceled(w.shared) && Effects(w.shared, 0, 0, 0)
    case CancelRelease(_) => PublishedCanceled(w.shared) && Effects(w.shared, 1, 0, 0)
    case CancelDone(_) => PublishedCanceled(w.shared) && Effects(w.shared, 1, 1, 0)
    case CancelEnd(_) => PublishedCanceled(w.shared) && Effects(w.shared, 1, 1, 1)
    case TerminalPublish(r) => Untouched(w.shared) && r.status == w.expected
    case TerminalRelease => PublishedTerminal(w.shared, w.expected) && Effects(w.shared, 0, 0, 0)
    case TerminalDone => PublishedTerminal(w.shared, w.expected) && Effects(w.shared, 0, 1, 0)
    case TerminalEnd => PublishedTerminal(w.shared, w.expected) && Effects(w.shared, 0, 1, 1)
  }

  predicate Settled(w: World) {
    || (PublishedCanceled(w.shared) && Effects(w.shared, 1, 1, 1))
    || (PublishedTerminal(w.shared, w.expected) && Effects(w.shared, 0, 1, 1))
  }

  /** What holds of a thread outside the Once body. */
  predicate ThreadInv(w: World, pc: Pc)
    requires !InBody(pc)
  {
    match pc
    case TerminalDo(r) => r.status == w.expected
    case TerminalReadPhase | ReadWinner(_) => w.once.Finished?
    case TerminalReadCause => w.once.Finished? && w.shared.phase == Canceled
    case Returned(result) => result.Eof? ==> w.once.Finished? && w.shared.phase == Terminal
    case _ => true
  }

  predicate Inv(w: World) {
    && (match w.once
        case Unclaimed => Untouched(w.shared)
        case Running(t) => t in w.threads && InBody(w.threads[t]) && BodyInv(w, w.threads[t])
        case Finished => Settled(w))
    && (forall t :: t in w.threads ==>
          if InBody(w.threads[t]) then w.once == Running(t) else ThreadInv(w, w.threads[t]))
    && (w.shared.leaseReleases > 0 ==> w.shared.leaseCause.Some?)
  }

  lemma InitInv(w: World)
    requires Init(w)
    ensures Inv(w)
  {
  }

  /** What a thread waits for does not go away: Finished and the phase are final. */
  lemma ThreadInvKept(w: World, w': World, pc: Pc)
    requires !InBody(pc) && ThreadInv(w, pc) && w'.expected == w.expected
    requires w.once.Finished? ==> w'.once.Finished? && w'.shared.phase == w.shared.phase
    ensures ThreadInv(w', pc)
  {
  }

  lemma BodyTickInv(w: World, t: nat, env: Env)
    requires Inv(w) && Enabled(w, Tick(t, env)) && InBody(w.threads[t])
    ensures Inv(Step(w, Tick(t, env)))
  {
    var pc := w.threads[t];
    var w' := Step(w, Tick(t, env));
    assert w.once == Running(t) && BodyInv(w, pc);
    var (next, once, shared) := BodyStep(w, pc);
    if InBody(next) {
      assert BodyInv(w', next);
    } else {
      assert w'.once == Finished && Settled(w') && ThreadInv(w', next);
    }
    forall u | u in w'.threads && u != t
      ensures !InBody(w'.threads[u]) && ThreadInv(w', w'.threads[u])
    {
      assert u in w.threads && w'.threads[u] == w.threads[u];
      ThreadInvKept(w, w', w.threads[u]);
    }
  }

  lemma NextPcInv(w: World, pc: Pc, env: Env)
    requires Inv(w) && CanTick(w, pc, env) && !InBody(pc) && ThreadInv(w, pc)
    ensures var next := NextPc(w, pc, env);
            if InBody(next) then w.once.Unclaimed? && (pc.CancelDo? || pc.TerminalDo?) &&
                                 (next.CancelCapture? || (next.TerminalPublish? && next.response.status == w.expected))
            else ThreadInv(w, next) && !(w.once.Unclaimed? && (pc.CancelDo? || pc.TerminalDo?))
  {
  }

  lemma FreeTickInv(w: World, t: nat, env: Env)
    requires Inv(w) && Enabled(w, Tick(t, env)) && !InBody(w.threads[t])
    ensures Inv(Step(w, Tick(t, env)))
  {
    var pc := w.threads[t];
    var w' := Step(w, Tick(t, env));
    NextPcInv(w, pc, env);
    assert w'.threads[t] == NextPc(w, pc, env) && w'.shared == w.shared;
    forall u | u in w'.threads
      ensures if InBody(w'.threads[u]) then w'.once == Running(u) else ThreadInv(w', w'.threads[u])
    {
      if u != t {
        assert u in w.threads && w'.threads[u] == w.threads[u];
        if !InBody(w.threads[u]) { ThreadInvKept(w, w', w.threads[u]); }
      } else if !InBody(w'.threads[t]) {
        ThreadInvKept(w, w', w'.threads[t]);
      }
    }
  }

  lemma TickInv(w: World, t: nat, env: Env)
    requires Inv(w) && Enabled(w, Tick(t, env))
    ensures Inv(Step(w, Tick(t, env)))
  {
    if InBody(w.threads[t]) { BodyTickInv(w, t, env); } else { FreeTickInv(w, t, env); }
  }

  lemma StepInv(w: World, a: Action)
    requires Inv(w) && Enabled(w, a)
    ensures Inv(Step(w, a))
  {
    if a.Tick? { TickInv(w, a.t, a.env); }
  }

  /** Induction over runs: what every step keeps, every run keeps. */
  lemma {:induction false} RunPreserves(p: World -> bool, w: World, acts: seq<Action>, last: World)
    requires Inv(w) && p(w) && Run(w, acts, last)
    requires forall v, a | Inv(v) && p(v) && Enabled(v, a) :: p(Step(v, a))
    ensures Inv(last) && p(last)
    decreases |acts|
  {
    if acts != [] {
      StepInv(w, acts[0]);
      RunPreserves(p, Step(w, acts[0]), acts[1..], last);
    }
  }

  lemma ReachableInv(w: World, acts: seq<Action>, last: World)
    requires Init(w) && Run(w, acts, last)
    ensures Inv(last)
  {
    InitInv(w);
    RunPreserves(_ => true, w, acts, last);
  }

  // ---- main results ----------------------------------------------------------

  /** Over every interleaving: each effect happens at most once and in order, and
      `Done` is closed only when everything else is already published. */
  lemma CleanupIsExactlyOnceAndOrdered(w: World, acts: seq<Action>, last: World)
    requires Init(w) && Run(w, acts, last)
    ensures var s := last.shared;
            && s.doneCloses <= 1 && s.leaseReleases <= 1 && s.wireCancels <= 1
            && (s.wireCancels == 1 ==> s.phase == Canceled)
            && (s.leaseReleases == 1 && s.phase == Canceled ==> s.wireCancels == 1)
            && (s.leaseReleases == 1 ==> s.phase != Active)
            && (s.doneCloses == 1 ==>
                  && s.leaseReleases == 1
                  && (s.phase == Canceled <==> s.wireCancels == 1)
                  && (PublishedCanceled(s) || PublishedTerminal(s, last.expected)))
  {
    ReachableInv(w, acts, last);
  }

  /** When every operation has returned, either nobody claimed the session or its
      cleanup is complete: one release, one Done, one wire cancel iff cancelled. */
  lemma QuiescentIsSettled(w: World, acts: seq<Action>, last: World)
    requires Init(w) && Run(w, acts, last)
    requires forall t :: t in last.threads ==> last.threads[t].Returned?
    ensures Untouched(last.shared) || Settled(last)
    ensures (exists t :: t in last.threads && last.threads[t] == Returned(Eof)) ==>
            last.shared.phase == Terminal && Effects(last.shared, 0, 1, 1)
  {
    ReachableInv(w, acts, last);
  }

  /** Phase, response and cause are those of `u`. */
  predicate Outcome(u: World, v: World) {
    u.shared.phase == v.shared.phase && u.shared.response == v.shared.response && u.shared.cause == v.shared.cause
  }

  lemma DecidedStep(u: World, a: Action)
    requires Inv(u) && Enabled(u, a) && u.shared.phase != Active
    ensures Outcome(u, Step(u, a))
  {
  }

  /** The session leaves Active once: phase, response and cause never change again. */
  lemma WinnerIsFinal(w: World, acts: seq<Action>, last: World)
    requires Inv(w) && Run(w, acts, last) && w.shared.phase != Active
    ensures last.shared.phase == w.shared.phase
    ensures last.shared.response == w.shared.response
    ensures last.shared.cause == w.shared.cause
  {
    var p := (v: World) => Outcome(w, v);
    forall v, a | Inv(v) && p(v) && Enabled(v, a) ensures p(Step(v, a)) { DecidedStep(v, a); }
    RunPreserves(p, w, acts, last);
  }

  /** `io.EOF` is returned only when the response is there, with the expected
      status, and it stays there. */
  lemma EofMeansResponseForever(w: World, acts: seq<Action>, last: World, t: nat)
    requires Inv(w) && Run(w, acts, last)
    requires t in w.threads && w.threads[t] == Returned(Eof)
    ensures ResponseOf(w.shared).Some? && ResponseOf(w.shared).value.status == w.expected
    ensures ResponseOf(last.shared) == ResponseOf(w.shared)
  {
    WinnerIsFinal(w, acts, last);
  }

  /** While the session is cancelled no response is visible, whatever EOF the wire saw. */
  lemma CanceledHidesResponse(w: World, acts: seq<Action>, last: World)
    requires Inv(w) && Run(w, acts, last) && w.shared.phase == Canceled
    ensures ResponseOf(last.shared).None?
    ensures forall t :: t in last.threads ==> last.threads[t] != Returned(Eof)
  {
    WinnerIsFinal(w, acts, last);
    RunPreserves(_ => true, w, acts, last);
  }

  /** `call` was begun when the session was already cancelled with cause `c`. */
  predicate Doomed(w: World, t: nat, call: Call, c: Error) {
    && w.shared.phase == Canceled && w.shared.cause == Some(c)
    && t in w.threads && !call.Cancel?
    && (w.threads[t] == FirstPc(call) || w.threads[t] == Returned(Failed(Classify(c))))
  }

  lemma DoomedStep(v: World, a: Action, t: nat, call: Call, c: Error)
    requires Inv(v) && Doomed(v, t, call, c) && Enabled(v, a)
    ensures Doomed(Step(v, a), t, call, c)
  {
    if a.Tick? && a.t == t {
      assert v.threads[t] == FirstPc(call);
      assert CanceledCause(v.shared) == Some(c);
    } else if a.Tick? && InBody(v.threads[a.t]) {
      assert v.once == Running(a.t);
    }
  }

  /** An operation begun after a cancel reports that cancel's cause, and never
      touches the wire. */
  lemma BegunAfterCancelReportsItsCause(w: World, t: nat, call: Call, acts: seq<Action>, last: World)
    requires Inv(w) && w.shared.phase == Canceled && w.shared.cause.Some?
    requires Enabled(w, Begin(t, call)) && !call.Cancel?
    requires Run(Step(w, Begin(t, call)), acts, last)
    ensures t in last.threads
    ensures last.threads[t] == FirstPc(call) ||
            last.threads[t] == Returned(Failed(Classify(w.shared.cause.value)))
  {
    var c := w.shared.cause.value;
    var p := (v: World) => Doomed(v, t, call, c);
    StepInv(w, Begin(t, call));
    forall v, a | Inv(v) && p(v) && Enabled(v, a) ensures p(Step(v, a)) {
      DoomedStep(v, a, t, call, c);
    }
    RunPreserves(p, Step(w, Begin(t, call)), acts, last);
  }

  /** What a caller of completeCancel answers, given the session's winner. */
  function Answer(goal: Goal, winner: Option<Error>): Result {
    match goal
    case ReturnUnit => Ok
    case ReturnFailure(failure) => Failed(failure)
    case ReturnOperation(failure) => Failed(Provenance(winner, failure))
  }

  /** A thread on its way through completeCancel for `goal`. */
  predicate Completing(w: World, t: nat, goal: Goal) {
    && t in w.threads
    && match w.threads[t]
       case CancelDo(_, g) => g == goal
       case CancelCapture(_, g) => g == goal
       case CancelPublish(_, g) => g == goal
       case CancelWire(g) => g == goal
       case CancelRelease(g) => g == goal
       case CancelDone(g) => g == goal
       case CancelEnd(g) => g == goal
       case ReadWinner(f) => goal == ReturnOperation(f)
       case Returned(result) => w.once.Finished? && result == Answer(goal, w.shared.cause)
       case _ => false
  }

  lemma CompletingStep(v: World, a: Action, t: nat, goal: Goal)
    requires Inv(v) && Completing(v, t, goal) && Enabled(v, a)
    ensures Completing(Step(v, a), t, goal)
  {
    if a.Tick? && a.t == t {
      var pc := v.threads[t];
      if InBody(pc) { assert v.once == Running(t); }
    }
  }

  /** Whoever cancels is answered by the final winner, whoever that is. */
  lemma CancelAnswer(w: World, t: nat, requested: Option<Error>, goal: Goal, acts: seq<Action>, last: World)
    requires Inv(w) && t in w.threads && w.threads[t] == CancelDo(requested, goal)
    requires Run(w, acts, last) && t in last.threads && last.threads[t].Returned?
    ensures last.once.Finished? && last.shared.phase != Active
    ensures last.threads[t].result == Answer(goal, last.shared.cause)
    ensures w.shared.phase == Terminal ==>
              last.shared.phase == Terminal && last.shared.response == w.shared.response
  {
    var p := (v: World) => Completing(v, t, goal);
    forall v, a | Inv(v) && p(v) && Enabled(v, a) ensures p(Step(v, a)) {
      CompletingStep(v, a, t, goal);
    }
    RunPreserves(p, w, acts, last);
    if w.shared.phase == Terminal { WinnerIsFinal(w, acts, last); }
  }

  /** The requested cause, else the lease's, else a plain cancel. */
  function FirstOf(requested: Option<Error>, lease: Option<Error>): Error {
    match (requested, lease)
    case (Some(e), _) => e
    case (None, Some(e)) => e
    case (None, None) => Leaf(ContextCanceled)
  }

  /** What a failed operation owes its caller, in terms of what errors are: the final
      cause if that is a forced drain or the Host budget, and otherwise the operation's
      own error, classified. */
  ghost predicate AnswersFor(answer: Error, winner: Option<Error>, err: Error) {
    if winner.Some? && Is(winner.value, AdmissionForced) then
      DispositionOf(answer) == Some(Abort) && SameSentinels(answer, winner.value)
    else if winner.Some? && Is(winner.value, BudgetExceeded) then
      DispositionOf(answer) == Some(Incident(HostBudget)) && SameSentinels(answer, winner.value)
    else SameSentinels(answer, err) && answer == Classify(err)
  }

  lemma ProvenanceAnswers(winner: Option<Error>, err: Error)
    ensures AnswersFor(Provenance(winner, Classify(err)), winner, err)
  {
    ClassifyVerdict(err);
    if winner.Some? { ClassifyVerdict(winner.value); }
  }

  /** The answer of a failed operation is decided by the session's final winner: a
      forced drain or the Host budget replaces the failure, nothing else does, and a
      failure after a committed terminal leaves that terminal untouched. */
  lemma FailureProvenance(w: World, t: nat, err: Error, acts: seq<Action>, last: World)
    requires Inv(w) && t in w.threads && w.threads[t] == Fail(err)
    requires Run(w, acts, last) && t in last.threads && last.threads[t].Returned?
    ensures last.shared.phase != Active
    ensures last.threads[t].result ==
            Failed(if HostOwned(last.shared.cause) then Classify(last.shared.cause.value) else Classify(err))
    ensures AnswersFor(last.threads[t].result.error, last.shared.cause, err)
    ensures w.shared.phase == Terminal ==>
              last.shared.response == w.shared.response && last.threads[t].result == Failed(Classify(err))
  {
    CancelAnswer(w, t, Some(Classify(err)), ReturnOperation(Classify(err)), acts, last);
    ProvenanceAnswers(last.shared.cause, err);
    if w.shared.phase == Terminal { RunPreserves(_ => true, w, acts, last); }
  }

  /** Provenance from the wire on: a wire call that fails with `err` is answered so, except
      that CloseRequest may have learnt of the expected terminal instead. */
  lemma WireFailureIsAnswered(w: World, t: nat, err: Error, acts: seq<Action>, last: World)
    requires Inv(w) && t in w.threads && Enabled(w, Tick(t, WireFailed(err)))
    requires w.threads[t].RecvWire? ==> !Is(err, EndOfFile)
    requires Run(Step(w, Tick(t, WireFailed(err))), acts, last) && t in last.threads && last.threads[t].Returned?
    ensures || (last.threads[t].result.Failed? && AnswersFor(last.threads[t].result.error, last.shared.cause, err))
            || (w.threads[t].CloseWire? && last.threads[t].result == Ok && SawExpectedTerminal(acts, t, w.expected))
  {
    var v := Step(w, Tick(t, WireFailed(err)));
    StepInv(w, Tick(t, WireFailed(err)));
    if w.threads[t].CloseWire? {
      CloseFailureIsAnswered(v, t, err, acts, last);
    } else {
      FailureProvenance(v, t, err, acts, last);
    }
  }

  lemma {:induction false} CloseFailureIsAnswered(w: World, t: nat, err: Error, acts: seq<Action>, last: World)
    requires Inv(w) && RecheckingClose(w, t, err)
    requires Run(w, acts, last) && t in last.threads && last.threads[t].Returned?
    ensures || (last.threads[t].result.Failed? && AnswersFor(last.threads[t].result.error, last.shared.cause, err))
            || (last.threads[t].result == Ok && SawExpectedTerminal(acts, t, w.expected))
    decreases |acts|
  {
    var v := Step(w, acts[0]);
    StepInv(w, acts[0]);
    if acts[0].Tick? && acts[0].t == t {
      CloseRecheckTick(w, t, err, acts[0].env);
      if RecheckingClose(v, t, err) {
        CloseFailureIsAnswered(v, t, err, acts[1..], last);
        if SawExpectedTerminal(acts[1..], t, w.expected) { SawLater(acts, t, w.expected); }
      } else if v.threads[t] == Fail(err) {
        FailureProvenance(v, t, err, acts[1..], last);
      } else {
        ReturnedStays(v, t, acts[1..], last);
        if v.threads[t] == Returned(Ok) {
          assert acts[0].env.WireTerminal?;
        } else {
          WinnerIsFinal(v, acts[1..], last);
        }
      }
    } else {
      OthersLeaveAlone(w, t, acts[0]);
      CloseFailureIsAnswered(v, t, err, acts[1..], last);
      if SawExpectedTerminal(acts[1..], t, w.expected) { SawLater(acts, t, w.expected); }
    }
  }

  lemma CloseRecheckTick(w: World, t: nat, err: Error, env: Env)
    requires RecheckingClose(w, t, err) && Enabled(w, Tick(t, env))
    ensures var v := Step(w, Tick(t, env));
            || RecheckingClose(v, t, err)
            || v.threads[t] == Fail(err)
            || (v.threads[t].Returned? && v.threads[t].result.Failed? && v.shared.phase == Canceled
                && AnswersFor(v.threads[t].result.error, v.shared.cause, err))
            || (v.threads[t] == Returned(Ok) && env.WireTerminal? && env.response.Some? && env.response.value.status == w.expected)
  {
    var c := CanceledCause(w.shared);
    if c.Some? { ClassifyVerdict(c.value); }
  }

  /** While a forced drain or the Host budget is the cause, a CloseRequest whose wire call
      failed answers that cause, even if the terminal has arrived. */
  lemma HostCauseBeatsTheTerminal(w: World, t: nat, err: Error, acts: seq<Action>, last: World)
    requires Inv(w) && t in w.threads && w.threads[t] == CloseRecheck(err)
    requires w.shared.phase == Canceled && w.shared.cause.Some?
    requires Is(w.shared.cause.value, AdmissionForced) || Is(w.shared.cause.value, BudgetExceeded)
    requires Run(w, acts, last) && t in last.threads && last.threads[t].Returned?
    ensures last.threads[t].result.Failed? && AnswersFor(last.threads[t].result.error, w.shared.cause, err)
  {
    var c := w.shared.cause.value;
    var p := (v: World) => Rechecking(v, t, err, c);
    forall v, a | Inv(v) && p(v) && Enabled(v, a) ensures p(Step(v, a)) { RecheckingStep(v, t, err, c, a); }
    RunPreserves(p, w, acts, last);
    ProvenanceAnswers(Some(c), err);
  }

  predicate Rechecking(w: World, t: nat, err: Error, c: Error) {
    && w.shared.phase == Canceled && w.shared.cause == Some(c) && t in w.threads
    && (w.threads[t] == CloseRecheck(err) || w.threads[t] == Returned(Failed(Provenance(Some(c), Classify(err)))))
  }

  lemma RecheckingStep(w: World, t: nat, err: Error, c: Error, a: Action)
    requires Inv(w) && Rechecking(w, t, err, c) && Enabled(w, a)
    requires Is(c, AdmissionForced) || Is(c, BudgetExceeded)
    ensures Rechecking(Step(w, a), t, err, c)
  {
    DecidedStep(w, a);
    if !(a.Tick? && a.t == t) { OthersLeaveAlone(w, t, a); }
  }

  /** Without such a cause, the expected terminal absorbs the error, and nothing else does. */
  lemma TerminalAbsorbsTheCloseError(w: World, t: nat, err: Error, env: Env)
    requires t in w.threads && Enabled(w, Tick(t, env)) && RecheckingClose(w, t, err)
    ensures var next := Step(w, Tick(t, env)).threads[t];
            && (w.threads[t].CloseTerminal? ==>
                  (next == Returned(Ok) <==> env.response.Some? && env.response.value.status == w.expected))
            && (w.threads[t].CloseRecheck? && !HostOwned(CanceledCause(w.shared)) ==> next == CloseTerminal(err))
  {
  }

  /** The armed callback runs at most once. */
  lemma {:induction false} CallbackFiresOnce(w: World, t: nat, acts: seq<Action>, last: World)
    requires Enabled(w, FireArmed(t)) && Run(Step(w, FireArmed(t)), acts, last)
    ensures !last.armed && forall u :: !Enabled(last, FireArmed(u))
  {
    DisarmedStays(Step(w, FireArmed(t)), acts, last);
  }

  lemma {:induction false} DisarmedStays(w: World, acts: seq<Action>, last: World)
    requires !w.armed && Run(w, acts, last)
    ensures !last.armed
    decreases |acts|
  {
    if acts != [] { DisarmedStays(Step(w, acts[0]), acts[1..], last); }
  }

  /** An operation begun on a session that nobody has cancelled comes to its own wire call. */
  lemma BegunComesToItsWire(w: World, t: nat, call: Call)
    requires Enabled(w, Begin(t, call)) && w.shared.phase != Canceled && !call.Cancel?
    ensures var v := Step(w, Begin(t, call));
            && Enabled(v, Tick(t, Quiet))
            && Step(v, Tick(t, Quiet)).threads[t] == match call
                                                     case Send => SendWire
                                                     case CloseRequest => CloseWire
                                                     case Recv => RecvWire
  {
  }

  /** A Cancel with a cause that gets to the Once first publishes that cause: its
      sentinels, and the disposition they demand. */
  lemma CancelPublishesItsCause(w: World, t: nat, c: Error, acts: seq<Action>, last: World)
    requires Inv(w) && w.once.Unclaimed? && Enabled(w, Begin(t, Cancel(Some(c))))
    requires Run(Step(Step(w, Begin(t, Cancel(Some(c)))), Tick(t, Quiet)), acts, last) && last.shared.phase != Active
    ensures last.shared.phase == Canceled && last.shared.cause.Some?
    ensures SameSentinels(last.shared.cause.value, c)
    ensures DispositionOf(last.shared.cause.value) == DispositionOf(Classify(c))
  {
    var v := Step(w, Begin(t, Cancel(Some(c))));
    StepInv(w, Begin(t, Cancel(Some(c))));
    StepInv(v, Tick(t, Quiet));
    PublishesItsRequest(Step(v, Tick(t, Quiet)), t, Classify(c), acts, last);
    ClassifyIsStable(c);
  }

  lemma PublishesItsRequest(w: World, t: nat, c: Error, acts: seq<Action>, last: World)
    requires Inv(w) && Publishing(w, t, c) && Run(w, acts, last) && last.shared.phase != Active
    ensures last.shared.phase == Canceled && last.shared.cause == Some(Classify(c))
  {
    var p := (x: World) => Publishing(x, t, c);
    forall x, a | Inv(x) && p(x) && Enabled(x, a) ensures p(Step(x, a)) { PublishingStep(x, t, c, a); }
    RunPreserves(p, w, acts, last);
  }

  /** A Recv that saw EOF and the expected terminal answers EOF exactly if the terminal
      won, and otherwise the classified cause of the cancel that did. */
  lemma TerminalAnswer(w: World, t: nat, r: Response, acts: seq<Action>, last: World)
    requires Inv(w) && t in w.threads && w.threads[t] == TerminalDo(r)
    requires Run(w, acts, last) && t in last.threads && last.threads[t].Returned?
    ensures last.threads[t].result == Eof <==> last.shared.phase == Terminal
    ensures last.threads[t].result != Eof ==>
              last.shared.phase == Canceled && last.shared.cause.Some?
              && last.threads[t].result == Failed(Classify(last.shared.cause.value))
  {
    var p := (v: World) => Concluding(v, t, r);
    forall v, a | Inv(v) && p(v) && Enabled(v, a) ensures p(Step(v, a)) { ConcludingStep(v, a, t, r); }
    RunPreserves(p, w, acts, last);
  }

  /** A thread on its way through completeTerminal. */
  predicate Concluding(w: World, t: nat, r: Response) {
    && t in w.threads
    && match w.threads[t]
       case TerminalDo(own) => own == r
       case TerminalPublish(own) => own == r
       case TerminalRelease | TerminalDone | TerminalEnd | TerminalReadPhase | TerminalReadCause => true
       case Returned(result) =>
         && w.once.Finished?
         && (result == Eof <==> w.shared.phase == Terminal)
         && (result != Eof ==> w.shared.phase == Canceled && w.shared.cause.Some?
                               && result == Failed(Classify(w.shared.cause.value)))
       case _ => false
  }

  lemma ConcludingStep(v: World, a: Action, t: nat, r: Response)
    requires Inv(v) && Concluding(v, t, r) && Enabled(v, a)
    ensures Concluding(Step(v, a), t, r)
  {
    if a.Tick? && a.t == t {
      if InBody(v.threads[t]) { assert v.once == Running(t); }
    } else {
      OthersLeaveAlone(v, t, a);
      if v.shared.phase != Active { DecidedStep(v, a); }
    }
  }

  /** What the wire granted is what the caller gets, and an EOF asks for the terminal. */
  lemma WireSuccessIsKept(w: World, t: nat, env: Env)
    requires t in w.threads && Enabled(w, Tick(t, env)) && Step(w, Tick(t, env)).shared == w.shared
    ensures var next := Step(w, Tick(t, env)).threads[t];
            && (w.threads[t].SendWire? && env.WireOk? ==> next == Returned(Ok))
            && (w.threads[t].CloseWire? && env.WireOk? ==> next == Returned(Ok))
            && (w.threads[t].RecvWire? && env.WireOk? ==> next == Returned(Received))
            && (w.threads[t].RecvWire? && env.WireFailed? && Is(env.error, EndOfFile) ==> next == RecvTerminal)
            && (w.threads[t].RecvTerminal? && env.response.Some? && env.response.value.status == w.expected ==>
                  next == TerminalDo(env.response.value))
  {
  }

  /** The armed callback, when it gets to the Once first, publishes the cause with which
      the lease ended: its sentinels, and the disposition they demand. */
  lemma ArmedCallbackPublishesTheLeaseCause(w: World, t: nat, c: Error, acts: seq<Action>, last: World)
    requires Inv(w) && w.once.Unclaimed? && w.armed && w.shared.leaseCause == Some(c) && t !in w.threads
    requires Run(Step(Step(w, FireArmed(t)), Tick(t, Quiet)), acts, last) && last.shared.phase != Active
    ensures last.shared.phase == Canceled && last.shared.cause.Some?
    ensures SameSentinels(last.shared.cause.value, c)
    ensures DispositionOf(last.shared.cause.value) == DispositionOf(Classify(c))
  {
    var v := Step(w, FireArmed(t));
    var u := Step(v, Tick(t, Quiet));
    StepInv(w, FireArmed(t));
    StepInv(v, Tick(t, Quiet));
    PublishesItsRequest(u, t, Classify(c), acts, last);
    ClassifyIsStable(c);
  }

  /** The cancelling thread `t` is bound to publish its requested cause `c`. */
  predicate Publishing(w: World, t: nat, c: Error) {
    if w.shared.phase != Active then w.shared.phase == Canceled && w.shared.cause == Some(Classify(c))
    else
      && w.once == Running(t) && t in w.threads
      && ((w.threads[t].CancelCapture? && w.threads[t].requested == Some(c))
          || (w.threads[t].CancelPublish? && w.threads[t].captured == Classify(c)))
  }

  lemma PublishingStep(w: World, t: nat, c: Error, a: Action)
    requires Inv(w) && Publishing(w, t, c) && Enabled(w, a)
    ensures Publishing(Step(w, a), t, c)
  {
    if w.shared.phase != Active {
      DecidedStep(w, a);
    } else if a.Tick? && a.t != t {
      assert !InBody(w.threads[a.t]);
    }
  }

  /** The Host budget ends the lease while a Send is on the wire: the armed callback wins,
      the wire reports a mere cancel, and the Send answers the budget incident. */
  lemma BudgetReplacesTheWireCancel(w: World) returns (acts: seq<Action>, last: World)
    requires Init(w)
    ensures Run(w, acts, last) && AnsweredBudget(last, 0)
  {
    InitInv(w);
    var w1 := Step(w, Begin(0, Send));
    var w2 := Step(w1, Tick(0, Quiet));
    var w3 := Step(w2, CancelLease(Leaf(BudgetExceeded)));
    var w4 := Step(w3, FireArmed(1));
    StepInv(w, Begin(0, Send));
    StepInv(w1, Tick(0, Quiet));
    StepInv(w2, CancelLease(Leaf(BudgetExceeded)));
    StepInv(w3, FireArmed(1));
    var tail;
    tail, last := BudgetWinsFrom(w4);
    acts := ActThenRun(w3, FireArmed(1), tail, last);
    acts := ActThenRun(w2, CancelLease(Leaf(BudgetExceeded)), acts, last);
    acts := ActThenRun(w1, Tick(0, Quiet), acts, last);
    acts := ActThenRun(w, Begin(0, Send), acts, last);
  }

  lemma ActThenRun(w: World, a: Action, rest: seq<Action>, last: World) returns (acts: seq<Action>)
    requires Enabled(w, a) && Run(Step(w, a), rest, last)
    ensures Run(w, acts, last)
  {
    acts := [a] + rest;
    assert acts[1..] == rest;
  }

  /** The callback's Once body runs, then the wire fails. */
  lemma BudgetWinsFrom(w: World) returns (acts: seq<Action>, last: World)
    requires Inv(w) && w.once.Unclaimed? && w.shared.leaseCause == Some(Leaf(BudgetExceeded))
    requires w.threads == map[0 := SendWire, 1 := CancelDo(Some(Classify(Leaf(BudgetExceeded))), ReturnUnit)]
    ensures Run(w, acts, last) && AnsweredBudget(last, 0)
  {
    var v := Step(w, Tick(1, Quiet));
    StepInv(w, Tick(1, Quiet));
    var body, mid := BodyRuns(v, 1);
    assert BudgetWon(mid.shared);
    var tail;
    tail, last := LateWireFailure(mid);
    RunAppend(v, body, mid, tail, last);
    acts := ActThenRun(w, Tick(1, Quiet), body + tail, last);
  }

  lemma {:induction false} RunAppend(w: World, xs: seq<Action>, mid: World, ys: seq<Action>, last: World)
    requires Run(w, xs, mid) && Run(mid, ys, last)
    ensures Run(w, xs + ys, last)
    decreases |xs|
  {
    if xs == [] {
      assert xs + ys == ys;
    } else {
      RunAppend(Step(w, xs[0]), xs[1..], mid, ys, last);
      assert (xs + ys)[1..] == xs[1..] + ys;
    }
  }

  /** Operation `t` has answered the budget incident. */
  predicate AnsweredBudget(w: World, t: nat) {
    && t in w.threads && w.threads[t].Returned? && w.threads[t].result.Failed?
    && DispositionOf(w.threads[t].result.error) == Some(Incident(HostBudget))
    && Is(w.threads[t].result.error, BudgetExceeded) && !Is(w.threads[t].result.error, ContextCanceled)
  }

  predicate BudgetWon(s: Shared) {
    && s.cause.Some? && Is(s.cause.value, BudgetExceeded)
    && !Is(s.cause.value, AdmissionForced) && !Is(s.cause.value, ContextCanceled)
  }

  lemma LateWireFailure(w: World) returns (acts: seq<Action>, last: World)
    requires 0 in w.threads && w.threads[0] == SendWire && w.once.Finished? && BudgetWon(w.shared)
    ensures Run(w, acts, last) && AnsweredBudget(last, 0)
  {
    var e := Leaf(ContextCanceled);
    var w1 := Step(w, Tick(0, WireFailed(e)));
    var w2 := Step(w1, Tick(0, Quiet));
    acts, last := ReadsTheWinner(w2, e);
    acts := ActThenRun(w1, Tick(0, Quiet), acts, last);
    acts := ActThenRun(w, Tick(0, WireFailed(e)), acts, last);
  }

  lemma ReadsTheWinner(w: World, e: Error) returns (acts: seq<Action>, last: World)
    requires 0 in w.threads && w.threads[0] == ReadWinner(Classify(e)) && BudgetWon(w.shared)
    ensures Run(w, acts, last) && AnsweredBudget(last, 0)
  {
    last := Step(w, Tick(0, Quiet));
    ProvenanceAnswers(w.shared.cause, e);
    acts := ActThenRun(w, Tick(0, Quiet), [], last);
  }

  /** An EOF whose wire terminal is missing or drifted keeps its own failure, even
      against a Host-owned winner, and the session does not stay Active. */
  lemma EofWithoutTerminalKeepsItsFailure(w: World, t: nat, answer: Option<Response>, acts: seq<Action>, last: World)
    requires Inv(w) && t in w.threads && w.threads[t] == RecvTerminal
    requires answer.None? || answer.value.status != w.expected
    requires Run(Step(w, Tick(t, WireTerminal(answer))), acts, last)
    requires t in last.threads && last.threads[t].Returned?
    ensures last.shared.phase != Active
    ensures last.threads[t].result ==
            Failed(if answer.None? then MissingTerminalFailure() else StatusDriftFailure())
    ensures var own := last.threads[t].result.error;
            && Is(own, RuntimeTarget)
            && DispositionOf(own) == if answer.None? then Some(Incident(MissingTerminal)) else None
  {
    var a := Tick(t, WireTerminal(answer));
    var f := if answer.None? then MissingTerminalFailure() else StatusDriftFailure();
    StepInv(w, a);
    CancelAnswer(Step(w, a), t, Some(f), ReturnFailure(f), acts, last);
  }

  /** The wire told thread `t` about a terminal with the expected status. */
  ghost predicate SawExpectedTerminal(acts: seq<Action>, t: nat, expected: int) {
    exists i :: 0 <= i < |acts| && acts[i].Tick? && acts[i].t == t && acts[i].env.WireTerminal? &&
                acts[i].env.response.Some? && acts[i].env.response.value.status == expected
  }

  predicate RecheckingClose(w: World, t: nat, err: Error) {
    t in w.threads && (w.threads[t] == CloseRecheck(err) || w.threads[t] == CloseTerminal(err))
  }

  lemma CloseErrorStep(w: World, t: nat, err: Error, a: Action)
    requires Inv(w) && RecheckingClose(w, t, err) && Enabled(w, a)
    ensures var v := Step(w, a);
            || RecheckingClose(v, t, err)
            || v.threads[t] == Fail(err)
            || (v.threads[t].Returned? && v.threads[t].result.Failed?)
            || SawExpectedTerminal([a], t, w.expected)
  {
    if a.Tick? && a.t == t {
      CloseErrorTick(w, t, err, a.env);
    } else {
      OthersLeaveAlone(w, t, a);
    }
  }

  lemma CloseErrorTick(w: World, t: nat, err: Error, env: Env)
    requires RecheckingClose(w, t, err) && Enabled(w, Tick(t, env))
    ensures var pc := Step(w, Tick(t, env)).threads[t];
            || pc == CloseTerminal(err) || pc == Fail(err) || (pc.Returned? && pc.result.Failed?)
            || SawExpectedTerminal([Tick(t, env)], t, w.expected)
  {
    assert [Tick(t, env)][0] == Tick(t, env);
  }

  lemma OthersLeaveAlone(w: World, t: nat, a: Action)
    requires t in w.threads && Enabled(w, a) && !(a.Tick? && a.t == t)
    ensures t in Step(w, a).threads && Step(w, a).threads[t] == w.threads[t]
  {
  }

  predicate HasReturned(w: World, t: nat, c: Pc) { c.Returned? && t in w.threads && w.threads[t] == c }

  lemma ReturnedStep(w: World, t: nat, c: Pc, a: Action)
    requires HasReturned(w, t, c) && Enabled(w, a)
    ensures HasReturned(Step(w, a), t, c)
  {
  }

  lemma ReturnedStays(w: World, t: nat, acts: seq<Action>, last: World)
    requires Inv(w) && t in w.threads && w.threads[t].Returned? && Run(w, acts, last)
    ensures t in last.threads && last.threads[t] == w.threads[t]
  {
    var c := w.threads[t];
    var p := (v: World) => HasReturned(v, t, c);
    forall v, a | Inv(v) && p(v) && Enabled(v, a) ensures p(Step(v, a)) { ReturnedStep(v, t, c, a); }
    RunPreserves(p, w, acts, last);
  }

  lemma FailingCloseNeverSucceeds(v: World, t: nat, err: Error, acts: seq<Action>, last: World)
    requires Inv(v) && t in v.threads && Run(v, acts, last) && t in last.threads
    requires v.threads[t] == Fail(err) || (v.threads[t].Returned? && v.threads[t].result.Failed?)
    requires last.threads[t].Returned?
    ensures last.threads[t] != Returned(Ok)
  {
    if v.threads[t] == Fail(err) {
      CancelAnswer(v, t, Some(Classify(err)), ReturnOperation(Classify(err)), acts, last);
    } else {
      ReturnedStays(v, t, acts, last);
    }
  }

  /** A request-side error is absorbed only after that exact terminal. */
  lemma {:induction false} CloseErrorAbsorbedOnlyAfterTerminal(
    w: World, t: nat, err: Error, acts: seq<Action>, last: World)
    requires Inv(w) && RecheckingClose(w, t, err)
    requires Run(w, acts, last) && t in last.threads && last.threads[t] == Returned(Ok)
    ensures SawExpectedTerminal(acts, t, w.expected)
    decreases |acts|
  {
    var v := Step(w, acts[0]);
    StepInv(w, acts[0]);
    CloseErrorStep(w, t, err, acts[0]);
    if SawExpectedTerminal([acts[0]], t, w.expected) {
      assert acts[0] == [acts[0]][0];
    } else if RecheckingClose(v, t, err) {
      CloseErrorAbsorbedOnlyAfterTerminal(v, t, err, acts[1..], last);
      SawLater(acts, t, w.expected);
    } else {
      FailingCloseNeverSucceeds(v, t, err, acts[1..], last);
    }
  }

  lemma SawLater(acts: seq<Action>, t: nat, expected: int)
    requires acts != [] && SawExpectedTerminal(acts[1..], t, expected)
    ensures SawExpectedTerminal(acts, t, expected)
  {
    var rest := acts[1..];
    var i :| 0 <= i < |rest| && rest[i].Tick? && rest[i].t == t && rest[i].env.WireTerminal? &&
             rest[i].env.response.Some? && rest[i].env.response.value.status == expected;
    assert acts[i + 1] == rest[i];
  }

  /** The cancelling thread `t` is bound to publish the lease's cause `c`. */
  predicate BoundTo(w: World, t: nat, c: Error) {
    if w.shared.phase != Active then w.shared.cause == Some(Classify(c))
    else
      && w.once == Running(t) && t in w.threads
      && ((w.threads[t].CancelCapture? && w.threads[t].requested.None? && w.shared.leaseCause == Some(c))
          || (w.threads[t].CancelPublish? && w.threads[t].captured == Classify(c)))
  }

  lemma BoundToStep(w: World, t: nat, c: Error, a: Action)
    requires Inv(w) && BoundTo(w, t, c) && Enabled(w, a)
    ensures BoundTo(Step(w, a), t, c)
  {
    if a.Tick? && a.t != t && w.once == Running(t) {
      assert !InBody(w.threads[a.t]);
    }
  }

  lemma BoundToRun(w: World, t: nat, c: Error, acts: seq<Action>, last: World)
    requires Inv(w) && BoundTo(w, t, c) && Run(w, acts, last)
    ensures Inv(last) && BoundTo(last, t, c)
  {
    var p := (v: World) => BoundTo(v, t, c);
    forall v, a | Inv(v) && p(v) && Enabled(v, a) ensures p(Step(v, a)) { BoundToStep(v, t, c, a); }
    RunPreserves(p, w, acts, last);
  }

  /** The lease cause is captured before the session's own release can overwrite it:
      a bare Cancel that wins after a forced drain publishes the drain's cause, and
      from then on every failing operation reports it. */
  lemma BareCancelKeepsTheDrainCause(w: World, t: nat, goal: Goal, c: Error, acts: seq<Action>, last: World)
    requires Inv(w) && w.shared.leaseCause == Some(c)
    requires t in w.threads && w.threads[t] == CancelCapture(None, goal)
    requires Run(w, acts, last) && last.shared.phase != Active
    ensures last.shared.phase == Canceled && last.shared.cause == Some(Classify(c))
    ensures Is(c, AdmissionForced) ==> HostOwned(last.shared.cause)
  {
    BoundToRun(w, t, c, acts, last);
    ClassifyIsStable(c);
  }

  // ---- progress --------------------------------------------------------------

  /** Steps a thread can still take. */
  function Rank(pc: Pc): nat {
    match pc
    case CloseCheck => 14 case CloseWire => 13 case CloseRecheck(_) => 12 case CloseTerminal(_) => 11
    case SendCheck => 12 case SendWire => 11
    case RecvCheck => 13 case RecvWire => 12 case RecvTerminal => 11
    case CancelDo(_, _) => 10
    case CancelCapture(_, _) => 9 case CancelPublish(_, _) => 8 case CancelWire(_) => 7
    case CancelRelease(_) => 6 case CancelDone(_) => 5 case CancelEnd(_) => 4
    case TerminalDo(_) => 10 case TerminalPublish(_) => 9 case TerminalRelease => 8
    case TerminalDone => 7 case TerminalEnd => 6
    case TerminalReadPhase => 3 case TerminalReadCause => 2
    case ReadWinner(_) => 1
    case Returned(_) => 0
  }

  lemma BodyDescends(w: World, pc: Pc)
    requires InBody(pc)
    ensures Rank(BodyStep(w, pc).0) < Rank(pc)
  {
  }

  lemma NextDescends(w: World, pc: Pc, env: Env)
    requires CanTick(w, pc, env) && !InBody(pc)
    ensures Rank(NextPc(w, pc, env)) < Rank(pc)
  {
  }

  /** Every step of an operation brings it nearer to its return. */
  lemma {:induction false} TickDescends(w: World, t: nat, env: Env)
    requires Inv(w) && Enabled(w, Tick(t, env))
    ensures Rank(Step(w, Tick(t, env)).threads[t]) < Rank(w.threads[t])
  {
    var pc := w.threads[t];
    if InBody(pc) {
      BodyDescends(w, pc);
    } else {
      NextDescends(w, pc, env);
    }
  }

  function SomeAnswer(pc: Pc): Env {
    if pc.SendWire? || pc.CloseWire? || pc.RecvWire? then WireOk
    else if pc.CloseTerminal? || pc.RecvTerminal? then WireTerminal(None)
    else Quiet
  }

  /** No deadlock: while an operation has not returned, some thread can step; the
      callers waiting at the Once are waiting for a thread that is not blocked. */
  lemma NoDeadlock(w: World, t: nat) returns (u: nat)
    requires Inv(w) && t in w.threads && !w.threads[t].Returned?
    ensures u in w.threads && Enabled(w, Tick(u, SomeAnswer(w.threads[u])))
    ensures u != t ==> w.once == Running(u) && (w.threads[t].CancelDo? || w.threads[t].TerminalDo?)
  {
    u := t;
    if !CanTick(w, w.threads[t], SomeAnswer(w.threads[t])) {
      u := w.once.owner;
    }
  }

  function Pending(w: World): set<nat> {
    set t | t in w.threads && !w.threads[t].Returned?
  }

  /** All operations return together with the session's cleanup: any reachable world
      runs on, without a new call, to one where every thread has returned. */
  lemma {:induction false} EveryOperationReturns(w: World) returns (acts: seq<Action>, last: World)
    requires Inv(w)
    ensures Run(w, acts, last) && Inv(last) && Pending(last) == {}
    ensures last.threads.Keys == w.threads.Keys
    decreases TotalRank(w.threads)
  {
    if Pending(w) == {} {
      acts, last := [], w;
    } else {
      var t :| t in Pending(w);
      var u := NoDeadlock(w, t);
      var a := Tick(u, SomeAnswer(w.threads[u]));
      StepInv(w, a);
      TickDescends(w, u, a.env);
      var w' := Step(w, a);
      TotalRankUpdate(w.threads, u, w'.threads[u]);
      assert w'.threads == w.threads[u := w'.threads[u]];
      var rest;
      rest, last := EveryOperationReturns(w');
      acts := [a] + rest;
      assert acts[1..] == rest;
    }
  }

  ghost function TotalRank(threads: map<nat, Pc>): nat
    decreases |threads|
  {
    if threads == map[] then 0
    else var t :| t in threads; Rank(threads[t]) + TotalRank(threads - {t})
  }

  lemma {:induction false} TotalRankWithout(threads: map<nat, Pc>, t: nat)
    requires t in threads
    ensures TotalRank(threads) == Rank(threads[t]) + TotalRank(threads - {t})
    decreases |threads|
  {
    var u :| u in threads && TotalRank(threads) == Rank(threads[u]) + TotalRank(threads - {u});
    if u != t {
      TotalRankWithout(threads - {u}, t);
      TotalRankWithout(threads - {t}, u);
      assert threads - {u} - {t} == threads - {t} - {u};
    }
  }

  lemma TotalRankUpdate(threads: map<nat, Pc>, t: nat, pc: Pc)
    requires t in threads && Rank(pc) < Rank(threads[t])
    ensures TotalRank(threads[t := pc]) < TotalRank(threads)
  {
    TotalRankWithout(threads, t);
    TotalRankWithout(threads[t := pc], t);
    assert threads[t := pc] - {t} == threads - {t};
  }

  // ---- one call at a time --------------------------------------------------------

  /** The whole effect of a cancelling Once body that runs without interruption. */
  function CancelEffects(s: Shared, requested: Option<Error>): Shared {
    CloseDoneOf(ReleaseLeaseOf(CancelWireOf(PublishCanceled(s, CapturedCause(s, requested)))))
  }

  function TerminalEffects(s: Shared, r: Response): Shared {
    CloseDoneOf(ReleaseLeaseOf(PublishTerminal(s, r)))
  }

  /** Some run in which only `t` moves. */
  lemma BodyRuns(w: World, t: nat) returns (acts: seq<Action>, last: World)
    requires Inv(w) && t in w.threads && InBody(w.threads[t])
    ensures Run(w, acts, last) && last.once.Finished? && t in last.threads && !InBody(last.threads[t])
    ensures last.shared == BodyEffects(w.shared, w.threads[t])
    ensures forall u :: u in w.threads && u != t ==> u in last.threads && last.threads[u] == w.threads[u]
    decreases Rank(w.threads[t])
  {
    var v := Step(w, Tick(t, Quiet));
    BodyDescends(w, w.threads[t]);
    StepInv(w, Tick(t, Quiet));
    if InBody(v.threads[t]) {
      acts, last := BodyRuns(v, t);
    } else {
      acts, last := [], v;
    }
    acts := ActThenRun(w, Tick(t, Quiet), acts, last);
  }

  /** What the rest of a Once body does from program point `pc`. */
  function BodyEffects(s: Shared, pc: Pc): Shared
    requires InBody(pc)
  {
    match pc
    case CancelCapture(requested, _) => CancelEffects(s, requested)
    case CancelPublish(captured, _) => CloseDoneOf(ReleaseLeaseOf(CancelWireOf(PublishCanceled(s, captured))))
    case CancelWire(_) => CloseDoneOf(ReleaseLeaseOf(CancelWireOf(s)))
    case CancelRelease(_) | TerminalRelease => CloseDoneOf(ReleaseLeaseOf(s))
    case CancelDone(_) | TerminalDone => CloseDoneOf(s)
    case CancelEnd(_) | TerminalEnd => s
    case TerminalPublish(r) => TerminalEffects(s, r)
  }

  /** A completeCancel or completeTerminal that nobody interrupts has, in the machine,
      exactly the effect that the session object's method has in one call. */
  lemma UninterruptedCallIsTheMethod(w: World, t: nat) returns (acts: seq<Action>, last: World)
    requires Inv(w) && w.once.Unclaimed? && t in w.threads
    requires w.threads[t].CancelDo? || w.threads[t].TerminalDo?
    ensures Run(w, acts, last) && last.once.Finished?
    ensures last.shared == if w.threads[t].CancelDo? then CancelEffects(w.shared, w.threads[t].requested)
                           else TerminalEffects(w.shared, w.threads[t].response)
  {
    var v := Step(w, Tick(t, Quiet));
    StepInv(w, Tick(t, Quiet));
    acts, last := BodyRuns(v, t);
    acts := ActThenRun(w, Tick(t, Quiet), acts, last);
  }

  // ---- the session object ------------------------------------------------------

  /** The session's Go fields. Each method is one uninterrupted call; its contract is
      the composition of the atomic sections that the interleaving model steps through. */
  class RouteV2StreamSession {
    const expectedStatus: int
    var phase: Phase
    var response: Option<Response>
    var cause: Option<Error>
    var claimed: bool
    var doneCloses: nat
    var leaseReleases: nat
    var wireCancels: nat
    var leaseCause: Option<Error>

    constructor (expectedStatus: int)
      ensures this.expectedStatus == expectedStatus && !claimed && Untouched(Snapshot())
      ensures leaseCause.None? && Valid()
    {
      this.expectedStatus := expectedStatus;
      phase, response, cause, claimed := Active, None, None, false;
      doneCloses, leaseReleases, wireCancels, leaseCause := 0, 0, 0, None;
    }

    ghost function Snapshot(): Shared
      reads this
    {
      Shared(phase, response, cause, doneCloses, leaseReleases, wireCancels, leaseCause)
    }

    /** Untouched until claimed, and then completely cleaned up. */
    ghost predicate Valid()
      reads this
    {
      if claimed then
        || (PublishedCanceled(Snapshot()) && Effects(Snapshot(), 1, 1, 1))
        || (PublishedTerminal(Snapshot(), expectedStatus) && Effects(Snapshot(), 0, 1, 1))
      else Untouched(Snapshot())
    }

    method ReleaseLease()
      modifies this`leaseReleases, this`leaseCause
      ensures Snapshot() == ReleaseLeaseOf(old(Snapshot()))
    {
      leaseReleases := leaseReleases + 1;
      if leaseCause.None? { leaseCause := Some(Leaf(ContextCanceled)); }
    }

    method CompleteTerminal(r: Response) returns (won: bool)
      modifies this
      ensures claimed
      ensures Snapshot() == if old(claimed) then old(Snapshot())
                            else TerminalEffects(old(Snapshot()), r)
      ensures won <==> !old(claimed) || old(phase) == Terminal
      ensures old(Valid()) && r.status == expectedStatus ==> Valid()
    {
      if !claimed {
        claimed := true;
        phase, response, cause := Terminal, Some(r), None;
        ReleaseLease();
        doneCloses := doneCloses + 1;
        return true;
      }
      return phase == Terminal;
    }

    method CompleteCancel(requested: Option<Error>)
      modifies this
      ensures claimed
      ensures Snapshot() ==
              if old(claimed) then old(Snapshot())
              else CancelEffects(old(Snapshot()), requested)
      ensures !old(claimed) ==> phase == Canceled && cause == Some(Classify(FirstOf(requested, old(leaseCause))))
      ensures old(Valid()) ==> Valid()
    {
      if claimed { return; }
      claimed := true;
      var captured := requested;
      if captured.None? { captured := leaseCause; }
      if captured.None? { captured := Some(Leaf(ContextCanceled)); }
      phase, cause, response := Canceled, Some(Classify(captured.value)), None;
      wireCancels := wireCancels + 1;
      ReleaseLease();
      doneCloses := doneCloses + 1;
    }

    method CompleteOperationFailure(err: Error) returns (failure: Error)
      modifies this
      ensures claimed
      ensures AnswersFor(failure, cause, err)
      ensures old(claimed) ==> Snapshot() == old(Snapshot())
      ensures !old(claimed) ==> Snapshot() == CancelEffects(old(Snapshot()), Some(Classify(err)))
      ensures old(Valid()) ==> Valid()
    {
      failure := Classify(err);
      CompleteCancel(Some(failure));
      ProvenanceAnswers(cause, err);
      if HostOwned(cause) { failure := Classify(cause.value); }
    }

    method GetResponse() returns (r: Option<Response>)
      ensures r == ResponseOf(Snapshot())
      ensures r.Some? ==> phase == Terminal
      ensures Valid() && r.Some? ==>
                && claimed && r.value.status == expectedStatus
                && doneCloses == 1 && leaseReleases == 1 && wireCancels == 0
      ensures Valid() && r.None? ==> !claimed || (phase == Canceled && cause.Some?)
    {
      if phase != Terminal { return None; }
      return response;
    }
  }
}
