/** The WebSocket bridge: two pumps post one result each into a two-slot channel, the
    bridge arbitrates between them under a grace timer and then drains. */
module WebSocketBridge {
  import opened Options
  import opened StreamErrors

  datatype Direction = Request | Response | Unknown

  datatype PumpResult = PumpResult(direction: Direction, normal: bool, error: Option<Error>)

  // ---- classification and arbitration ----------------------------------------

  /** `classifyRouteWebSocketRuntimeFailure` */
  function ClassifyRuntimeFailure(e: Error): Error {
    if IsClassified(e) then e
    else if Is(e, BudgetExceeded) then WithIncident(e, HostBudget)
    else if Is(e, AdmissionForced) || Is(e, ContextCanceled) || Is(e, DeadlineExceeded) then WithAbort(Some(e))
    else e
  }

  /** `routeWebSocketPumpFailure` */
  function PumpFailure(e: Option<Error>): Error {
    if e.Some? && IsClassified(e.value) then e.value
    else if e.None? || Is(e.value, EndOfFile) then WithAbort(Some(Leaf(DispatchTransport)))
    else ClassifyRuntimeFailure(e.value)
  }

  function Normalize(r: PumpResult, requireResponse: bool): PumpResult {
    var failed := r.direction == Unknown || (requireResponse && r.normal && r.direction != Response);
    var r1 := if failed then r.(normal := false, error := Some(WithAbort(Some(PumpFailure(r.error))))) else r;
    if r1.normal then r1 else r1.(error := Some(PumpFailure(r1.error)))
  }

  /** `routeWebSocketFailureIsAbort`; a nil error is not an abort. */
  predicate FailedByAbort(e: Option<Error>) { e.Some? && IsAbort(e.value) }

  function Prefer(first: PumpResult, second: PumpResult): PumpResult {
    var s := Normalize(second, first.direction == Request);
    if s.direction == Response && s.normal then s
    else if FailedByAbort(first.error) && !s.normal && !FailedByAbort(s.error) then s
    else first
  }

  function MissingTerminalResult(): PumpResult {
    PumpResult(Response, false, Some(WithIncident(Leaf(Other(0)), MissingTerminal)))
  }

  predicate Completes(t: PumpResult) { t.direction == Response && t.normal }

  /** What `dispatch.StreamFailed` is given. */
  function ReportedFailure(t: PumpResult): Error { PumpFailure(t.error) }

  /** The terminal chosen when `second` is already queued behind `first`. */
  function Queued(first: PumpResult, second: PumpResult): PumpResult {
    var f := Normalize(first, false);
    if !f.normal then Prefer(f, second)
    else if f.direction == Response then f
    else Normalize(second, true)
  }

  /** The terminal chosen when nothing was queued behind `first` until the decision. */
  function Alone(first: PumpResult): PumpResult {
    var f := Normalize(first, false);
    if !f.normal || f.direction == Response then f else MissingTerminalResult()
  }

  /** An unclassified error that the stream's own sentinels say nothing about. */
  predicate RuntimeFailure(e: Error) {
    && !IsClassified(e) && !Is(e, EndOfFile) && !Is(e, BudgetExceeded)
    && !Is(e, AdmissionForced) && !EndedByContext(e)
  }

  /** An unclassified drain or end of the context, short of the Host budget. */
  predicate DrainedOrEnded(e: Error) {
    && !IsClassified(e) && !Is(e, EndOfFile) && !Is(e, BudgetExceeded)
    && (Is(e, AdmissionForced) || EndedByContext(e))
  }

  /** What is reported for a pump's error, from its own sentinels and disposition: a Host
      classification stays; a missing error or an EOF is an aborted transport; the Host
      budget is its incident; a drain or the context's end is an abort; and anything
      else, a runtime failure, is reported unclassified as it is. */
  lemma PumpFailureVerdict(e: Option<Error>)
    ensures var f := PumpFailure(e);
            && (e.Some? && IsClassified(e.value) ==> f == e.value)
            && (e.None? || (!IsClassified(e.value) && Is(e.value, EndOfFile)) ==>
                  DispositionOf(f) == Some(Abort) && SameSentinels(f, Leaf(DispatchTransport)))
            && (e.Some? && !IsClassified(e.value) && !Is(e.value, EndOfFile) ==> SameSentinels(f, e.value))
            && (e.Some? && !IsClassified(e.value) && !Is(e.value, EndOfFile) && Is(e.value, BudgetExceeded) ==>
                  DispositionOf(f) == Some(Incident(HostBudget)))
            && (e.Some? && DrainedOrEnded(e.value) ==> DispositionOf(f) == Some(Abort))
            && (DispositionOf(f).None? <==> e.Some? && RuntimeFailure(e.value))
  {
    assert forall s :: Is(WithAbort(Some(Leaf(DispatchTransport))), s) <==> Is(Leaf(DispatchTransport), s);
    if e.Some? {
      assert forall s :: Is(ClassifyRuntimeFailure(e.value), s) <==> Is(e.value, s);
    }
  }

  /** When the reported failure of a pump is an abort, in terms of its error alone. */
  predicate AbortsBy(e: Option<Error>) {
    match e
    case None => true
    case Some(x) =>
      if IsClassified(x) then IsAbort(x)
      else Is(x, EndOfFile) || (!Is(x, BudgetExceeded) && (Is(x, AdmissionForced) || EndedByContext(x)))
  }

  /** A result is out of order when it comes from neither pump, or ends normally where
      only the response pump may. */
  predicate OutOfOrder(r: PumpResult, requireResponse: bool) {
    r.direction == Unknown || (requireResponse && r.normal && r.direction == Request)
  }

  /** Normalizing keeps the direction and a normal end; a result out of order becomes an
      aborted failure, and a failed one carries what is reported for it. */
  lemma NormalizeMeaning(r: PumpResult, requireResponse: bool)
    ensures var n := Normalize(r, requireResponse);
            && n.direction == r.direction
            && (n.normal <==> r.normal && !OutOfOrder(r, requireResponse))
            && (n.normal ==> n == r)
            && (OutOfOrder(r, requireResponse) ==>
                  n.error.Some? && IsAbort(n.error.value) && SameSentinels(n.error.value, PumpFailure(r.error)))
            && (!n.normal && !OutOfOrder(r, requireResponse) ==> n.error == Some(PumpFailure(r.error)))
  {
    var aborted := WithAbort(Some(PumpFailure(r.error)));
    assert forall s :: Is(aborted, s) <==> Is(PumpFailure(r.error), s);
  }

  lemma PumpFailureIsStable(e: Option<Error>)
    ensures PumpFailure(Some(PumpFailure(e))) == PumpFailure(e)
  {
    if e.Some? && !IsClassified(e.value) && !Is(e.value, EndOfFile) {
      var f := ClassifyRuntimeFailure(e.value);
      assert IsClassified(f) || f == e.value;
    }
  }

  /** Both results queued: the bridge completes iff the response pump ended normally,
      whatever the order; otherwise an abort is reported iff every failing pump
      failed by abort, again whatever the order. */
  lemma ArbitrationIgnoresArrivalOrder(q: PumpResult, p: PumpResult)
    requires q.direction == Request && p.direction == Response
    ensures Completes(Queued(q, p)) <==> p.normal
    ensures Completes(Queued(p, q)) <==> p.normal
    ensures !p.normal ==>
              var abort := AbortsBy(p.error) && (q.normal || AbortsBy(q.error));
              && (IsAbort(ReportedFailure(Queued(q, p))) <==> abort)
              && (IsAbort(ReportedFailure(Queued(p, q))) <==> abort)
  {
    PumpFailureVerdict(q.error);
    PumpFailureVerdict(p.error);
    PumpFailureIsStable(q.error);
    PumpFailureIsStable(p.error);
  }

  /** The error itself depends on the order exactly when two different failures are
      equally strong. */
  lemma ReportedErrorDependsOnOrder(q: PumpResult, p: PumpResult)
    requires q.direction == Request && p.direction == Response && !p.normal
    ensures ReportedFailure(Queued(q, p)) != ReportedFailure(Queued(p, q)) <==>
            && !q.normal
            && IsAbort(PumpFailure(q.error)) == IsAbort(PumpFailure(p.error))
            && PumpFailure(q.error) != PumpFailure(p.error)
  {
    PumpFailureIsStable(q.error);
    PumpFailureIsStable(p.error);
  }

  // ---- the bridge and its pumps --------------------------------------------------

  datatype Outcome = Completed | StreamFailed(error: Error)

  datatype Pc =
    | AwaitFirst
    | PollFailed(first: PumpResult)
    | PollHalfClosed
    | Waiting
    | PollExpired
    | Decided(terminal: PumpResult, drain: bool)
    | Reported(terminal: PumpResult, drain: bool)
    | SessionCanceled(terminal: PumpResult, drain: bool)
    | ConnectionClosed(terminal: PumpResult, drain: bool)
    | BridgeReturned(terminal: PumpResult)

  /** `seen` is history: everything posted up to the step that decided. */
  datatype World = World(
    pc: Pc, grace: int, queue: seq<PumpResult>, consumed: seq<PumpResult>,
    requestPosted: bool, responsePosted: bool,
    outcomes: seq<Outcome>, cancels: nat, closes: nat, seen: seq<PumpResult>)

  datatype Action = Post(result: PumpResult) | Advance | TimerFires

  predicate Init(w: World) {
    && w.pc == AwaitFirst && w.queue == [] && w.consumed == [] && w.outcomes == []
    && !w.requestPosted && !w.responsePosted && w.cancels == 0 && w.closes == 0 && w.seen == []
  }

  predicate Enabled(w: World, a: Action) {
    match a
    case Post(r) =>
      || (r.direction == Request && !w.requestPosted)
      || (r.direction == Response && !w.responsePosted)
    case TimerFires => w.pc == Waiting
    case Advance =>
      match w.pc
      case AwaitFirst | Waiting => w.queue != []
      case ConnectionClosed(_, drain) => drain ==> w.queue != []
      case BridgeReturned(_) => false
      case _ => true
  }

  function Take(w: World): World
    requires w.queue != []
  {
    w.(consumed := w.consumed + [w.queue[0]], queue := w.queue[1..])
  }

  function Decide(w: World, t: PumpResult, drain: bool): World {
    w.(pc := Decided(t, drain), seen := w.consumed + w.queue)
  }

  /** `if second, ok := poll(results); ok { accept(second) } else { otherwise }` */
  function Poll(w: World, accept: PumpResult -> PumpResult, otherwise: World): World {
    if w.queue != [] then Decide(Take(w), accept(w.queue[0]), false) else otherwise
  }

  function AdvanceStep(w: World): World
    requires Enabled(w, Advance)
  {
    match w.pc
    case AwaitFirst =>
      var f := Normalize(w.queue[0], false);
      if !f.normal then Take(w).(pc := PollFailed(f))
      else if f.direction == Response then Decide(Take(w), f, true)
      else Take(w).(pc := PollHalfClosed)
    case PollFailed(first) =>
      Poll(w, second => Prefer(first, second), Decide(w, first, true))
    case PollHalfClosed =>
      Poll(w, second => Normalize(second, true),
           if w.grace <= 0 then Decide(w, MissingTerminalResult(), true) else w.(pc := Waiting))
    case Waiting => Decide(Take(w), Normalize(w.queue[0], true), false)
    case PollExpired =>
      Poll(w, second => Normalize(second, true), Decide(w, MissingTerminalResult(), true))
    case Decided(t, drain) =>
      w.(pc := Reported(t, drain),
         outcomes := w.outcomes + [if Completes(t) then Completed else StreamFailed(ReportedFailure(t))])
    case Reported(t, drain) => w.(pc := SessionCanceled(t, drain), cancels := w.cancels + 1)
    case SessionCanceled(t, drain) => w.(pc := ConnectionClosed(t, drain), closes := w.closes + 1)
    case ConnectionClosed(t, drain) => (if drain then Take(w) else w).(pc := BridgeReturned(t))
  }

  function Step(w: World, a: Action): World
    requires Enabled(w, a)
  {
    match a
    case Post(r) =>
      w.(queue := w.queue + [r],
         requestPosted := w.requestPosted || r.direction == Request,
         responsePosted := w.responsePosted || r.direction == Response)
    case TimerFires => w.(pc := PollExpired)
    case Advance => AdvanceStep(w)
  }

  ghost predicate Run(w: World, acts: seq<Action>, last: World)
    decreases |acts|
  {
    if acts == [] then w == last
    else Enabled(w, acts[0]) && Run(Step(w, acts[0]), acts[1..], last)
  }

  // ---- invariant -------------------------------------------------------------------

  function Posted(w: World): seq<PumpResult> { w.consumed + w.queue }

  /** One result per pump that posted, with the pump's own direction. */
  predicate FromPumps(s: seq<PumpResult>, request: bool, response: bool) {
    && |s| == (if request then 1 else 0) + (if response then 1 else 0)
    && (forall r :: r in s ==> r.direction != Unknown)
    && (|s| == 2 ==> s[0].direction != s[1].direction)
    && (|s| == 1 ==> (s[0].direction == Request <==> request))
  }

  /** The terminal the arbitration rules demand for what had been posted. */
  predicate Chosen(t: PumpResult, seen: seq<PumpResult>) {
    && 1 <= |seen| <= 2
    && t == if |seen| == 2 then Queued(seen[0], seen[1]) else Alone(seen[0])
  }

  predicate IsPrefix(a: seq<PumpResult>, b: seq<PumpResult>) {
    |a| <= |b| && b[..|a|] == a
  }

  /** After the decision: what is reported and when. */
  predicate DecidedInv(w: World, t: PumpResult, taken: nat, reported: bool, canceled: bool, closed: bool) {
    && Chosen(t, w.seen) && IsPrefix(w.seen, Posted(w)) && |w.consumed| == taken
    && w.outcomes == (if reported then [if Completes(t) then Completed else StreamFailed(ReportedFailure(t))] else [])
    && w.cancels == (if canceled then 1 else 0) && w.closes == (if closed then 1 else 0)
  }

  predicate Undecided(w: World, taken: nat) {
    w.outcomes == [] && w.cancels == 0 && w.closes == 0 && |w.consumed| == taken
  }

  predicate Inv(w: World) {
    && FromPumps(Posted(w), w.requestPosted, w.responsePosted)
    && match w.pc
       case AwaitFirst => Undecided(w, 0)
       case PollFailed(first) =>
         Undecided(w, 1) && first == Normalize(w.consumed[0], false) && !first.normal
       case PollHalfClosed | PollExpired | Waiting =>
         Undecided(w, 1) && w.consumed[0].direction == Request && w.consumed[0].normal
       case Decided(t, drain) => DecidedInv(w, t, if drain then 1 else 2, false, false, false)
       case Reported(t, drain) => DecidedInv(w, t, if drain then 1 else 2, true, false, false)
       case SessionCanceled(t, drain) => DecidedInv(w, t, if drain then 1 else 2, true, true, false)
       case ConnectionClosed(t, drain) => DecidedInv(w, t, if drain then 1 else 2, true, true, true)
       case BridgeReturned(t) => DecidedInv(w, t, 2, true, true, true)
  }

  lemma PostInv(w: World, r: PumpResult)
    requires Inv(w) && Enabled(w, Post(r))
    ensures Inv(Step(w, Post(r)))
  {
    var w' := Step(w, Post(r));
    assert Posted(w') == Posted(w) + [r];
  }

  lemma TakeKeepsPosted(w: World)
    requires w.queue != []
    ensures Posted(Take(w)) == Posted(w) && |Take(w).consumed| == |w.consumed| + 1
    ensures Posted(w)[|w.consumed|] == w.queue[0]
  {
  }

  /** A decision over everything posted so far. */
  lemma DecideInv(w: World, t: PumpResult, drain: bool, taken: nat)
    requires FromPumps(Posted(w), w.requestPosted, w.responsePosted)
    requires Undecided(w, taken) && taken == (if drain then 1 else 2) && Chosen(t, Posted(w))
    ensures Inv(Decide(w, t, drain))
  {
    assert Posted(Decide(w, t, drain)) == Posted(w);
  }

  lemma PollFailedInv(w: World)
    requires Inv(w) && w.pc.PollFailed?
    ensures Inv(Step(w, Advance))
  {
    var first := w.pc.first;
    assert Posted(w)[0] == w.consumed[0];
    if w.queue != [] {
      TakeKeepsPosted(w);
      assert Prefer(first, w.queue[0]) == Queued(Posted(w)[0], Posted(w)[1]);
      DecideInv(Take(w), Prefer(first, w.queue[0]), false, 2);
    } else {
      assert first == Alone(Posted(w)[0]);
      DecideInv(w, first, true, 1);
    }
  }

  lemma HalfClosedInv(w: World)
    requires Inv(w) && (w.pc.PollHalfClosed? || w.pc.PollExpired? || w.pc.Waiting?) && Enabled(w, Advance)
    ensures Inv(Step(w, Advance))
  {
    assert Posted(w)[0] == w.consumed[0];
    if w.queue != [] {
      TakeKeepsPosted(w);
      assert Normalize(w.queue[0], true) == Queued(Posted(w)[0], Posted(w)[1]);
      DecideInv(Take(w), Normalize(w.queue[0], true), false, 2);
    } else {
      assert MissingTerminalResult() == Alone(Posted(w)[0]);
      DecideInv(w, MissingTerminalResult(), true, 1);
    }
  }

  lemma AwaitFirstInv(w: World)
    requires Inv(w) && w.pc == AwaitFirst && Enabled(w, Advance)
    ensures Inv(Step(w, Advance))
  {
    TakeKeepsPosted(w);
    var f := Normalize(w.queue[0], false);
    assert w.queue[0] in Posted(w);
    assert Posted(w)[0] == Take(w).consumed[0] == w.queue[0];
    if f.normal && f.direction == Response {
      if |Posted(w)| == 2 { assert f == Queued(Posted(w)[0], Posted(w)[1]); }
      else { assert f == Alone(Posted(w)[0]); }
      DecideInv(Take(w), f, true, 1);
    }
  }

  lemma AdvanceInv(w: World)
    requires Inv(w) && Enabled(w, Advance)
    ensures Inv(Step(w, Advance))
  {
    match w.pc
    case AwaitFirst => AwaitFirstInv(w);
    case PollFailed(_) => PollFailedInv(w);
    case PollHalfClosed | PollExpired | Waiting => HalfClosedInv(w);
    case ConnectionClosed(_, _) => DrainInv(w);
    case Decided(_, _) | Reported(_, _) | SessionCanceled(_, _) => TeardownInv(w);
  }

  lemma DrainInv(w: World)
    requires Inv(w) && w.pc.ConnectionClosed? && Enabled(w, Advance)
    ensures Inv(Step(w, Advance))
  {
    if w.pc.drain { TakeKeepsPosted(w); }
    assert Posted(Step(w, Advance)) == Posted(w);
  }

  lemma TeardownInv(w: World)
    requires Inv(w) && (w.pc.Decided? || w.pc.Reported? || w.pc.SessionCanceled?)
    ensures Inv(Step(w, Advance))
  {
    assert Posted(Step(w, Advance)) == Posted(w);
  }

  lemma StepInv(w: World, a: Action)
    requires Inv(w) && Enabled(w, a)
    ensures Inv(Step(w, a))
  {
    match a
    case Post(r) => PostInv(w, r);
    case Advance => AdvanceInv(w);
    case TimerFires =>
  }

  lemma {:induction false} RunInv(w: World, acts: seq<Action>, last: World)
    requires Inv(w) && Run(w, acts, last)
    ensures Inv(last)
    decreases |acts|
  {
    if acts != [] {
      StepInv(w, acts[0]);
      RunInv(Step(w, acts[0]), acts[1..], last);
    }
  }

  // ---- main results ------------------------------------------------------------------

  predicate HasNormalResponse(s: seq<PumpResult>) {
    exists i :: 0 <= i < |s| && Completes(s[i])
  }

  /** In every interleaving of the pumps, the timer and the bridge: the bridge returns
      after consuming exactly the two pump results, with one outcome reported before
      the session was cancelled and the connection closed, and the outcome is Completed
      iff the response pump's normal end had been posted when the bridge decided. */
  lemma BridgeConsumesBothAndCompletesOnlyOnResponse(w: World, acts: seq<Action>, last: World)
    requires Init(w) && Run(w, acts, last) && last.pc.BridgeReturned?
    ensures last.requestPosted && last.responsePosted && last.queue == [] && |last.consumed| == 2
    ensures |last.outcomes| == 1 && last.cancels == 1 && last.closes == 1
    ensures last.outcomes == [Completed] <==> HasNormalResponse(last.seen)
  {
    RunInv(w, acts, last);
    assert Posted(last) == last.consumed + last.queue;
    ChosenCompletes(last.pc.terminal, last.seen, Posted(last));
  }

  lemma ChosenCompletes(t: PumpResult, seen: seq<PumpResult>, posted: seq<PumpResult>)
    requires Chosen(t, seen) && IsPrefix(seen, posted) && FromPumps(posted, true, true)
    ensures Completes(t) <==> HasNormalResponse(seen)
  {
    assert forall i :: 0 <= i < |seen| ==> seen[i] == posted[i] && seen[i] in posted;
    if |seen| == 2 {
      if seen[0].direction == Request {
        ArbitrationIgnoresArrivalOrder(seen[0], seen[1]);
      } else {
        ArbitrationIgnoresArrivalOrder(seen[1], seen[0]);
      }
    }
  }

  /** What the bridge had seen when it decided is the beginning of what it consumed, one
      result per pump. */
  lemma SeenWasConsumed(w: World, acts: seq<Action>, last: World)
    requires Init(w) && Run(w, acts, last) && last.pc.BridgeReturned?
    ensures FromPumps(last.consumed, true, true) && IsPrefix(last.seen, last.consumed)
  {
    RunInv(w, acts, last);
    BridgeConsumesBothAndCompletesOnlyOnResponse(w, acts, last);
    assert Posted(last) == last.consumed;
  }

  /** What the arbitration makes of one request and one response result in any order,
      from the errors of the pumps alone. */
  lemma QueuedOutcome(q: PumpResult, p: PumpResult)
    requires q.direction == Request && p.direction == Response && !p.normal
    ensures IsAbort(ReportedFailure(Queued(q, p))) <==> AbortsBy(p.error) && (q.normal || AbortsBy(q.error))
    ensures IsAbort(ReportedFailure(Queued(p, q))) <==> AbortsBy(p.error) && (q.normal || AbortsBy(q.error))
    ensures q.normal || (AbortsBy(q.error) && !AbortsBy(p.error)) ==>
              && ReportedFailure(Queued(q, p)) == PumpFailure(p.error)
              && ReportedFailure(Queued(p, q)) == PumpFailure(p.error)
    ensures !q.normal && AbortsBy(p.error) && !AbortsBy(q.error) ==>
              && ReportedFailure(Queued(q, p)) == PumpFailure(q.error)
              && ReportedFailure(Queued(p, q)) == PumpFailure(q.error)
    // equally strong failures: the one that came first
    ensures !q.normal && AbortsBy(p.error) == AbortsBy(q.error) ==>
              && ReportedFailure(Queued(q, p)) == PumpFailure(q.error)
              && ReportedFailure(Queued(p, q)) == PumpFailure(p.error)
  {
    PumpFailureVerdict(q.error);
    PumpFailureVerdict(p.error);
    PumpFailureIsStable(q.error);
    PumpFailureIsStable(p.error);
  }

  /** The single outcome of a run is the one the arbitration chose for what was seen. */
  lemma OutcomeIsChosen(w: World, acts: seq<Action>, last: World)
    requires Init(w) && Run(w, acts, last) && last.pc.BridgeReturned?
    ensures 1 <= |last.seen| <= 2 && IsPrefix(last.seen, last.consumed) && FromPumps(last.consumed, true, true)
    ensures var t := if |last.seen| == 2 then Queued(last.seen[0], last.seen[1]) else Alone(last.seen[0]);
            last.outcomes == [if Completes(t) then Completed else StreamFailed(ReportedFailure(t))]
  {
    RunInv(w, acts, last);
    SeenWasConsumed(w, acts, last);
  }

  /** The response pump crashed and had reported before the decision, and the request
      side ended normally, had not reported, or failed by a mere abort: the one outcome
      of the run is that crash, unclassified and with its own sentinels. */
  lemma RuntimeCrashIsReported(w: World, acts: seq<Action>, last: World, p: PumpResult)
    requires Init(w) && Run(w, acts, last) && last.pc.BridgeReturned?
    requires p in last.seen && p.direction == Response && !p.normal && p.error.Some? && RuntimeFailure(p.error.value)
    requires forall q :: q in last.seen && q.direction == Request ==> q.normal || AbortsBy(q.error)
    ensures |last.outcomes| == 1 && last.outcomes[0].StreamFailed?
    ensures DispositionOf(last.outcomes[0].error).None? && SameSentinels(last.outcomes[0].error, p.error.value)
  {
    OutcomeIsChosen(w, acts, last);
    PumpFailureVerdict(p.error);
    PumpFailureIsStable(p.error);
    assert forall i :: 0 <= i < |last.seen| ==> last.seen[i] == last.consumed[i];
    if |last.seen| == 2 {
      var q := if last.seen[0] == p then last.seen[1] else last.seen[0];
      assert q in last.seen && q.direction == Request;
      QueuedOutcome(q, p);
    } else {
      assert last.seen[0] == p;
    }
  }

  /** An abort is reported only if every pump that failed before the decision aborted,
      and a request side that ended normally alone is a missing terminal. */
  lemma AbortMeansOnlyAborts(w: World, acts: seq<Action>, last: World)
    requires Init(w) && Run(w, acts, last) && last.pc.BridgeReturned? && !HasNormalResponse(last.seen)
    ensures |last.outcomes| == 1 && last.outcomes[0].StreamFailed?
    ensures var f := last.outcomes[0].error;
            && (IsAbort(f) <==> OnlyAborts(last.seen))
            && (|last.seen| == 1 && last.seen[0].normal ==> DispositionOf(f) == Some(Incident(MissingTerminal)))
  {
    OutcomeIsChosen(w, acts, last);
    assert forall i :: 0 <= i < |last.seen| ==> last.seen[i] == last.consumed[i] && last.consumed[i] in last.consumed;
    if |last.seen| == 2 {
      var q, p := last.seen[0], last.seen[1];
      assert !Completes(q) && !Completes(p);
      if q.direction == Request { QueuedOutcome(q, p); } else { QueuedOutcome(p, q); }
      if q.direction == Request { ArbitrationIgnoresArrivalOrder(q, p); } else { ArbitrationIgnoresArrivalOrder(p, q); }
    } else {
      AloneOutcome(last.seen[0]);
    }
  }

  lemma AloneOutcome(r: PumpResult)
    requires r.direction != Unknown && !Completes(r)
    ensures !Completes(Alone(r))
    ensures r.normal ==> DispositionOf(ReportedFailure(Alone(r))) == Some(Incident(MissingTerminal))
    ensures !r.normal ==> (IsAbort(ReportedFailure(Alone(r))) <==> AbortsBy(r.error))
  {
    PumpFailureVerdict(r.error);
    PumpFailureIsStable(r.error);
  }

  /** Every failed result is an abort, and there is one. */
  predicate OnlyAborts(seen: seq<PumpResult>) {
    && (forall i :: 0 <= i < |seen| && !seen[i].normal ==> AbortsBy(seen[i].error))
    && (exists i :: 0 <= i < |seen| && !seen[i].normal)
  }

  /** Nothing is cancelled or closed before the outcome is reported. */
  lemma ReportPrecedesTeardown(w: World, acts: seq<Action>, last: World)
    requires Init(w) && Run(w, acts, last)
    ensures last.cancels > 0 || last.closes > 0 ==> |last.outcomes| == 1
    ensures last.closes > 0 ==> last.cancels == 1
    ensures last.outcomes == [] ==> !last.pc.BridgeReturned?
  {
    RunInv(w, acts, last);
  }

  /** The bridge only ever waits for a pump that has not ended yet, so it returns once
      both transports have let their pumps go. */
  lemma BridgeWaitsOnlyForPumps(w: World, acts: seq<Action>, last: World)
    requires Init(w) && Run(w, acts, last) && !last.pc.BridgeReturned?
    ensures Enabled(last, Advance) || !last.requestPosted || !last.responsePosted
    ensures Enabled(last, Advance) ==> Remaining(Step(last, Advance).pc) < Remaining(last.pc)
  {
    RunInv(w, acts, last);
    if Enabled(last, Advance) { AdvanceDescends(last); } else { WaitsForPump(last); }
  }

  lemma WaitsForPump(w: World)
    requires Inv(w) && !w.pc.BridgeReturned? && !Enabled(w, Advance)
    ensures !w.requestPosted || !w.responsePosted
  {
    assert |Posted(w)| == |w.consumed|;
  }

  lemma AdvanceDescends(w: World)
    requires Enabled(w, Advance)
    ensures Remaining(Step(w, Advance).pc) < Remaining(w.pc)
  {
    match w.pc
    case AwaitFirst =>
    case PollFailed(_) | PollHalfClosed | PollExpired =>
    case Waiting =>
    case Decided(_, _) | Reported(_, _) | SessionCanceled(_, _) | ConnectionClosed(_, _) =>
  }

  function Remaining(pc: Pc): nat {
    match pc
    case AwaitFirst => 9 case PollFailed(_) => 8 case PollHalfClosed => 8 case Waiting => 7
    case PollExpired => 6
    case Decided(_, _) => 4 case Reported(_, _) => 3 case SessionCanceled(_, _) => 2
    case ConnectionClosed(_, _) => 1 case BridgeReturned(_) => 0
  }
}
