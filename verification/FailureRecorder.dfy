/** `RouteFailureRecorder`: recorders enqueue under a read lock, incidents are counted by
    a wait group, Close shuts the door under the write lock and waits for the drain. */
module FailureRecorder {

  datatype Pc =
    // RecordCommittedAfterFailure, ordinary event
    | RecordRLock(event: nat) | RecordCheck(event: nat) | RecordEnqueue(event: nat) | RecordRUnlock
    // a runtime incident
    | IncidentLock | IncidentCheck | IncidentUnlock(admitted: bool)
    | IncidentCreate | IncidentQuarantine(persisted: bool) | IncidentResolve | IncidentDone
    // Close
    | CloseLock | CloseSet | CloseUnlock | CloseSelect
    | CloseReturned(ok: bool)
    // the waiter goroutine that Close `closer` starts
    | WaitIncidents(closer: nat) | WaitDrain(closer: nat)
    | Ended

  /** The drain goroutine. */
  datatype Drain = Selecting | Appending(event: nat, draining: bool) | Draining | Exited

  /** `enqueued` and `attempted` are histories; `finished` are the closers whose waiter
      has closed its channel. */
  datatype World = World(
    capacity: nat, closed: bool, queue: seq<nat>, dropped: nat,
    enqueued: seq<nat>, attempted: seq<nat>, accepted: nat,
    drain: Drain, readers: set<nat>, writer: set<nat>, waitGroup: nat,
    finished: set<nat>, threads: map<nat, Pc>)

  datatype Call = RecordEvent(event: nat) | RecordIncident | Close

  datatype Action =
    | Begin(t: nat, call: Call)
    | Spawn(closer: nat, t: nat)
    | Tick(t: nat)
    | PersistFails(t: nat)
    | ContextDone(t: nat)
    | DrainTake
    | DrainStop
    | DrainAppend
    | DrainExit

  predicate Init(w: World) {
    && w.capacity > 0 && !w.closed && w.queue == [] && w.dropped == 0
    && w.enqueued == [] && w.attempted == [] && w.accepted == 0
    && w.drain == Selecting && w.readers == {} && w.writer == {} && w.waitGroup == 0
    && w.finished == {} && w.threads == map[]
  }

  function FirstPc(call: Call): Pc {
    match call
    case RecordEvent(e) => RecordRLock(e)
    case RecordIncident => IncidentLock
    case Close => CloseLock
  }

  predicate CanTick(w: World, t: nat)
    requires t in w.threads
  {
    match w.threads[t]
    case RecordRLock(_) => w.writer == {}
    case IncidentLock | CloseLock => w.writer == {} && w.readers == {}
    case WaitIncidents(_) => w.waitGroup == 0
    case WaitDrain(_) => w.drain.Exited?
    case CloseSelect => t in w.finished
    case CloseReturned(_) | Ended => false
    case _ => true
  }

  predicate Enabled(w: World, a: Action) {
    match a
    case Begin(t, _) => t !in w.threads
    case Spawn(closer, t) => closer in w.threads && w.threads[closer].CloseSelect? && t !in w.threads
    case Tick(t) => t in w.threads && CanTick(w, t)
    case PersistFails(t) => t in w.threads && w.threads[t].IncidentCreate?
    case ContextDone(t) => t in w.threads && w.threads[t].CloseSelect?
    case DrainTake => (w.drain.Selecting? || w.drain.Draining?) && w.queue != []
    case DrainStop => w.drain.Selecting? && w.closed
    case DrainAppend => w.drain.Appending?
    case DrainExit => w.drain.Draining? && w.queue == []
  }

  function Go(w: World, t: nat, pc: Pc): World { w.(threads := w.threads[t := pc]) }

  /** `select { case queue <- item: default: dropped.Add(1) }` */
  function Enqueue(w: World, e: nat): World {
    if |w.queue| < w.capacity then
      w.(queue := w.queue + [e], enqueued := w.enqueued + [e], accepted := w.accepted + 1)
    else w.(dropped := w.dropped + 1, accepted := w.accepted + 1)
  }

  /** Where thread `t` goes next. */
  function NextPc(w: World, pc: Pc): Pc
    requires !pc.CloseReturned? && !pc.Ended?
  {
    match pc
    case RecordRLock(e) => RecordCheck(e)
    case RecordCheck(e) => if w.closed then RecordRUnlock else RecordEnqueue(e)
    case RecordEnqueue(_) => RecordRUnlock
    case RecordRUnlock => Ended
    case IncidentLock => IncidentCheck
    case IncidentCheck => IncidentUnlock(!w.closed)
    case IncidentUnlock(admitted) => if admitted then IncidentCreate else Ended
    case IncidentCreate => IncidentQuarantine(true)
    case IncidentQuarantine(persisted) => if persisted then IncidentResolve else IncidentDone
    case IncidentResolve => IncidentDone
    case IncidentDone => Ended
    case CloseLock => CloseSet
    case CloseSet => CloseUnlock
    case CloseUnlock => CloseSelect
    case CloseSelect => CloseReturned(true)
    case WaitIncidents(c) => WaitDrain(c)
    case WaitDrain(_) => Ended
  }

  /** What it does to the recorder on the way. */
  function Effect(w: World, t: nat, pc: Pc): World {
    match pc
    case RecordRLock(_) => w.(readers := w.readers + {t})
    case RecordEnqueue(e) => Enqueue(w, e)
    case RecordRUnlock => w.(readers := w.readers - {t})
    case IncidentLock | CloseLock => w.(writer := {t})
    case IncidentCheck => if w.closed then w else w.(waitGroup := w.waitGroup + 1)
    case IncidentUnlock(_) | CloseUnlock => w.(writer := {})
    case IncidentDone => w.(waitGroup := if w.waitGroup > 0 then w.waitGroup - 1 else 0)
    case CloseSet => w.(closed := true)
    case WaitDrain(c) => w.(finished := w.finished + {c})
    case _ => w
  }

  function TickStep(w: World, t: nat): World
    requires Enabled(w, Tick(t))
  {
    Go(Effect(w, t, w.threads[t]), t, NextPc(w, w.threads[t]))
  }

  function Step(w: World, a: Action): World
    requires Enabled(w, a)
  {
    match a
    case Begin(t, call) => Go(w, t, FirstPc(call))
    case Spawn(closer, t) => Go(w, t, WaitIncidents(closer))
    case Tick(t) => TickStep(w, t)
    case PersistFails(t) => Go(w, t, IncidentQuarantine(false))
    case ContextDone(t) => Go(w, t, CloseReturned(false))
    case DrainTake => w.(queue := w.queue[1..], drain := Appending(w.queue[0], w.drain.Draining?))
    case DrainStop => w.(drain := Draining)
    case DrainAppend =>
      w.(attempted := w.attempted + [w.drain.event], drain := if w.drain.draining then Draining else Selecting)
    case DrainExit => w.(drain := Exited)
  }

  ghost predicate Run(w: World, acts: seq<Action>, last: World)
    decreases |acts|
  {
    if acts == [] then w == last
    else Enabled(w, acts[0]) && Run(Step(w, acts[0]), acts[1..], last)
  }

  // ---- invariant ------------------------------------------------------------------

  predicate HoldsRead(pc: Pc) { pc.RecordCheck? || pc.RecordEnqueue? || pc.RecordRUnlock? }

  predicate HoldsWrite(pc: Pc) {
    pc.IncidentCheck? || pc.IncidentUnlock? || pc.CloseSet? || pc.CloseUnlock?
  }

  /** Counted by the wait group. */
  predicate InFlight(pc: Pc) {
    || (pc.IncidentUnlock? && pc.admitted)
    || pc.IncidentCreate? || pc.IncidentQuarantine? || pc.IncidentResolve? || pc.IncidentDone?
  }

  function InFlightOf(threads: map<nat, Pc>): set<nat> {
    set t | t in threads && InFlight(threads[t])
  }

  function Incidents(w: World): set<nat> { InFlightOf(w.threads) }

  function InHand(d: Drain): seq<nat> { if d.Appending? then [d.event] else [] }

  predicate HoldsExactly(w: World, t: nat) {
    && (t in w.readers <==> t in w.threads && HoldsRead(w.threads[t]))
    && (t in w.writer <==> t in w.threads && HoldsWrite(w.threads[t]))
  }

  /** Many readers or one writer. */
  ghost predicate LockInv(w: World) {
    && (forall t :: HoldsExactly(w, t))
    && (w.writer != {} ==> w.readers == {} && |w.writer| == 1)
  }

  /** FIFO accounting: everything enqueued is attempted, in hand or queued, in order. */
  predicate QueueInv(w: World) {
    && w.enqueued == w.attempted + InHand(w.drain) + w.queue
    && w.accepted == |w.enqueued| + w.dropped
    && |w.queue| <= w.capacity
  }

  predicate DrainInv(w: World) {
    && (w.drain.Draining? || w.drain.Exited? || (w.drain.Appending? && w.drain.draining) ==> w.closed)
    && (w.drain.Exited? ==> w.queue == [])
  }

  /** The read lock keeps the door as it was found open. */
  predicate ThreadInv(w: World, t: nat, pc: Pc) {
    match pc
    case RecordEnqueue(_) => !w.closed
    case CloseUnlock | CloseSelect => w.closed
    case WaitIncidents(_) => w.closed
    case WaitDrain(_) => w.closed && w.waitGroup == 0
    case CloseReturned(ok) => w.closed && (ok ==> w.waitGroup == 0 && w.drain.Exited?)
    case _ => true
  }

  ghost predicate Inv(w: World) {
    && LockInv(w) && QueueInv(w) && DrainInv(w)
    && w.waitGroup == |Incidents(w)|
    && (forall t :: t in w.threads ==> ThreadInv(w, t, w.threads[t]))
    && (w.finished != {} ==> w.closed && w.waitGroup == 0 && w.drain.Exited?)
  }

  lemma InFlightUpdate(threads: map<nat, Pc>, t: nat, pc: Pc)
    ensures InFlightOf(threads[t := pc]) ==
            if InFlight(pc) then InFlightOf(threads) + {t} else InFlightOf(threads) - {t}
  {
  }

  lemma GroupUpdate(threads: map<nat, Pc>, t: nat, pc: Pc)
    requires t in threads
    ensures var was, is_ := InFlight(threads[t]), InFlight(pc);
            && (is_ && !was ==> |InFlightOf(threads[t := pc])| == |InFlightOf(threads)| + 1)
            && (was && !is_ ==> |InFlightOf(threads)| > 0 && |InFlightOf(threads[t := pc])| == |InFlightOf(threads)| - 1)
            && (was == is_ ==> InFlightOf(threads[t := pc]) == InFlightOf(threads))
            && (!is_ || was ==> InFlightOf(threads[t := pc]) <= InFlightOf(threads))
  {
    InFlightUpdate(threads, t, pc);
    assert InFlight(threads[t]) <==> t in InFlightOf(threads);
  }

  lemma OneWriter(w: World, t: nat, u: nat)
    requires LockInv(w) && t in w.writer && u in w.writer
    ensures t == u
  {
    if t != u { assert {t, u} <= w.writer; SubsetSize({t, u}, w.writer); }
  }

  lemma {:induction false} SubsetSize(a: set<nat>, b: set<nat>)
    requires a <= b
    ensures |a| <= |b|
  {
    assert b == a + (b - a);
  }

  /** The locks follow the thread that moves. */
  lemma MovedHolds(w: World, t: nat)
    requires LockInv(w) && Enabled(w, Tick(t))
    ensures HoldsExactly(Step(w, Tick(t)), t)
  {
    assert HoldsExactly(w, t);
    EffectHolds(w, t, w.threads[t]);
    NextHolds(w, w.threads[t]);
  }

  /** Which locks a move leaves its thread with. */
  lemma EffectHolds(w: World, t: nat, pc: Pc)
    ensures var v := Effect(w, t, pc);
            && (t in v.readers <==> pc.RecordRLock? || (t in w.readers && !pc.RecordRUnlock?))
            && (t in v.writer <==> pc.IncidentLock? || pc.CloseLock? ||
                                   (t in w.writer && !pc.IncidentUnlock? && !pc.CloseUnlock?))
  {
  }

  lemma NextHolds(w: World, pc: Pc)
    requires !pc.CloseReturned? && !pc.Ended?
    ensures HoldsRead(NextPc(w, pc)) <==> pc.RecordRLock? || (HoldsRead(pc) && !pc.RecordRUnlock?)
    ensures HoldsWrite(NextPc(w, pc)) <==> pc.IncidentLock? || pc.CloseLock? ||
                                           (HoldsWrite(pc) && !pc.IncidentUnlock? && !pc.CloseUnlock?)
  {
  }

  lemma OthersHold(w: World, t: nat, u: nat)
    requires LockInv(w) && Enabled(w, Tick(t)) && u != t
    ensures HoldsExactly(Step(w, Tick(t)), u)
  {
    assert HoldsExactly(w, t) && HoldsExactly(w, u);
    if t in w.writer && u in w.writer { OneWriter(w, t, u); }
  }

  lemma LocksExclude(w: World, t: nat)
    requires LockInv(w) && Enabled(w, Tick(t))
    ensures var w' := Effect(w, t, w.threads[t]); w'.writer != {} ==> w'.readers == {} && |w'.writer| == 1
  {
    assert HoldsExactly(w, t);
  }

  lemma TickLocks(w: World, t: nat)
    requires LockInv(w) && Enabled(w, Tick(t))
    ensures LockInv(Step(w, Tick(t)))
  {
    LocksExclude(w, t);
    forall u ensures HoldsExactly(Step(w, Tick(t)), u) {
      if u == t { MovedHolds(w, t); } else { OthersHold(w, t, u); }
    }
  }

  lemma EffectOnQueue(w: World, t: nat, pc: Pc)
    requires !pc.RecordEnqueue?
    ensures var w' := Effect(w, t, pc);
            && w'.queue == w.queue && w'.enqueued == w.enqueued && w'.dropped == w.dropped
            && w'.accepted == w.accepted && w'.attempted == w.attempted && w'.drain == w.drain
            && w'.capacity == w.capacity && (w.closed ==> w'.closed)
  {
  }

  lemma TickQueue(w: World, t: nat)
    requires QueueInv(w) && DrainInv(w) && Enabled(w, Tick(t))
    requires w.threads[t].RecordEnqueue? ==> !w.closed
    ensures var w' := Step(w, Tick(t));
            QueueInv(w') && DrainInv(w') && w'.drain == w.drain
    ensures var w' := Step(w, Tick(t));
            w.closed ==> w'.closed && w'.queue == w.queue && w'.enqueued == w.enqueued &&
                         w'.dropped == w.dropped && w'.accepted == w.accepted
  {
    var pc := w.threads[t];
    if !pc.RecordEnqueue? { EffectOnQueue(w, t, pc); }
  }

  lemma TickThread(w: World, t: nat)
    requires Enabled(w, Tick(t))
    ensures var w' := Step(w, Tick(t));
            var was, is_ := InFlight(w.threads[t]), t in w'.threads && InFlight(w'.threads[t]);
            && t in w'.threads && w'.threads == w.threads[t := w'.threads[t]]
            && (is_ && !was ==> !w.closed && w'.waitGroup == w.waitGroup + 1)
            && (was && !is_ ==> w'.waitGroup == if w.waitGroup > 0 then w.waitGroup - 1 else 0)
            && (was == is_ ==> w'.waitGroup == w.waitGroup)
  {
  }

  lemma TickGroup(w: World, t: nat)
    requires w.waitGroup == |Incidents(w)| && Enabled(w, Tick(t))
    ensures Step(w, Tick(t)).waitGroup == |Incidents(Step(w, Tick(t)))|
    ensures w.closed ==> Incidents(Step(w, Tick(t))) <= Incidents(w)
    ensures w.closed && w.waitGroup == 0 ==> Step(w, Tick(t)).waitGroup == 0
  {
    var w' := Step(w, Tick(t));
    TickThread(w, t);
    GroupUpdate(w.threads, t, w'.threads[t]);
  }

  /** The door closes only when no recorder is inside, and an admitted incident is
      never added to a wait group that somebody may already have waited out. */
  lemma TickOthers(w: World, t: nat, u: nat)
    requires Inv(w) && Enabled(w, Tick(t)) && u in w.threads && u != t
    ensures var w' := Step(w, Tick(t)); ThreadInv(w', u, w'.threads[u])
  {
    var w' := Step(w, Tick(t));
    assert w'.threads[u] == w.threads[u] && ThreadInv(w, u, w.threads[u]);
    assert HoldsExactly(w, t) && HoldsExactly(w, u);
    TickGroup(w, t);
    if w.threads[t].CloseSet? && w.threads[u].RecordEnqueue? {
      assert t in w.writer && u in w.readers;
    }
  }

  lemma TickSelf(w: World, t: nat)
    requires Inv(w) && Enabled(w, Tick(t))
    ensures var w' := Step(w, Tick(t)); ThreadInv(w', t, w'.threads[t])
  {
    assert ThreadInv(w, t, w.threads[t]);
    assert HoldsExactly(w, t);
  }

  lemma TickInv(w: World, t: nat)
    requires Inv(w) && Enabled(w, Tick(t))
    ensures Inv(Step(w, Tick(t)))
  {
    var w' := Step(w, Tick(t));
    assert ThreadInv(w, t, w.threads[t]);
    TickLocks(w, t);
    TickQueue(w, t);
    TickGroup(w, t);
    TickSelf(w, t);
    forall u | u in w'.threads ensures ThreadInv(w', u, w'.threads[u]) {
      if u != t { TickOthers(w, t, u); }
    }
  }

  /** A thread that starts, or moves without touching locks, queue or wait group. */
  lemma QuietMove(w: World, t: nat, pc: Pc)
    requires Inv(w) && !HoldsRead(pc) && !HoldsWrite(pc) && ThreadInv(w, t, pc)
    requires t in w.threads ==> !HoldsRead(w.threads[t]) && !HoldsWrite(w.threads[t])
    requires InFlight(pc) <==> t in w.threads && InFlight(w.threads[t])
    ensures Inv(Go(w, t, pc))
  {
    var w' := Go(w, t, pc);
    InFlightUpdate(w.threads, t, pc);
    assert Incidents(w') == Incidents(w);
    forall u ensures HoldsExactly(w', u) { assert HoldsExactly(w, u); }
    forall u | u in w'.threads ensures ThreadInv(w', u, w'.threads[u]) {
      if u != t { assert ThreadInv(w, u, w.threads[u]); }
    }
  }

  lemma DrainStepInv(w: World, a: Action)
    requires Inv(w) && Enabled(w, a)
    requires a.DrainTake? || a.DrainStop? || a.DrainAppend? || a.DrainExit?
    ensures Inv(Step(w, a))
  {
    var w' := Step(w, a);
    assert w'.threads == w.threads && Incidents(w') == Incidents(w);
    forall u ensures HoldsExactly(w', u) { assert HoldsExactly(w, u); }
    forall u | u in w'.threads ensures ThreadInv(w', u, w'.threads[u]) {
      assert ThreadInv(w, u, w.threads[u]);
    }
  }

  lemma StepInv(w: World, a: Action)
    requires Inv(w) && Enabled(w, a)
    ensures Inv(Step(w, a))
  {
    match a
    case Tick(t) => TickInv(w, t);
    case Begin(t, call) => QuietMove(w, t, FirstPc(call));
    case Spawn(closer, t) =>
      assert ThreadInv(w, closer, w.threads[closer]);
      QuietMove(w, t, WaitIncidents(closer));
    case PersistFails(t) => QuietMove(w, t, IncidentQuarantine(false));
    case ContextDone(t) =>
      assert ThreadInv(w, t, w.threads[t]);
      QuietMove(w, t, CloseReturned(false));
    case DrainTake | DrainStop | DrainAppend | DrainExit => DrainStepInv(w, a);
  }

  lemma {:induction false} RunPreserves(p: World -> bool, w: World, acts: seq<Action>, last: World)
    requires Inv(w) && p(w) && Run(w, acts, last)
    requires forall v, a | Inv(v) && p(v) && Enabled(v, a) :: p(Step(v, a))
    ensures Inv(last) && p(last)
    decreases |acts|
  {
    if acts != [] {
      StepInv(w, acts[0]);
      RunPreserves(p, Step(w, acts[0]), acts[1..], last);
    }
  }

  // ---- main results ------------------------------------------------------------------

  /** Every accepted event is attempted exactly once, in the order it was enqueued, or
      is still in hand, queued, or counted as dropped. */
  lemma EveryAcceptedEventIsAccounted(w: World, acts: seq<Action>, last: World)
    requires Init(w) && Run(w, acts, last)
    ensures last.enqueued == last.attempted + InHand(last.drain) + last.queue
    ensures last.accepted == |last.attempted| + |InHand(last.drain)| + |last.queue| + last.dropped
    ensures |last.queue| <= last.capacity
  {
    RunPreserves(_ => true, w, acts, last);
  }

  /** After `closed` is set nothing is accepted and no incident begins. */
  lemma ClosedDoorStaysShut(w: World, acts: seq<Action>, last: World)
    requires Inv(w) && w.closed && Run(w, acts, last)
    ensures last.closed && last.enqueued == w.enqueued && last.dropped == w.dropped
    ensures last.accepted == w.accepted && Incidents(last) <= Incidents(w)
  {
    var p := (v: World) => Shut(v, w);
    forall v, a | Inv(v) && p(v) && Enabled(v, a) ensures p(Step(v, a)) {
      ShutStep(v, a, w);
    }
    RunPreserves(p, w, acts, last);
  }

  lemma ShutStep(v: World, a: Action, since: World)
    requires Inv(v) && Shut(v, since) && Enabled(v, a)
    ensures Shut(Step(v, a), since)
  {
    match a
    case Tick(t) =>
      assert ThreadInv(v, t, v.threads[t]);
      TickQueue(v, t);
      TickGroup(v, t);
    case Begin(t, call) => InFlightUpdate(v.threads, t, FirstPc(call));
    case Spawn(closer, t) => InFlightUpdate(v.threads, t, WaitIncidents(closer));
    case PersistFails(t) => InFlightUpdate(v.threads, t, IncidentQuarantine(false));
    case ContextDone(t) => InFlightUpdate(v.threads, t, CloseReturned(false));
    case DrainTake | DrainStop | DrainAppend | DrainExit =>
      assert Step(v, a).threads == v.threads;
  }

  predicate Shut(v: World, since: World) {
    && v.closed && v.enqueued == since.enqueued && v.dropped == since.dropped
    && v.accepted == since.accepted && Incidents(v) <= Incidents(since)
  }

  /** Close answering nil means: queue empty and fully attempted, drain gone, no
      incident in flight. And it stays so. */
  lemma CloseNilMeansDrained(w: World, acts: seq<Action>, last: World, t: nat)
    requires Inv(w) && t in w.threads && w.threads[t] == CloseReturned(true)
    requires Run(w, acts, last)
    ensures last.queue == [] && last.drain.Exited? && last.attempted == last.enqueued == w.enqueued
    ensures Incidents(last) == {} && last.waitGroup == 0
    ensures last.accepted == |last.attempted| + last.dropped
  {
    assert ThreadInv(w, t, w.threads[t]);
    ClosedDoorStaysShut(w, acts, last);
    RunPreserves((v: World) => v.drain.Exited?, w, acts, last);
    assert Incidents(w) == {};
  }

  /** Once the door is shut the drain never blocks and ends after a bounded number of
      its own steps, having attempted everything. */
  lemma DrainTerminates(w: World, a: Action)
    requires Inv(w) && w.closed
    ensures !w.drain.Exited? ==>
              Enabled(w, DrainTake) || Enabled(w, DrainStop) || Enabled(w, DrainAppend) || Enabled(w, DrainExit)
    ensures Enabled(w, a) ==>
              DrainLeft(Step(w, a)) <= DrainLeft(w)
    ensures Enabled(w, a) && (a.DrainTake? || a.DrainStop? || a.DrainAppend? || a.DrainExit?) ==>
              DrainLeft(Step(w, a)) < DrainLeft(w)
  {
    if Enabled(w, a) && a.Tick? {
      assert ThreadInv(w, a.t, w.threads[a.t]);
      TickQueue(w, a.t);
    }
  }

  function DrainLeft(w: World): nat {
    2 * |w.queue| + match w.drain
                    case Selecting => 2
                    case Appending(_, draining) => if draining then 2 else 3
                    case Draining => 1
                    case Exited => 0
  }

  /** Nothing that Close waits for waits for Close: with the door shut, whenever the
      waiter cannot step, the drain or an admitted incident can. */
  lemma CloseIsNotDeadlocked(w: World, t: nat) returns (next: Action)
    requires Inv(w) && t in w.threads && (w.threads[t].WaitIncidents? || w.threads[t].WaitDrain?)
    ensures Enabled(w, next)
    ensures next == Tick(t) || !next.Tick? || InFlight(w.threads[next.t])
  {
    assert ThreadInv(w, t, w.threads[t]);
    if CanTick(w, t) {
      next := Tick(t);
    } else if w.threads[t].WaitIncidents? {
      var i :| i in Incidents(w);
      next := Tick(i);
    } else {
      next := if w.drain.Appending? then DrainAppend
              else if w.drain.Selecting? then DrainStop
              else if w.queue != [] then DrainTake else DrainExit;
    }
  }

  // ---- what each caller does ------------------------------------------------------------

  predicate MovedBy(a: Action, t: nat) { (a.Tick? || a.PersistFails? || a.ContextDone?) && a.t == t }

  /** The program points at which thread `t` moves in a run: the calls it makes. */
  ghost function Trail(w: World, acts: seq<Action>, t: nat): seq<Pc>
    decreases |acts|
  {
    if acts == [] || !Enabled(w, acts[0]) then []
    else (if MovedBy(acts[0], t) then [w.threads[t]] else []) + Trail(Step(w, acts[0]), acts[1..], t)
  }

  lemma OthersKeep(w: World, t: nat, a: Action)
    requires t in w.threads && Enabled(w, a) && !MovedBy(a, t)
    ensures t in Step(w, a).threads && Step(w, a).threads[t] == w.threads[t]
    ensures w.closed ==> Step(w, a).closed
  {
  }

  lemma DoorStaysShut(w: World, a: Action)
    requires w.closed && Enabled(w, a)
    ensures Step(w, a).closed
  {
  }

  lemma {:induction false} ShutToTheEnd(w: World, acts: seq<Action>, last: World)
    requires w.closed && Run(w, acts, last)
    ensures last.closed
    decreases |acts|
  {
    if acts != [] {
      DoorStaysShut(w, acts[0]);
      ShutToTheEnd(Step(w, acts[0]), acts[1..], last);
    }
  }

  /** What follows a persisted, or a failed, CreatePending. */
  function Handling(persisted: bool): seq<Pc> {
    if persisted then [IncidentQuarantine(true), IncidentResolve, IncidentDone]
    else [IncidentQuarantine(false), IncidentDone]
  }

  predicate Created(trail: seq<Pc>) {
    trail == [IncidentCreate] + Handling(true) || trail == [IncidentCreate] + Handling(false)
  }

  /** What follows the check at the door. */
  predicate Decided(trail: seq<Pc>, closed: bool) {
    || (trail == [IncidentUnlock(false)] && closed)
    || (trail != [] && trail[0] == IncidentUnlock(true) && Created(trail[1..]))
  }

  /** What is left for an incident to do from `pc`; a refusal needs a closed door. */
  predicate IncidentLeft(pc: Pc, trail: seq<Pc>, closed: bool) {
    match pc
    case IncidentLock => |trail| >= 2 && trail[0] == IncidentLock && trail[1] == IncidentCheck && Decided(trail[2..], closed)
    case IncidentCheck => trail != [] && trail[0] == IncidentCheck && Decided(trail[1..], closed)
    case IncidentUnlock(_) => trail != [] && trail[0] == pc && Decided(trail, closed)
    case IncidentCreate => Created(trail)
    case IncidentQuarantine(persisted) => trail == Handling(persisted)
    case IncidentResolve => trail == [IncidentResolve, IncidentDone]
    case IncidentDone => trail == [IncidentDone]
    case Ended => trail == []
    case _ => true
  }

  predicate InIncident(pc: Pc) {
    || pc.IncidentLock? || pc.IncidentCheck? || pc.IncidentUnlock? || pc.IncidentCreate?
    || pc.IncidentQuarantine? || pc.IncidentResolve? || pc.IncidentDone?
  }

  lemma IncidentMove(w: World, t: nat, a: Action, rest: seq<Pc>, closed: bool)
    requires t in w.threads && InIncident(w.threads[t]) && Enabled(w, a) && MovedBy(a, t)
    requires IncidentLeft(Step(w, a).threads[t], rest, closed) && (w.closed ==> closed)
    requires w.threads[t] == IncidentUnlock(false) ==> closed
    ensures IncidentLeft(w.threads[t], [w.threads[t]] + rest, closed)
  {
    var trail := [w.threads[t]] + rest;
    assert trail[1..] == rest;
    assert rest != [] ==> trail[2..] == rest[1..];
  }

  lemma TrailStep(w: World, acts: seq<Action>, t: nat)
    requires acts != [] && Enabled(w, acts[0]) && t in w.threads
    ensures var rest := Trail(Step(w, acts[0]), acts[1..], t);
            Trail(w, acts, t) == if MovedBy(acts[0], t) then [w.threads[t]] + rest else rest
  {
  }

  lemma IncidentNext(w: World, t: nat, a: Action)
    requires t in w.threads && InIncident(w.threads[t]) && Enabled(w, a) && MovedBy(a, t)
    ensures t in Step(w, a).threads && (Step(w, a).threads[t].Ended? || InIncident(Step(w, a).threads[t]))
    ensures Step(w, a).threads[t] == IncidentUnlock(false) ==> Step(w, a).closed
  {
  }

  lemma EndedStands(w: World, t: nat, a: Action)
    requires t in w.threads && w.threads[t].Ended? && Enabled(w, a)
    ensures !MovedBy(a, t)
  {
  }

  lemma {:induction false} IncidentFrom(w: World, t: nat, acts: seq<Action>, last: World)
    requires t in w.threads && (InIncident(w.threads[t]) || w.threads[t].Ended?)
    requires w.threads[t] == IncidentUnlock(false) ==> w.closed
    requires Run(w, acts, last) && t in last.threads && last.threads[t].Ended?
    ensures IncidentLeft(w.threads[t], Trail(w, acts, t), last.closed)
    decreases |acts|
  {
    if acts != [] {
      var v := Step(w, acts[0]);
      TrailStep(w, acts, t);
      if MovedBy(acts[0], t) {
        if w.closed { ShutToTheEnd(w, acts, last); }
        if w.threads[t].Ended? { EndedStands(w, t, acts[0]); }
        IncidentNext(w, t, acts[0]);
        IncidentFrom(v, t, acts[1..], last);
        IncidentMove(w, t, acts[0], Trail(v, acts[1..], t), last.closed);
      } else {
        OthersKeep(w, t, acts[0]);
        IncidentFrom(v, t, acts[1..], last);
      }
    }
  }

  /** Every incident that ended was either refused at a closed door, or admitted, and then
      persisted or not, quarantined exactly once in either case, resolved exactly if it
      was persisted, and counted out, in this order. */
  lemma IncidentLifecycle(w: World, t: nat, acts: seq<Action>, last: World)
    requires Enabled(w, Begin(t, RecordIncident)) && Run(Step(w, Begin(t, RecordIncident)), acts, last)
    requires t in last.threads && last.threads[t].Ended?
    ensures var trail := Trail(Step(w, Begin(t, RecordIncident)), acts, t);
            || (trail == [IncidentLock, IncidentCheck, IncidentUnlock(false)] && last.closed)
            || trail == [IncidentLock, IncidentCheck, IncidentUnlock(true), IncidentCreate,
                         IncidentQuarantine(true), IncidentResolve, IncidentDone]
            || trail == [IncidentLock, IncidentCheck, IncidentUnlock(true), IncidentCreate,
                         IncidentQuarantine(false), IncidentDone]
  {
    var v := Step(w, Begin(t, RecordIncident));
    IncidentFrom(v, t, acts, last);
    var trail := Trail(v, acts, t);
    assert trail == trail[..2] + trail[2..];
    if trail[2..] != [] { assert trail == trail[..2] + [trail[2]] + trail[2..][1..]; }
  }

  /** What is left for an ordinary event to do from `pc`. */
  predicate RecordLeft(pc: Pc, e: nat, trail: seq<Pc>, closed: bool) {
    match pc
    case RecordRLock(own) =>
      own == e && ((trail == [pc, RecordCheck(e), RecordRUnlock] && closed)
                   || trail == [pc, RecordCheck(e), RecordEnqueue(e), RecordRUnlock])
    case RecordCheck(own) =>
      own == e && ((trail == [pc, RecordRUnlock] && closed) || trail == [pc, RecordEnqueue(e), RecordRUnlock])
    case RecordEnqueue(own) => own == e && trail == [pc, RecordRUnlock]
    case RecordRUnlock => trail == [pc]
    case Ended => trail == []
    case _ => true
  }

  predicate Recording(pc: Pc, e: nat) {
    pc == RecordRLock(e) || pc == RecordCheck(e) || pc == RecordEnqueue(e) || pc == RecordRUnlock || pc == Ended
  }

  lemma {:induction false} RecordFrom(w: World, t: nat, e: nat, acts: seq<Action>, last: World)
    requires t in w.threads && Recording(w.threads[t], e)
    requires Run(w, acts, last) && t in last.threads && last.threads[t].Ended?
    ensures RecordLeft(w.threads[t], e, Trail(w, acts, t), last.closed)
    decreases |acts|
  {
    if acts != [] {
      var v := Step(w, acts[0]);
      TrailStep(w, acts, t);
      if MovedBy(acts[0], t) {
        if w.closed { ShutToTheEnd(w, acts, last); }
        assert Recording(v.threads[t], e);
        RecordFrom(v, t, e, acts[1..], last);
      } else {
        OthersKeep(w, t, acts[0]);
        RecordFrom(v, t, e, acts[1..], last);
      }
    }
  }

  /** Every ordinary event that was recorded reached the queue exactly once, unless the
      door was closed. */
  lemma RecordLifecycle(w: World, t: nat, e: nat, acts: seq<Action>, last: World)
    requires Enabled(w, Begin(t, RecordEvent(e))) && Run(Step(w, Begin(t, RecordEvent(e))), acts, last)
    requires t in last.threads && last.threads[t].Ended?
    ensures var trail := Trail(Step(w, Begin(t, RecordEvent(e))), acts, t);
            || (trail == [RecordRLock(e), RecordCheck(e), RecordRUnlock] && last.closed)
            || trail == [RecordRLock(e), RecordCheck(e), RecordEnqueue(e), RecordRUnlock]
  {
    RecordFrom(Step(w, Begin(t, RecordEvent(e))), t, e, acts, last);
  }

  /** A Close that was begun shuts the door before it can return anything. */
  lemma CloseShutsTheDoor(w: World, t: nat, acts: seq<Action>, last: World)
    requires Inv(w) && Enabled(w, Begin(t, Close)) && Run(Step(w, Begin(t, Close)), acts, last)
    requires t in last.threads && !(last.threads[t].CloseLock? || last.threads[t].CloseSet?)
    ensures last.closed
  {
    var p := (v: World) => ClosingDoor(v, t);
    StepInv(w, Begin(t, Close));
    forall v, a | Inv(v) && p(v) && Enabled(v, a) ensures p(Step(v, a)) { ClosingDoorStep(v, t, a); }
    RunPreserves(p, Step(w, Begin(t, Close)), acts, last);
  }

  predicate ClosingDoor(w: World, t: nat) {
    t in w.threads && (w.threads[t].CloseLock? || w.threads[t].CloseSet? || w.closed)
  }

  lemma ClosingDoorStep(w: World, t: nat, a: Action)
    requires ClosingDoor(w, t) && Enabled(w, a)
    ensures ClosingDoor(Step(w, a), t)
  {
    if w.closed {
      DoorStaysShut(w, a);
    } else if !MovedBy(a, t) {
      OthersKeep(w, t, a);
    }
  }

  /** At the queue an event is appended while there is room, and only a full queue drops
      it; it is accepted either way. */
  lemma DroppedOnlyWhenFull(w: World, t: nat, e: nat)
    requires Enabled(w, Tick(t)) && w.threads[t] == RecordEnqueue(e)
    ensures var v := Step(w, Tick(t));
            && v.accepted == w.accepted + 1
            && (|w.queue| < w.capacity ==> v.queue == w.queue + [e] && v.enqueued == w.enqueued + [e] && v.dropped == w.dropped)
            && (|w.queue| >= w.capacity ==> v.queue == w.queue && v.enqueued == w.enqueued && v.dropped == w.dropped + 1)
  {
  }

  // ---- the recorder object --------------------------------------------------------------

  /** The recorder's own fields; each method is one critical section. */
  class RouteFailureRecorder {
    const capacity: nat
    var closed: bool
    var stopped: bool
    var queue: seq<nat>
    var dropped: nat
    var incidents: nat

    constructor (capacity: nat)
      requires capacity > 0
      ensures this.capacity == capacity && Valid() && !closed && queue == [] && dropped == 0 && incidents == 0
    {
      this.capacity := capacity;
      closed, stopped, queue, dropped, incidents := false, false, [], 0, 0;
    }

    ghost predicate Valid()
      reads this
    {
      (stopped <==> closed) && |queue| <= capacity
    }

    /** Exactly one of: refused (closed), enqueued at the back, counted as dropped. */
    method Record(event: nat)
      requires Valid()
      modifies this`queue, this`dropped
      ensures Valid()
      ensures closed ==> queue == old(queue) && dropped == old(dropped)
      ensures !closed && |old(queue)| < capacity ==> queue == old(queue) + [event] && dropped == old(dropped)
      ensures !closed && |old(queue)| == capacity ==> queue == old(queue) && dropped == old(dropped) + 1
    {
      if closed { return; }
      if |queue| < capacity { queue := queue + [event]; } else { dropped := dropped + 1; }
    }

    method BeginRuntimeIncident() returns (admitted: bool)
      requires Valid()
      modifies this`incidents
      ensures Valid() && admitted == !closed
      ensures incidents == old(incidents) + (if admitted then 1 else 0)
    {
      if closed { return false; }
      incidents := incidents + 1;
      return true;
    }

    method Shut()
      requires Valid()
      modifies this`closed, this`stopped
      ensures Valid() && closed
    {
      if !closed {
        closed := true;
        stopped := true;
      }
    }

    /** The drain loop after stop: takes and attempts until the queue is empty. */
    method DrainAll() returns (attempted: seq<nat>)
      requires Valid() && closed
      modifies this`queue
      ensures Valid() && queue == [] && attempted == old(queue)
    {
      attempted := [];
      while queue != []
        invariant Valid() && attempted + queue == old(queue)
        decreases |queue|
      {
        var item := queue[0];
        queue := queue[1..];
        attempted := attempted + [item];
      }
    }
  }
}
