/** `ensurePluginRuntimeCoordinatorGenesis`: a bounded, cancellable retry that waits only
    for a lifecycle operation in progress and never past its deadline. */
module GenesisRetry {

  datatype Answer = Published(exact: bool) | InProgress | OtherError

  datatype Verdict = Accepted | NotExact | EnsureFailed | StillInProgress | Canceled

  datatype Reclaim = Reclaimed(operations: nat) | ReclaimFailed

  /** The world the loop runs in, indexed by iteration: the ensurer's answers and how
      long they took, how much longer than asked a wait lasted, when the context was
      done, and what the optional orphan reclaimer answered and how long it took. */
  datatype Env = Env(
    answer: nat -> Answer, took: nat -> nat, overslept: nat -> nat,
    doneBefore: nat -> bool, doneWaiting: nat -> bool,
    reclaimer: bool, reclaim: nat -> Reclaim, reclaimTook: nat -> nat)

  /** Time from the start of an ensure that is answered "in progress" to the check of
      the deadline. */
  function Cost(env: Env, i: nat): nat {
    env.took(i) + if env.reclaimer then env.reclaimTook(i) else 0
  }

  /** The same world without a reclaimer. */
  function Erased(env: Env): Env { env.(reclaimer := false) }

  const DEFAULT_WAIT_MS := 30_000
  const DEFAULT_INTERVAL_MS := 200

  /** The duration normalizers: a non-positive value means the production default. */
  function Normalized(value: int, default_: int): (r: int)
    requires default_ > 0
    ensures r > 0 && r == if value > 0 then value else default_
  {
    if value <= 0 then default_ else value
  }

  function Min(a: int, b: int): int { if a <= b then a else b }

  datatype Result = Result(verdict: Verdict, calls: nat)

  /** When the next ensure starts: one wait, capped by the deadline, after the check. */
  function Later(env: Env, i: nat, now: int, deadline: int, interval: int): int {
    var checked := now + Cost(env, i);
    checked + Min(interval, deadline - checked) + env.overslept(i)
  }

  /** The loop from its `i`-th ensure at time `now`. */
  function From(env: Env, i: nat, now: int, deadline: int, interval: int): (r: Result)
    requires interval > 0
    ensures i <= r.calls && (r.calls == i ==> r.verdict.Canceled?)
    decreases if now < deadline then deadline - now else 0
  {
    if env.doneBefore(i) then Result(Canceled, i)
    else
      match env.answer(i)
      case Published(exact) => Result(if exact then Accepted else NotExact, i + 1)
      case OtherError => Result(EnsureFailed, i + 1)
      case InProgress =>
        var checked := now + Cost(env, i);
        if checked >= deadline then Result(StillInProgress, i + 1)
        else if env.doneWaiting(i) then Result(Canceled, i + 1)
        else From(env, i + 1, Later(env, i, now, deadline, interval), deadline, interval)
  }

  /** How many intervals of length `d` it takes to cover `n`. */
  function CeilDiv(n: int, d: int): nat
    requires d > 0
    decreases if n > 0 then n else 0
  {
    if n <= 0 then 0 else 1 + CeilDiv(n - d, d)
  }

  /** CeilDiv is the ceiling of n/d. */
  lemma {:induction false} CeilDivIsCeiling(n: int, d: int)
    requires d > 0 && n > 0
    ensures (CeilDiv(n, d) - 1) * d < n <= CeilDiv(n, d) * d
    decreases n
  {
    if n > d {
      CeilDivIsCeiling(n - d, d);
      assert CeilDiv(n, d) * d == (CeilDiv(n, d) - 1) * d + d;
      assert (CeilDiv(n, d) - 1) * d == (CeilDiv(n, d) - 2) * d + d;
    } else {
      assert CeilDiv(n - d, d) == 0;
    }
  }

  lemma {:induction false} CeilDivMonotone(a: int, b: int, d: int)
    requires d > 0 && a <= b
    ensures CeilDiv(a, d) <= CeilDiv(b, d)
    decreases if b > 0 then b else 0
  {
    if a > 0 { CeilDivMonotone(a - d, b - d, d); }
  }

  /** At most ceil(remaining/interval) + 1 ensure calls, for any clock that advances at
      least each requested wait. */
  lemma {:induction false} CallsAreBounded(env: Env, i: nat, now: int, deadline: int, interval: int)
    requires interval > 0
    ensures From(env, i, now, deadline, interval).calls <= i + CeilDiv(deadline - now, interval) + 1
    decreases if now < deadline then deadline - now else 0
  {
    if !env.doneBefore(i) && env.answer(i).InProgress? {
      var checked := now + Cost(env, i);
      if checked < deadline && !env.doneWaiting(i) {
        var later := Later(env, i, now, deadline, interval);
        CallsAreBounded(env, i + 1, later, deadline, interval);
        if later < deadline { CeilDivMonotone(deadline - later, deadline - now - interval, interval); }
      }
    }
  }

  /** Only "in progress" is retried, and the verdict is decided by the answers alone:
      every answer before the last is "in progress", and unless the context was done
      the verdict is the reading of the last answer. */
  lemma {:induction false} VerdictIsTheLastAnswer(env: Env, i: nat, now: int, deadline: int, interval: int)
    requires interval > 0
    ensures var r := From(env, i, now, deadline, interval);
            && i <= r.calls
            && (forall k :: i <= k < r.calls - 1 ==> env.answer(k) == InProgress)
            && (!r.verdict.Canceled? ==> i < r.calls && r.verdict == Read(env.answer(r.calls - 1)))
            && (r.verdict.Canceled? && i < r.calls ==> env.answer(r.calls - 1) == InProgress)
            && (r.verdict == Accepted ==> i < r.calls && env.answer(r.calls - 1) == Published(true))
            && (r.verdict == NotExact ==> i < r.calls && env.answer(r.calls - 1) == Published(false))
            && (r.verdict == EnsureFailed ==> i < r.calls && env.answer(r.calls - 1) == OtherError)
            && (r.verdict == StillInProgress ==> i < r.calls && env.answer(r.calls - 1) == InProgress)
    decreases if now < deadline then deadline - now else 0
  {
    if !env.doneBefore(i) && env.answer(i).InProgress? {
      var checked := now + Cost(env, i);
      if checked < deadline && !env.doneWaiting(i) {
        VerdictIsTheLastAnswer(env, i + 1, Later(env, i, now, deadline, interval), deadline, interval);
      }
    }
  }

  function Read(a: Answer): Verdict {
    match a
    case Published(exact) => if exact then Accepted else NotExact
    case OtherError => EnsureFailed
    case InProgress => StillInProgress
  }

  /** Two runs that saw the same sequence of answers, whatever reclaiming did and cost,
      reach the same verdict. */
  lemma SameAnswersSameVerdict(a: Env, b: Env, start: int, deadline: int, interval: int)
    requires interval > 0
    requires var ra, rb := From(a, 0, start, deadline, interval), From(b, 0, start, deadline, interval);
             && ra.calls == rb.calls && !ra.verdict.Canceled? && !rb.verdict.Canceled?
             && (forall k :: 0 <= k < ra.calls ==> a.answer(k) == b.answer(k))
    ensures From(a, 0, start, deadline, interval).verdict == From(b, 0, start, deadline, interval).verdict
  {
    VerdictIsTheLastAnswer(a, 0, start, deadline, interval);
    VerdictIsTheLastAnswer(b, 0, start, deadline, interval);
  }

  /** The time at which the `n`-th ensure's answer is held against the deadline, by the
      clock of `env`, if the loop gets there. */
  function CheckedAt(env: Env, i: nat, now: int, deadline: int, interval: int, n: nat): int
    requires i <= n
    decreases n - i
  {
    if i == n then now + Cost(env, i)
    else CheckedAt(env, i + 1, Later(env, i, now, deadline, interval), deadline, interval, n)
  }

  /** `b` differs from `a` only in taking less time; its context is done at most where
      that of `a` is. */
  ghost predicate Faster(b: Env, a: Env) {
    && (forall k :: b.answer(k) == a.answer(k) && b.overslept(k) == a.overslept(k))
    && (forall k :: Cost(b, k) <= Cost(a, k))
    && (forall k :: b.doneBefore(k) ==> a.doneBefore(k))
    && (forall k :: b.doneWaiting(k) ==> a.doneWaiting(k))
  }

  lemma FasterIsEarlier(a: Env, b: Env, i: nat, nowA: int, nowB: int, deadline: int, interval: int)
    requires Faster(b, a) && nowB <= nowA
    ensures nowB + Cost(b, i) <= nowA + Cost(a, i)
    ensures Later(b, i, nowB, deadline, interval) <= Later(a, i, nowA, deadline, interval)
  {
  }

  /** Saving time changes nothing, calls included, unless the slower loop ran out of
      time or was cancelled. */
  lemma {:induction false} FasterChangesOnlyTimeouts(
    a: Env, b: Env, i: nat, nowA: int, nowB: int, deadline: int, interval: int)
    requires interval > 0 && Faster(b, a) && nowB <= nowA
    requires var v := From(a, i, nowA, deadline, interval).verdict; !v.StillInProgress? && !v.Canceled?
    ensures From(b, i, nowB, deadline, interval) == From(a, i, nowA, deadline, interval)
    decreases if nowA < deadline then deadline - nowA else 0
  {
    FasterIsEarlier(a, b, i, nowA, nowB, deadline, interval);
    assert b.answer(i) == a.answer(i) && !b.doneBefore(i);
    if a.answer(i).InProgress? {
      FasterChangesOnlyTimeouts(
        a, b, i + 1, Later(a, i, nowA, deadline, interval), Later(b, i, nowB, deadline, interval), deadline, interval);
    }
  }

  /** A loop that ran out of time would have ended the same way exactly if the faster
      clock is past the deadline at the same check; otherwise it goes on. */
  lemma {:induction false} FasterAfterTimeout(
    a: Env, b: Env, i: nat, nowA: int, nowB: int, deadline: int, interval: int)
    requires interval > 0 && Faster(b, a) && nowB <= nowA
    requires From(a, i, nowA, deadline, interval).verdict.StillInProgress?
    ensures var ra, rb := From(a, i, nowA, deadline, interval), From(b, i, nowB, deadline, interval);
            ra.calls <= rb.calls && (rb == ra <==> CheckedAt(b, i, nowB, deadline, interval, ra.calls - 1) >= deadline)
    decreases if nowA < deadline then deadline - nowA else 0
  {
    FasterIsEarlier(a, b, i, nowA, nowB, deadline, interval);
    assert b.answer(i) == a.answer(i) == InProgress && !b.doneBefore(i);
    if nowA + Cost(a, i) < deadline {
      FasterAfterTimeout(
        a, b, i + 1, Later(a, i, nowA, deadline, interval), Later(b, i, nowB, deadline, interval), deadline, interval);
    }
  }

  /** Reclaiming and its failures can be erased: the loop without the reclaimer ends the
      same, calls included, if and only if the loop did not run out of time, or would
      have run out of it at the same check without the time that reclaiming took. */
  lemma ReclaimIsErased(env: Env, start: int, deadline: int, interval: int)
    requires interval > 0
    ensures var r, r' := From(env, 0, start, deadline, interval), From(Erased(env), 0, start, deadline, interval);
            && (r' == r <==>
                  || !r.verdict.StillInProgress?
                  || CheckedAt(Erased(env), 0, start, deadline, interval, r.calls - 1) >= deadline)
            && r.calls <= r'.calls
  {
    match From(env, 0, start, deadline, interval).verdict
    case StillInProgress => FasterAfterTimeout(env, Erased(env), 0, start, start, deadline, interval);
    case Canceled => CancelIsErased(env, 0, start, start, deadline, interval);
    case _ => FasterChangesOnlyTimeouts(env, Erased(env), 0, start, start, deadline, interval);
  }

  /** A loop that ends because of its context ends there without the reclaimer too. */
  lemma {:induction false} CancelIsErased(env: Env, i: nat, nowA: int, nowB: int, deadline: int, interval: int)
    requires interval > 0 && nowB <= nowA
    requires From(env, i, nowA, deadline, interval).verdict.Canceled?
    ensures From(Erased(env), i, nowB, deadline, interval) == From(env, i, nowA, deadline, interval)
    decreases if nowA < deadline then deadline - nowA else 0
  {
    if !env.doneBefore(i) && !env.doneWaiting(i) {
      CancelIsErased(env, i + 1, Later(env, i, nowA, deadline, interval),
                     Later(Erased(env), i, nowB, deadline, interval), deadline, interval);
    }
  }

  /** Such a difference is real: one slow reclaim uses up the budget, and the publication
      that the next ensure would have answered is never asked for. */
  lemma SlowReclaimCostsTheGenesis(timeout: nat, interval: nat) returns (env: Env)
    requires 0 < interval < timeout
    ensures From(env, 0, 0, timeout, interval) == Result(StillInProgress, 1)
    ensures From(Erased(env), 0, 0, timeout, interval) == Result(Accepted, 2)
  {
    env := Env(k => if k == 0 then InProgress else Published(true), _ => 0, _ => 0, _ => false, _ => false,
               true, _ => Reclaimed(1), _ => timeout);
    assert From(Erased(env), 1, interval, timeout, interval) == Result(Accepted, 2);
  }

  datatype Wait = Wait(start: int, asked: int)

  /** The loop itself. `reports` are the OnOrphanReclaim callbacks it made. */
  method EnsureGenesis(env: Env, waitTimeout: int, retryInterval: int, start: int)
    returns (result: Result, waits: seq<Wait>, reports: seq<Reclaim>)
    ensures var timeout := if waitTimeout > 0 then waitTimeout else 30_000;
            var interval := if retryInterval > 0 then retryInterval else 200;
            && result == From(env, 0, start, start + timeout, interval)
            && result.calls <= CeilDiv(timeout, interval) + 1
            && (forall w :: w in waits ==> 0 < w.asked <= interval && w.start + w.asked <= start + timeout)
    ensures |waits| <= result.calls && |reports| <= result.calls
    ensures !env.reclaimer ==> reports == []
    ensures env.reclaimer && result.verdict.StillInProgress? ==> |reports| == result.calls
  {
    var timeout := Normalized(waitTimeout, DEFAULT_WAIT_MS);
    var interval := Normalized(retryInterval, DEFAULT_INTERVAL_MS);
    var deadline := start + timeout;
    CallsAreBounded(env, 0, start, deadline, interval);
    var now, calls := start, 0;
    waits, reports := [], [];
    while true
      invariant From(env, 0, start, deadline, interval) == From(env, calls, now, deadline, interval)
      invariant forall w :: w in waits ==> 0 < w.asked <= interval && w.start + w.asked <= deadline
      invariant |waits| == calls && |reports| == if env.reclaimer then calls else 0
      decreases if now < deadline then deadline - now else 0
    {
      if env.doneBefore(calls) { return Result(Canceled, calls), waits, reports; }
      var answer := env.answer(calls);
      match answer {
        case Published(exact) => return Result(if exact then Accepted else NotExact, calls + 1), waits, reports;
        case OtherError => return Result(EnsureFailed, calls + 1), waits, reports;
        case InProgress =>
      }
      if env.reclaimer { reports := reports + [env.reclaim(calls)]; }
      now := now + Cost(env, calls);
      var remaining := deadline - now;
      if remaining <= 0 { return Result(StillInProgress, calls + 1), waits, reports; }
      var wait := interval;
      if wait > remaining { wait := remaining; }
      waits := waits + [Wait(now, wait)];
      if env.doneWaiting(calls) { return Result(Canceled, calls + 1), waits, reports; }
      now := now + wait + env.overslept(calls);
      calls := calls + 1;
    }
  }
}
