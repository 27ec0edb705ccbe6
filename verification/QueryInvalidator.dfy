/** `recoveringProductionQueryInvalidator`: a mutex-guarded owner that creates, uses,
    replaces and finally releases one cache authority at a time. */
module QueryInvalidator {
  import opened Options

  /** What happens to authorities, in order. `Shut` is the moment `closed` is set. */
  datatype Event = FactoryCalled | Created(id: nat) | Used(id: nat) | Closed(id: nat) | Shut

  /** `pending` is the authority Close has detached but not released yet; authority
      number `next` is the one the factory would build next. */
  datatype State = State(current: Option<nat>, closed: bool, pending: Option<nat>, next: nat, log: seq<Event>)

  const EMPTY := State(None, false, None, 0, [])

  datatype FactoryOutcome = Builds | BuildsPartially | ReturnsNothing | FactoryFails
  datatype UseOutcome = Rotated(count: nat) | InputInvalid | UseFails

  datatype Answer =
    | Ok(count: nat) | InputError | ContextError | CapabilityError | InvalidExecution | FactoryError | UseError

  datatype Request = Request(
    nilContext: bool, canceled: bool, hasFactory: bool, factory: FactoryOutcome, use: UseOutcome)

  // ---- primitive effects -----------------------------------------------------------

  function CallFactory(s: State): State { s.(log := s.log + [FactoryCalled]) }

  function Create(s: State): State {
    s.(current := Some(s.next), next := s.next + 1, log := s.log + [Created(s.next)])
  }

  function Use(s: State): State
    requires s.current.Some?
  {
    s.(log := s.log + [Used(s.current.value)])
  }

  function ReleaseCurrent(s: State): State
    requires s.current.Some?
  {
    s.(current := None, log := s.log + [Closed(s.current.value)])
  }

  function Detach(s: State): State
    requires s.pending.None?
  {
    s.(closed := true, pending := s.current, current := None, log := s.log + [Shut])
  }

  function ReleasePending(s: State): State
    requires s.pending.Some?
  {
    s.(pending := None, log := s.log + [Closed(s.pending.value)])
  }

  // ---- InvalidateOwnerTags, atomic under the mutex ------------------------------------

  function UseCurrent(s: State, use: UseOutcome): (State, Answer)
    requires s.current.Some?
  {
    match use
    case Rotated(n) => (Use(s), Ok(n))
    case InputInvalid => (Use(s), InputError)
    case UseFails => (ReleaseCurrent(Use(s)), UseError)
  }

  function Invalidate(s: State, q: Request): (State, Answer) {
    if q.nilContext then (s, InvalidExecution)
    else if q.canceled then (s, ContextError)
    else if s.closed then (s, CapabilityError)
    else if s.current.Some? then UseCurrent(s, q.use)
    else if !q.hasFactory then (s, InvalidExecution)
    else
      match q.factory
      case Builds => UseCurrent(Create(CallFactory(s)), q.use)
      case BuildsPartially => (ReleaseCurrent(Create(CallFactory(s))), FactoryError)
      case ReturnsNothing => (CallFactory(s), InvalidExecution)
      case FactoryFails => (CallFactory(s), FactoryError)
  }

  // ---- interleavings ---------------------------------------------------------------------

  /** Close detaches under the mutex and releases outside it. */
  datatype Action = InvalidateStep(request: Request) | CloseDetach | CloseRelease

  predicate Enabled(s: State, a: Action) {
    match a
    case InvalidateStep(_) => true
    case CloseDetach => !s.closed
    case CloseRelease => s.pending.Some?
  }

  function Step(s: State, a: Action): State
    requires Enabled(s, a) && (a.CloseDetach? ==> s.pending.None?)
  {
    match a
    case InvalidateStep(q) => Invalidate(s, q).0
    case CloseDetach => Detach(s)
    case CloseRelease => ReleasePending(s)
  }

  // ---- invariant -----------------------------------------------------------------------------

  predicate NothingAfterClosed(log: seq<Event>, i: nat, j: nat)
    requires i < |log| && j < |log|
  {
    log[i].Closed? ==> log[j] != Used(log[i].id) && log[j] != Closed(log[i].id) && log[j] != Created(log[i].id)
  }

  predicate NoFactoryAfterShut(log: seq<Event>, i: nat, j: nat)
    requires i < |log| && j < |log|
  {
    log[i].Shut? ==> !log[j].FactoryCalled? && !log[j].Created? && !log[j].Used? && !log[j].Shut?
  }

  /** The discipline of the whole history. */
  predicate WellOrdered(log: seq<Event>) {
    forall i, j :: 0 <= i < j < |log| ==> NothingAfterClosed(log, i, j) && NoFactoryAfterShut(log, i, j)
  }

  /** Every authority built so far is in exactly one place. */
  predicate Placed(s: State, id: nat) {
    if s.current == Some(id) then Closed(id) !in s.log && s.pending != Some(id)
    else if s.pending == Some(id) then Closed(id) !in s.log
    else Closed(id) in s.log
  }

  predicate Inv(s: State) {
    && WellOrdered(s.log)
    && (forall id :: 0 <= id < s.next ==> Placed(s, id) && Created(id) in s.log)
    && (forall e :: e in s.log ==> (e.Created? || e.Used? || e.Closed?) ==> e.id < s.next)
    && (s.current.Some? ==> s.current.value < s.next) && (s.pending.Some? ==> s.pending.value < s.next)
    && (s.closed <==> Shut in s.log) && (s.closed ==> s.current.None?) && (s.pending.Some? ==> s.closed)
  }

  lemma Append(log: seq<Event>, e: Event)
    requires WellOrdered(log)
    requires e.Used? || e.Closed? || e.Created? ==> Closed(e.id) !in log
    requires e.FactoryCalled? || e.Created? || e.Used? || e.Shut? ==> Shut !in log
    ensures WellOrdered(log + [e])
  {
    var l := log + [e];
    forall i, j | 0 <= i < j < |l| ensures NothingAfterClosed(l, i, j) && NoFactoryAfterShut(l, i, j) {
      if j < |log| {
        assert NothingAfterClosed(log, i, j) && NoFactoryAfterShut(log, i, j);
      } else {
        assert l[i] in log;
      }
    }
  }

  lemma CreateInv(s: State)
    requires Inv(s) && !s.closed && s.current.None? && s.pending.None?
    ensures Inv(CallFactory(s)) && Inv(Create(CallFactory(s)))
  {
    var s1 := CallFactory(s);
    Append(s.log, FactoryCalled);
    forall id | 0 <= id < s1.next ensures Placed(s1, id) && Created(id) in s1.log {
      assert Placed(s, id);
    }
    var s2 := Create(s1);
    Append(s1.log, Created(s.next));
    forall id | 0 <= id < s2.next ensures Placed(s2, id) && Created(id) in s2.log {
      if id < s.next { assert Placed(s1, id); }
    }
  }

  lemma UseInv(s: State)
    requires Inv(s) && s.current.Some?
    ensures Inv(Use(s)) && Inv(ReleaseCurrent(Use(s)))
  {
    var id0 := s.current.value;
    assert Placed(s, id0);
    var s1 := Use(s);
    Append(s.log, Used(id0));
    forall id | 0 <= id < s1.next ensures Placed(s1, id) && Created(id) in s1.log { assert Placed(s, id); }
    ReleaseInv(s1);
  }

  lemma ReleaseInv(s: State)
    requires Inv(s) && s.current.Some?
    ensures Inv(ReleaseCurrent(s))
  {
    var id0 := s.current.value;
    assert Placed(s, id0);
    var s1 := ReleaseCurrent(s);
    Append(s.log, Closed(id0));
    forall id | 0 <= id < s1.next ensures Placed(s1, id) && Created(id) in s1.log { assert Placed(s, id); }
  }

  lemma InvalidateInv(s: State, q: Request)
    requires Inv(s)
    ensures Inv(Invalidate(s, q).0)
  {
    if !q.nilContext && !q.canceled && !s.closed {
      if s.current.Some? {
        UseInv(s);
      } else {
        CreateInv(s);
        var s1 := Create(CallFactory(s));
        UseInv(s1);
        ReleaseInv(s1);
      }
    }
  }

  lemma CloseInv(s: State)
    requires Inv(s)
    ensures !s.closed ==> s.pending.None? && Inv(Detach(s))
    ensures s.pending.Some? ==> Inv(ReleasePending(s))
  {
    if !s.closed {
      var s1 := Detach(s);
      Append(s.log, Shut);
      forall id | 0 <= id < s1.next ensures Placed(s1, id) && Created(id) in s1.log { assert Placed(s, id); }
    }
    if s.pending.Some? {
      var id0 := s.pending.value;
      assert Placed(s, id0);
      var s1 := ReleasePending(s);
      Append(s.log, Closed(id0));
      forall id | 0 <= id < s1.next ensures Placed(s1, id) && Created(id) in s1.log { assert Placed(s, id); }
    }
  }

  ghost predicate Run(s: State, acts: seq<Action>, last: State)
    decreases |acts|
  {
    if acts == [] then s == last
    else
      && Enabled(s, acts[0]) && (acts[0].CloseDetach? ==> s.pending.None?)
      && Run(Step(s, acts[0]), acts[1..], last)
  }

  // ---- main results ------------------------------------------------------------------------

  lemma {:induction false} RunInv(s: State, acts: seq<Action>, last: State)
    requires Inv(s) && Run(s, acts, last)
    ensures Inv(last)
    decreases |acts|
  {
    if acts != [] {
      match acts[0]
      case InvalidateStep(q) => InvalidateInv(s, q);
        RunInv(Step(s, acts[0]), acts[1..], last);
      case CloseDetach => CloseInv(s);
        RunInv(Step(s, acts[0]), acts[1..], last);
      case CloseRelease => CloseInv(s);
        RunInv(Step(s, acts[0]), acts[1..], last);
    }
  }

  /** Built but not released. */
  predicate Live(s: State, id: nat) { Created(id) in s.log && Closed(id) !in s.log }

  /** Over any interleaving of InvalidateOwnerTags and Close: at most one authority is
      live, and it is the current or the detached one; nothing is closed twice or used
      after close; the factory is never called after Close set `closed`. */
  lemma AuthorityIsLinear(acts: seq<Action>, last: State)
    requires Run(EMPTY, acts, last)
    ensures forall a: nat, b: nat :: Live(last, a) && Live(last, b) ==> a == b
    ensures forall id: nat :: Live(last, id) <==> last.current == Some(id) || last.pending == Some(id)
    ensures WellOrdered(last.log)
    ensures forall id: nat :: id < last.next <==> Created(id) in last.log
  {
    RunInv(EMPTY, acts, last);
    forall id: nat ensures Live(last, id) <==> last.current == Some(id) || last.pending == Some(id) {
      if 0 <= id < last.next { assert Placed(last, id); }
    }
  }

  /** Conservation: created = closed + current + pending close. */
  lemma {:induction false} CreatedAreAccounted(acts: seq<Action>, s: State, last: State)
    requires Inv(s) && Run(s, acts, last) && Balanced(s)
    ensures Balanced(last)
    decreases |acts|
  {
    if acts != [] {
      var v := Step(s, acts[0]);
      match acts[0]
      case InvalidateStep(q) => InvalidateInv(s, q); InvalidateBalance(s, q);
        CreatedAreAccounted(acts[1..], v, last);
      case CloseDetach => CloseInv(s); CountAppend(s.log, Shut);
        CreatedAreAccounted(acts[1..], v, last);
      case CloseRelease => CloseInv(s); CountAppend(s.log, Closed(s.pending.value));
        CreatedAreAccounted(acts[1..], v, last);
    }
  }

  function Closes(log: seq<Event>): nat {
    if log == [] then 0 else Closes(log[..|log| - 1]) + (if log[|log| - 1].Closed? then 1 else 0)
  }

  predicate Balanced(s: State) {
    s.next == Closes(s.log) + (if s.current.Some? then 1 else 0) + (if s.pending.Some? then 1 else 0)
  }

  lemma CountAppend(log: seq<Event>, e: Event)
    ensures Closes(log + [e]) == Closes(log) + (if e.Closed? then 1 else 0)
  {
    assert (log + [e])[..|log|] == log;
  }

  lemma UseBalance(s: State, use: UseOutcome)
    requires Balanced(s) && s.current.Some?
    ensures Balanced(UseCurrent(s, use).0)
  {
    var id := s.current.value;
    CountAppend(s.log, Used(id));
    CountAppend(s.log + [Used(id)], Closed(id));
  }

  lemma CreateBalance(s: State)
    requires Balanced(s) && s.current.None?
    ensures Balanced(CallFactory(s)) && Balanced(Create(CallFactory(s)))
    ensures Closes(Create(CallFactory(s)).log + [Closed(s.next)]) == Closes(s.log) + 1
  {
    CountAppend(s.log, FactoryCalled);
    var s1 := CallFactory(s);
    CountAppend(s1.log, Created(s1.next));
    CountAppend(Create(s1).log, Closed(s1.next));
  }

  lemma InvalidateBalance(s: State, q: Request)
    requires Balanced(s)
    ensures Balanced(Invalidate(s, q).0)
  {
    if !q.nilContext && !q.canceled && !s.closed {
      if s.current.Some? {
        UseBalance(s, q.use);
      } else {
        CreateBalance(s);
        UseBalance(Create(CallFactory(s)), q.use);
      }
    }
  }

  /** An input error keeps the authority for the next call; any other failed use
      replaces it, so that the next call with a working factory uses a fresh one. */
  lemma ReplacementPolicy(s: State, q: Request, q2: Request)
    requires Inv(s) && s.current.Some? && !q.nilContext && !q.canceled
    ensures var (s1, answer) := Invalidate(s, q);
            && (q.use.UseFails? <==> s1.current.None?)
            && (!q.use.UseFails? ==> s1.current == s.current && Closed(s.current.value) !in s1.log)
            && (q.use.UseFails? ==> answer == UseError && Closed(s.current.value) in s1.log)
            && (q.use.UseFails? && !q2.nilContext && !q2.canceled && q2.hasFactory
                && q2.factory.Builds? && q2.use.Rotated? ==>
                  Invalidate(s1, q2).0.current == Some(s.next) && Invalidate(s1, q2).1 == Ok(q2.use.count))
  {
    assert Placed(s, s.current.value);
  }

  /** The call reached its authority, an old or a newly built one. */
  predicate ReachesAuthority(s: State, q: Request) {
    && !q.nilContext && !q.canceled && !s.closed
    && (s.current.Some? || (q.hasFactory && q.factory == Builds))
  }

  /** It asked the factory and got no usable authority. */
  predicate FactoryLetsDown(s: State, q: Request) {
    !q.nilContext && !q.canceled && !s.closed && s.current.None? && q.hasFactory && q.factory != Builds
  }

  /** What each answer means: a missing context comes before a done one, that before a
      closed owner, and only then is the authority asked. A refused call changes nothing,
      and a partially built authority is closed at once. */
  lemma AnswerMeaning(s: State, q: Request)
    requires Inv(s)
    ensures var (s1, answer) := Invalidate(s, q);
            && (q.nilContext ==> answer == InvalidExecution)
            && (answer == ContextError <==> !q.nilContext && q.canceled)
            && (answer == CapabilityError <==> !q.nilContext && !q.canceled && s.closed)
            && (answer.Ok? <==> ReachesAuthority(s, q) && q.use.Rotated?)
            && (answer.Ok? ==> answer.count == q.use.count)
            && (answer == InputError <==> ReachesAuthority(s, q) && q.use == InputInvalid)
            && (answer == UseError <==> ReachesAuthority(s, q) && q.use == UseFails)
            && (answer == FactoryError <==>
                  FactoryLetsDown(s, q) && (q.factory == FactoryFails || q.factory == BuildsPartially))
            && (answer == InvalidExecution && !q.nilContext <==>
                  (FactoryLetsDown(s, q) && q.factory == ReturnsNothing)
                  || (!q.nilContext && !q.canceled && !s.closed && s.current.None? && !q.hasFactory))
    ensures var (s1, answer) := Invalidate(s, q);
            && (q.nilContext || q.canceled || s.closed ==> s1 == s)
            && (FactoryLetsDown(s, q) ==> s1.current.None?)
            && (FactoryLetsDown(s, q) && q.factory == BuildsPartially ==> Closed(s.next) in s1.log && s1.next == s.next + 1)
            && (FactoryLetsDown(s, q) && q.factory != BuildsPartially ==> s1.next == s.next)
  {
  }

  // ---- the object ------------------------------------------------------------------------------

  class RecoveringQueryInvalidator {
    const hasFactory: bool
    var current: Option<nat>
    var closed: bool
    ghost var next: nat
    ghost var log: seq<Event>
    var built: nat

    constructor (hasFactory: bool)
      ensures this.hasFactory == hasFactory && Contents() == EMPTY && Valid()
    {
      this.hasFactory := hasFactory;
      current, closed, built := None, false, 0;
      next, log := 0, [];
    }

    ghost function Contents(): State
      reads this
    {
      State(current, closed, None, next, log)
    }

    ghost predicate Valid()
      reads this
    {
      Inv(Contents()) && built == next
    }

    method InvalidateOwnerTags(nilContext: bool, canceled: bool, factory: FactoryOutcome, use: UseOutcome)
      returns (answer: Answer)
      requires Valid()
      modifies this
      ensures Valid()
      ensures (Contents(), answer) ==
              Invalidate(old(Contents()), Request(nilContext, canceled, hasFactory, factory, use))
    {
      InvalidateInv(Contents(), Request(nilContext, canceled, hasFactory, factory, use));
      if nilContext { return InvalidExecution; }
      if canceled { return ContextError; }
      if closed { return CapabilityError; }
      if current.None? {
        if !hasFactory { return InvalidExecution; }
        log := log + [FactoryCalled];
        if factory.FactoryFails? { return FactoryError; }
        if factory.ReturnsNothing? { return InvalidExecution; }
        log, next := log + [Created(next)], next + 1;
        if factory.BuildsPartially? {
          log := log + [Closed(built)];
          built := built + 1;
          return FactoryError;
        }
        current := Some(built);
        built := built + 1;
      }
      var authority := current.value;
      log := log + [Used(authority)];
      match use {
        case Rotated(n) => return Ok(n);
        case InputInvalid => return InputError;
        case UseFails =>
          current := None;
          log := log + [Closed(authority)];
          return UseError;
      }
    }

    /** Close without a concurrent caller between its critical section and the release. */
    method Close()
      requires Valid()
      modifies this
      ensures Valid() && closed && current.None?
      ensures old(closed) ==> Contents() == old(Contents())
      ensures !old(closed) ==>
                Contents() == if old(current).Some? then ReleasePending(Detach(old(Contents())))
                              else Detach(old(Contents()))
    {
      CloseInv(Contents());
      if closed { return; }
      CloseInv(Detach(Contents()));
      var detached := current;
      closed, current := true, None;
      log := log + [Shut];
      if detached.Some? {
        log := log + [Closed(detached.value)];
      }
    }
  }
}
