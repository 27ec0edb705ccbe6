/** API supervision: the supervisor closes the runtime before it forwards a failure, and
    several failure sources are merged into one channel. */
module ApiSupervision {

  // ---- superviseAPIPluginRuntimeCoordinator ------------------------------------------

  datatype Supervisor = AwaitFailure | CloseRuntime(failure: nat) | Forward(failure: nat)
                      | CloseFailures | CloseDone | SupervisorEnded

  datatype Supervised = Supervised(
    pc: Supervisor, hasClose: bool, runtimeCloses: nat, failures: seq<nat>, failuresClosed: bool, doneClosed: bool)

  /** What `<-coordinator.Failures()` yields: a failure, or the closed channel. */
  datatype Received = Failure(failure: nat) | ChannelClosed

  function Supervise(s: Supervised, r: Received): Supervised {
    match s.pc
    case AwaitFailure =>
      if r.ChannelClosed? then s.(pc := CloseFailures)
      else s.(pc := if s.hasClose then CloseRuntime(r.failure) else Forward(r.failure))
    case CloseRuntime(f) => s.(pc := Forward(f), runtimeCloses := s.runtimeCloses + 1)
    case Forward(f) => s.(pc := CloseFailures, failures := s.failures + [f])
    case CloseFailures => s.(pc := CloseDone, failuresClosed := true)
    case CloseDone => s.(pc := SupervisorEnded, doneClosed := true)
    case SupervisorEnded => s
  }

  function SuperviseSteps(s: Supervised, inputs: seq<Received>): Supervised
    decreases |inputs|
  {
    if inputs == [] then s else SuperviseSteps(Supervise(s, inputs[0]), inputs[1..])
  }

  predicate SupervisedInv(s: Supervised) {
    match s.pc
    case AwaitFailure => s.runtimeCloses == 0 && s.failures == [] && !s.failuresClosed && !s.doneClosed
    case CloseRuntime(_) => s.hasClose && s.runtimeCloses == 0 && s.failures == [] && !s.failuresClosed && !s.doneClosed
    case Forward(_) => (s.hasClose ==> s.runtimeCloses == 1) && s.runtimeCloses <= 1 && s.failures == [] && !s.failuresClosed && !s.doneClosed
    case CloseFailures => Forwarded(s) && !s.failuresClosed && !s.doneClosed
    case CloseDone => Forwarded(s) && s.failuresClosed && !s.doneClosed
    case SupervisorEnded => Forwarded(s) && s.failuresClosed && s.doneClosed
  }

  predicate Forwarded(s: Supervised) {
    |s.failures| <= 1 && s.runtimeCloses <= 1 && (s.failures != [] && s.hasClose ==> s.runtimeCloses == 1)
  }

  /** However far it got: the failure is visible only after the runtime was closed, at
      most one is forwarded, and the channels close in order. */
  lemma {:induction false} RuntimeClosesBeforeFailureShows(s: Supervised, inputs: seq<Received>)
    requires SupervisedInv(s)
    ensures var e := SuperviseSteps(s, inputs);
            && SupervisedInv(e) && |e.failures| <= 1 && e.runtimeCloses <= 1
            && (e.failures != [] && e.hasClose ==> e.runtimeCloses == 1)
            && (e.doneClosed ==> e.failuresClosed)
    decreases |inputs|
  {
    if inputs != [] {
      RuntimeClosesBeforeFailureShows(Supervise(s, inputs[0]), inputs[1..]);
    }
  }

  /** How far the supervisor is with the failure `f`. */
  predicate Carries(s: Supervised, f: nat) {
    match s.pc
    case CloseRuntime(g) => g == f && s.failures == [] && s.hasClose && s.runtimeCloses == 0
    case Forward(g) => g == f && s.failures == [] && s.runtimeCloses == if s.hasClose then 1 else 0
    case CloseFailures | CloseDone | SupervisorEnded =>
      s.failures == [f] && s.runtimeCloses == if s.hasClose then 1 else 0
    case AwaitFailure => false
  }

  lemma {:induction false} CarriesOn(s: Supervised, f: nat, inputs: seq<Received>)
    requires Carries(s, f)
    ensures Carries(SuperviseSteps(s, inputs), f)
    ensures SuperviseSteps(s, inputs).hasClose == s.hasClose
    decreases |inputs|
  {
    if inputs != [] { CarriesOn(Supervise(s, inputs[0]), f, inputs[1..]); }
  }

  predicate Quiet(s: Supervised) {
    && s.failures == [] && s.runtimeCloses == 0
    && (s.pc.CloseFailures? || s.pc.CloseDone? || s.pc.SupervisorEnded?)
  }

  lemma {:induction false} QuietOn(s: Supervised, inputs: seq<Received>)
    requires Quiet(s)
    ensures Quiet(SuperviseSteps(s, inputs))
    decreases |inputs|
  {
    if inputs != [] { QuietOn(Supervise(s, inputs[0]), inputs[1..]); }
  }

  /** Once the supervisor has ended, the coordinator's failure has been forwarded, after one
      close of the runtime if there is one to close; without a failure nothing was closed
      or forwarded. It ends within four further steps. */
  lemma FailureIsForwarded(s: Supervised, first: Received, inputs: seq<Received>)
    requires SupervisedInv(s) && s.pc == AwaitFailure
    ensures var e := SuperviseSteps(Supervise(s, first), inputs);
            && (e.pc == SupervisorEnded && first.Failure? ==>
                  e.failures == [first.failure] && e.runtimeCloses == if s.hasClose then 1 else 0)
            && (e.pc == SupervisorEnded && first.ChannelClosed? ==> e.failures == [] && e.runtimeCloses == 0)
            && (|inputs| >= 4 ==> e.pc == SupervisorEnded)
  {
    var v := Supervise(s, first);
    if |inputs| >= 4 { EndsInTime(v, inputs); }
    match first
    case Failure(f) => CarriesOn(v, f, inputs);
    case ChannelClosed => QuietOn(v, inputs);
  }

  function StepsLeft(pc: Supervisor): nat {
    match pc
    case AwaitFailure => 5 case CloseRuntime(_) => 4 case Forward(_) => 3
    case CloseFailures => 2 case CloseDone => 1 case SupervisorEnded => 0
  }

  lemma {:induction false} EndsInTime(s: Supervised, inputs: seq<Received>)
    requires |inputs| >= StepsLeft(s.pc)
    ensures SuperviseSteps(s, inputs).pc == SupervisorEnded
    decreases |inputs|
  {
    if inputs != [] { EndsInTime(Supervise(s, inputs[0]), inputs[1..]); }
  }

  // ---- mergeAPIRuntimeFailureSources ----------------------------------------------------

  datatype Source = Silent | Carrying(failure: nat) | Closed

  /** One forwarding goroutine. `taken` is the failure it has received. */
  datatype Forwarder = Waiting | Offering(taken: nat) | Canceling | Leaving(lost: bool) | Done(lost: bool)

  /** `sent` is the history of the merged channel, `buffer` its one slot. */
  datatype Merge = Merge(
    sources: map<nat, Source>, forwarders: map<nat, Forwarder>, canceled: bool, stopCalled: bool,
    sent: seq<nat>, buffer: seq<nat>, closed: bool)

  datatype Action =
    | Fail(i: nat, failure: nat) | End(i: nat)
    | Take(i: nat) | SeeCancel(i: nat) | Send(i: nat) | Cancel(i: nat) | Leave(i: nat)
    | Receive | CloseMerged | Stop

  predicate AllDone(m: Merge) {
    forall i :: i in m.forwarders ==> m.forwarders[i].Done?
  }

  predicate Enabled(m: Merge, a: Action) {
    match a
    case Fail(i, _) => i in m.sources && m.sources[i].Silent?
    case End(i) => i in m.sources && m.sources[i].Silent?
    case Take(i) => i in m.forwarders && i in m.sources && m.forwarders[i].Waiting? && !m.sources[i].Silent?
    case SeeCancel(i) => i in m.forwarders && (m.forwarders[i].Waiting? || m.forwarders[i].Offering?) && m.canceled
    case Send(i) => i in m.forwarders && m.forwarders[i].Offering? && m.buffer == []
    case Cancel(i) => i in m.forwarders && m.forwarders[i].Canceling?
    case Leave(i) => i in m.forwarders && m.forwarders[i].Leaving?
    case Receive => m.buffer != []
    case CloseMerged => AllDone(m) && !m.closed
    case Stop => true
  }

  function Step(m: Merge, a: Action): Merge
    requires Enabled(m, a)
  {
    match a
    case Fail(i, f) => m.(sources := m.sources[i := Carrying(f)])
    case End(i) => m.(sources := m.sources[i := Closed])
    case Take(i) =>
      m.(forwarders := m.forwarders[i :=
        if m.sources[i].Carrying? then Offering(m.sources[i].failure) else Leaving(false)],
         sources := m.sources[i := Closed])
    case SeeCancel(i) => m.(forwarders := m.forwarders[i := Leaving(m.forwarders[i].Offering?)])
    case Send(i) =>
      m.(forwarders := m.forwarders[i := Canceling],
         sent := m.sent + [m.forwarders[i].taken], buffer := [m.forwarders[i].taken])
    case Cancel(i) => m.(forwarders := m.forwarders[i := Leaving(false)], canceled := true)
    case Leave(i) => m.(forwarders := m.forwarders[i := Done(m.forwarders[i].lost)])
    case Receive => m.(buffer := [])
    case CloseMerged => m.(closed := true)
    case Stop => m.(canceled := true, stopCalled := true)
  }

  ghost predicate Run(m: Merge, acts: seq<Action>, last: Merge)
    decreases |acts|
  {
    if acts == [] then m == last
    else Enabled(m, acts[0]) && Run(Step(m, acts[0]), acts[1..], last)
  }

  predicate Init(m: Merge) {
    && m.forwarders.Keys == m.sources.Keys && !m.canceled && !m.stopCalled
    && m.sent == [] && m.buffer == [] && !m.closed
    && forall i :: i in m.forwarders ==> m.forwarders[i].Waiting?
  }

  predicate Gave(f: Forwarder) { (f.Leaving? || f.Done?) && f.lost }

  predicate CancelingAt(m: Merge, i: nat) { i in m.forwarders && m.forwarders[i].Canceling? }

  predicate ForwarderOk(m: Merge, i: nat)
    requires i in m.forwarders
  {
    (Gave(m.forwarders[i]) ==> m.canceled) && (m.forwarders[i].Canceling? ==> m.sent != [])
  }

  /** Only a send or Stop cancels, the sender cancels right after it sent, and only a
      cancel makes a forwarder drop its failure. */
  ghost predicate Inv(m: Merge) {
    && m.forwarders.Keys == m.sources.Keys
    && (m.canceled && !m.stopCalled ==> m.sent != [])
    && (m.sent != [] && !m.canceled ==> exists j :: CancelingAt(m, j))
    && (forall i :: i in m.forwarders ==> ForwarderOk(m, i))
    && (m.closed ==> AllDone(m))
    && (m.buffer != [] ==> m.sent != [])
  }

  lemma InitInv(m: Merge)
    requires Init(m)
    ensures Inv(m)
  {
  }

  lemma CancelingKept(m: Merge, a: Action)
    requires Inv(m) && Enabled(m, a) && Step(m, a).sent != [] && !Step(m, a).canceled
    ensures exists j :: CancelingAt(Step(m, a), j)
  {
    if a.Send? {
      assert CancelingAt(Step(m, a), a.i);
    } else {
      var j :| CancelingAt(m, j);
      assert CancelingAt(Step(m, a), j);
    }
  }

  lemma ForwardersKept(m: Merge, a: Action, i: nat)
    requires Enabled(m, a) && i in m.forwarders && ForwarderOk(m, i)
    ensures i in Step(m, a).forwarders && ForwarderOk(Step(m, a), i)
  {
  }

  /** What was sent stays sent, and only a sender or Stop cancels. */
  lemma SentGrows(m: Merge, a: Action)
    requires Inv(m) && Enabled(m, a)
    ensures var m' := Step(m, a);
            && |m.sent| <= |m'.sent| && (m.sent != [] ==> m'.sent != [])
            && (m'.canceled && !m'.stopCalled ==> m'.sent != []) && (m'.buffer != [] ==> m'.sent != [])
  {
  }

  /** A forwarder that is done does nothing any more. */
  lemma ClosedKept(m: Merge, a: Action)
    requires m.closed && AllDone(m) && Enabled(m, a)
    ensures Step(m, a).closed && Step(m, a).sent == m.sent && AllDone(Step(m, a))
  {
  }

  lemma StepInv(m: Merge, a: Action)
    requires Inv(m) && Enabled(m, a)
    ensures Inv(Step(m, a)) && |m.sent| <= |Step(m, a).sent|
    ensures m.closed ==> Step(m, a).sent == m.sent && Step(m, a).closed
  {
    var m' := Step(m, a);
    SentGrows(m, a);
    KeysKept(m, a);
    ClosedMeansDone(m, a);
    if m'.sent != [] && !m'.canceled { CancelingKept(m, a); }
    forall i | i in m'.forwarders ensures ForwarderOk(m', i) { ForwardersKept(m, a, i); }
  }

  lemma KeysKept(m: Merge, a: Action)
    requires Enabled(m, a) && m.forwarders.Keys == m.sources.Keys
    ensures Step(m, a).forwarders.Keys == m.forwarders.Keys && Step(m, a).sources.Keys == m.sources.Keys
  {
  }

  lemma ClosedMeansDone(m: Merge, a: Action)
    requires Enabled(m, a) && (m.closed ==> AllDone(m))
    ensures Step(m, a).closed ==> AllDone(Step(m, a))
    ensures m.closed ==> Step(m, a).sent == m.sent && Step(m, a).closed
  {
    if m.closed { ClosedKept(m, a); }
  }

  lemma {:induction false} RunInv(m: Merge, acts: seq<Action>, last: Merge)
    requires Inv(m) && Run(m, acts, last)
    ensures Inv(last)
    decreases |acts|
  {
    if acts != [] {
      StepInv(m, acts[0]);
      RunInv(Step(m, acts[0]), acts[1..], last);
    }
  }

  /** Source `i` has failed and its failure is on its way, was overtaken by a cancel,
      or something was sent. */
  predicate Pending(m: Merge, i: nat) {
    && i in m.forwarders && i in m.sources
    && (|| m.canceled || m.sent != []
        || (m.sources[i].Carrying? && m.forwarders[i].Waiting?)
        || m.forwarders[i].Offering? || m.forwarders[i].Canceling?)
  }

  lemma {:induction false} PendingIsKept(m: Merge, i: nat, acts: seq<Action>, last: Merge)
    requires Inv(m) && Pending(m, i) && Run(m, acts, last)
    ensures Inv(last) && Pending(last, i)
    decreases |acts|
  {
    if acts != [] {
      StepInv(m, acts[0]);
      PendingIsKept(Step(m, acts[0]), i, acts[1..], last);
    }
  }

  /** Source `i` fails with `failure` in the run, or had failed before it began. */
  predicate Fails(m: Merge, acts: seq<Action>, i: nat, failure: nat) {
    (i in m.sources && m.sources[i] == Carrying(failure)) || Fail(i, failure) in acts
  }

  /** A source that has not been heard yet is still waited for, unless a cancel came. */
  predicate Listening(m: Merge) {
    m.canceled || forall i :: i in m.sources && i in m.forwarders && !m.sources[i].Closed? ==> m.forwarders[i].Waiting?
  }

  lemma ListeningIsKept(m: Merge, a: Action)
    requires Listening(m) && Enabled(m, a)
    ensures Listening(Step(m, a))
  {
  }

  lemma {:induction false} MergeKeepsAFailure(m: Merge, i: nat, failure: nat, acts: seq<Action>, last: Merge)
    requires Inv(m) && Listening(m) && Fails(m, acts, i, failure) && Run(m, acts, last)
    ensures AllDone(last) && !last.stopCalled ==> last.sent != []
    decreases |acts|
  {
    if i in m.sources && m.sources[i] == Carrying(failure) {
      PendingIsKept(m, i, acts, last);
    } else {
      var v := Step(m, acts[0]);
      StepInv(m, acts[0]);
      ListeningIsKept(m, acts[0]);
      assert acts == [acts[0]] + acts[1..];
      MergeKeepsAFailure(v, i, failure, acts[1..], last);
    }
  }

  /** From the start: if some source fails at any time and Stop is never called, then
      some failure has been sent by the time every forwarder is done; and whatever is
      sent was some source's failure. */
  lemma MergeKeepsTheFirstFailure(m: Merge, i: nat, failure: nat, acts: seq<Action>, last: Merge)
    requires Init(m) && Fails(m, acts, i, failure) && Run(m, acts, last)
    ensures AllDone(last) && !last.stopCalled ==> last.sent != []
    ensures forall v :: v in last.sent ==> exists j :: Fails(m, acts, j, v)
  {
    InitInv(m);
    MergeKeepsAFailure(m, i, failure, acts, last);
    SentWasCarried(m, acts, last);
  }

  /** Where a failure in flight can be. */
  predicate InFlight(m: Merge, i: nat, v: nat) {
    || (i in m.sources && m.sources[i] == Carrying(v))
    || (i in m.forwarders && m.forwarders[i] == Offering(v))
  }

  lemma SentWasInFlight(m: Merge, a: Action, v: nat)
    requires Enabled(m, a) && v in Step(m, a).sent && v !in m.sent
    ensures a.Send? && InFlight(m, a.i, v)
  {
  }

  lemma InFlightBefore(m: Merge, a: Action, j: nat, v: nat)
    requires Enabled(m, a) && InFlight(Step(m, a), j, v)
    ensures InFlight(m, j, v) || a == Fail(j, v)
  {
  }

  /** Every value on the merged channel was carried by some source. */
  lemma {:induction false} SentComesFrom(m: Merge, acts: seq<Action>, last: Merge, v: nat) returns (j: nat)
    requires Run(m, acts, last) && v in last.sent && v !in m.sent
    ensures InFlight(m, j, v) || Fail(j, v) in acts
    decreases |acts|
  {
    var a, w := acts[0], Step(m, acts[0]);
    assert acts == [a] + acts[1..];
    if v in w.sent {
      SentWasInFlight(m, a, v);
      j := a.i;
    } else {
      j := SentComesFrom(w, acts[1..], last, v);
      if InFlight(w, j, v) { InFlightBefore(m, a, j, v); }
    }
  }

  lemma SentWasCarried(m: Merge, acts: seq<Action>, last: Merge)
    requires Init(m) && Run(m, acts, last)
    ensures forall v :: v in last.sent ==> exists j :: Fails(m, acts, j, v)
  {
    forall v | v in last.sent ensures exists j :: Fails(m, acts, j, v) {
      var j := SentComesFrom(m, acts, last, v);
      assert Fails(m, acts, j, v);
    }
  }

  /** Nothing is sent on the merged channel after it was closed, and it is closed only
      when every forwarder has left. */
  lemma {:induction false} NoSendAfterClose(m: Merge, acts: seq<Action>, last: Merge)
    requires Inv(m) && m.closed && Run(m, acts, last)
    ensures last.closed && last.sent == m.sent && AllDone(last)
    decreases |acts|
  {
    if acts != [] {
      StepInv(m, acts[0]);
      NoSendAfterClose(Step(m, acts[0]), acts[1..], last);
    }
  }

  /** A forwarder with a failure never depends on a consumer: it can send, or leave
      because of a cancel, or the slot is full and the sender that filled it is about
      to cancel. */
  lemma ForwardersFinish(m: Merge, i: nat) returns (a: Action)
    requires Inv(m) && i in m.forwarders && m.forwarders[i].Offering?
    ensures Enabled(m, a)
    ensures a == Send(i) || a == SeeCancel(i) || (a.Cancel? && CancelingAt(m, a.i))
    ensures a.Cancel? ==> Enabled(Step(m, a), SeeCancel(i))
  {
    if m.canceled {
      a := SeeCancel(i);
    } else if m.buffer == [] {
      a := Send(i);
    } else {
      var j :| CancelingAt(m, j);
      a := Cancel(j);
    }
  }

  predicate OfForwarder(a: Action, i: nat) {
    (a.Take? || a.SeeCancel? || a.Send? || a.Cancel? || a.Leave?) && a.i == i
  }

  function ForwarderLeft(f: Forwarder): nat {
    match f
    case Waiting => 4 case Offering(_) => 3 case Canceling => 2 case Leaving(_) => 1 case Done(_) => 0
  }

  /** Every step of a forwarder brings it nearer to its end. */
  lemma ForwarderDescends(m: Merge, i: nat, a: Action)
    requires Enabled(m, a) && OfForwarder(a, i) && i in m.forwarders
    ensures i in Step(m, a).forwarders && ForwarderLeft(Step(m, a).forwarders[i]) < ForwarderLeft(m.forwarders[i])
  {
  }

  /** Stop is for good, and after it no forwarder waits for anything. */
  lemma StopFreesEveryForwarder(m: Merge, acts: seq<Action>, last: Merge, i: nat) returns (a: Action)
    requires Inv(m) && Run(Step(m, Stop), acts, last) && i in last.forwarders && !last.forwarders[i].Done?
    ensures last.canceled && last.stopCalled
    ensures OfForwarder(a, i) && Enabled(last, a)
  {
    CanceledStays(Step(m, Stop), acts, last);
    a := match last.forwarders[i]
      case Waiting => SeeCancel(i)
      case Offering(_) => SeeCancel(i)
      case Canceling => Cancel(i)
      case _ => Leave(i);
  }

  lemma {:induction false} CanceledStays(m: Merge, acts: seq<Action>, last: Merge)
    requires m.canceled && m.stopCalled && Run(m, acts, last)
    ensures last.canceled && last.stopCalled
    decreases |acts|
  {
    if acts != [] { CanceledStays(Step(m, acts[0]), acts[1..], last); }
  }
}
