/** Errors of the route stream code: Go error chains with sentinels, and the
    Host's private abort/incident classification of them. */
module StreamErrors {
  import opened Options

  /** The sentinels the stream code looks for with `errors.Is`. */
  datatype Sentinel =
    | AdmissionForced
    | BudgetExceeded
    | ResponseInvalid
    | StreamMissingTerminal
    | ContextCanceled
    | DeadlineExceeded
    | EndOfFile
    | DispatchTransport
    | RuntimeTarget
    | Other(id: nat)

  datatype FailureClass = RuntimeTransport | HostBudget | InvalidPreflight | MissingTerminal

  datatype Disposition = Abort | Incident(class_: FailureClass)

  /** An error chain: a sentinel, `%w` wrapping, a join, or the Host's wrapper. */
  datatype Error =
    | Leaf(sentinel: Sentinel)
    | Wrapped(cause: Error)
    | Joined(left: Error, right: Error)
    | Classified(cause: Error, disposition: Disposition)

  /** `errors.Is` for a sentinel. */
  predicate Is(e: Error, s: Sentinel) {
    match e
    case Leaf(own) => own == s
    case Wrapped(cause) => Is(cause, s)
    case Joined(left, right) => Is(left, s) || Is(right, s)
    case Classified(cause, _) => Is(cause, s)
  }

  /** `InspectRouteStreamFailureDisposition`: the outermost Host wrapper, depth first. */
  function DispositionOf(e: Error): Option<Disposition> {
    match e
    case Leaf(_) => None
    case Wrapped(cause) => DispositionOf(cause)
    case Joined(left, right) =>
      var l := DispositionOf(left);
      if l.Some? then l else DispositionOf(right)
    case Classified(_, d) => Some(d)
  }

  predicate IsClassified(e: Error) { DispositionOf(e).Some? }

  /** `routeWebSocketFailureIsAbort` */
  predicate IsAbort(e: Error) { DispositionOf(e) == Some(Abort) }

  /** `WithRouteStreamAbort`; the nil error becomes context.Canceled. */
  function WithAbort(e: Option<Error>): Error {
    Classified(if e.Some? then e.value else Leaf(ContextCanceled), Abort)
  }

  /** `WithRouteStreamIncident` for a non-nil error and a valid class. */
  function WithIncident(e: Error, c: FailureClass): Error {
    Classified(e, Incident(c))
  }

  /** `classifyRouteV2StreamError` on a non-nil error. */
  function Classify(e: Error): Error {
    if Is(e, AdmissionForced) then WithAbort(Some(e))
    else if Is(e, BudgetExceeded) then WithIncident(e, HostBudget)
    else if Is(e, ResponseInvalid) then WithIncident(e, InvalidPreflight)
    else if Is(e, StreamMissingTerminal) then WithIncident(e, MissingTerminal)
    else if Is(e, ContextCanceled) || Is(e, DeadlineExceeded) then WithAbort(Some(e))
    else e
  }

  function ClassifyOption(e: Option<Error>): Option<Error> {
    if e.Some? then Some(Classify(e.value)) else None
  }

  /** `routeV2HostOwnedStreamWinner` */
  predicate HostOwned(e: Option<Error>) {
    e.Some? && (Is(e.value, AdmissionForced) || Is(e.value, BudgetExceeded))
  }

  /** What a caller can observe of an error: its sentinels and its disposition. */
  ghost predicate SameMeaning(a: Error, b: Error) {
    && (forall s :: Is(a, s) <==> Is(b, s))
    && DispositionOf(a) == DispositionOf(b)
  }

  /** Classification only ever adds a Host wrapper: no sentinel is lost or gained,
      classifying again changes nothing observable, and the Host wrapper that an
      error already carried is replaced exactly when the chain holds a sentinel of
      the table whose verdict differs from it. */
  lemma ClassifyIsStable(e: Error)
    ensures forall s :: Is(Classify(e), s) <==> Is(e, s)
    ensures SameMeaning(Classify(Classify(e)), Classify(e))
    ensures HostOwned(Some(Classify(e))) == HostOwned(Some(e))
    ensures DispositionOf(Classify(e)) == DispositionOf(e) <==>
            (TableVerdict(e).None? || TableVerdict(e) == DispositionOf(e))
  {
    var c := Classify(e);
    assert forall s :: Is(c, s) <==> Is(e, s);
    assert forall s :: Is(Classify(c), s) <==> Is(c, s);
  }

  /** The verdict the sentinels of a chain demand, by priority. */
  ghost function TableVerdict(e: Error): Option<Disposition> {
    if Is(e, AdmissionForced) then Some(Abort)
    else if Is(e, BudgetExceeded) then Some(Incident(HostBudget))
    else if Is(e, ResponseInvalid) then Some(Incident(InvalidPreflight))
    else if Is(e, StreamMissingTerminal) then Some(Incident(MissingTerminal))
    else if Is(e, ContextCanceled) || Is(e, DeadlineExceeded) then Some(Abort)
    else None
  }

  /** All sentinels of a chain, outermost and leftmost first. */
  function Sentinels(e: Error): seq<Sentinel> {
    match e
    case Leaf(own) => [own]
    case Wrapped(cause) => Sentinels(cause)
    case Joined(left, right) => Sentinels(left) + Sentinels(right)
    case Classified(cause, _) => Sentinels(cause)
  }

  /** All Host wrappers of a chain, outermost and leftmost first. */
  function Dispositions(e: Error): seq<Disposition> {
    match e
    case Leaf(_) => []
    case Wrapped(cause) => Dispositions(cause)
    case Joined(left, right) => Dispositions(left) + Dispositions(right)
    case Classified(cause, d) => [d] + Dispositions(cause)
  }

  /** `errors.Is` finds a sentinel anywhere in the chain; the disposition is the first one
      on the way down. */
  lemma {:induction false} ChainMeaning(e: Error)
    ensures forall s :: Is(e, s) <==> s in Sentinels(e)
    ensures DispositionOf(e) == if Dispositions(e) == [] then None else Some(Dispositions(e)[0])
  {
    match e
    case Leaf(_) =>
    case Wrapped(cause) => ChainMeaning(cause);
    case Joined(left, right) =>
      ChainMeaning(left);
      ChainMeaning(right);
    case Classified(cause, _) => ChainMeaning(cause);
  }

  /** An abort keeps its error, and an abort of nothing is a cancel. */
  lemma AbortMeaning(e: Option<Error>)
    ensures DispositionOf(WithAbort(e)) == Some(Abort)
    ensures SameSentinels(WithAbort(e), if e.Some? then e.value else Leaf(ContextCanceled))
  {
    assert forall s :: Is(WithAbort(e), s) <==> Is(if e.Some? then e.value else Leaf(ContextCanceled), s);
  }

  ghost predicate SameSentinels(a: Error, b: Error) { forall s :: Is(a, s) <==> Is(b, s) }

  predicate EndedByContext(e: Error) { Is(e, ContextCanceled) || Is(e, DeadlineExceeded) }

  /** The first sentinel of the table, by priority, that the chain holds. */
  predicate Decides(s: Sentinel, e: Error) {
    && Is(e, s)
    && (s != AdmissionForced ==> !Is(e, AdmissionForced))
    && (s != AdmissionForced && s != BudgetExceeded ==> !Is(e, BudgetExceeded))
    && (s == StreamMissingTerminal || s == ContextCanceled || s == DeadlineExceeded ==> !Is(e, ResponseInvalid))
    && (s == ContextCanceled || s == DeadlineExceeded ==> !Is(e, StreamMissingTerminal))
  }

  /** What classification makes of an error, sentinel by sentinel: a forced drain before
      the Host budget, an invalid preflight, a missing terminal and the context's end;
      an error without any of them is returned as it is. */
  lemma ClassifyVerdict(e: Error)
    ensures SameSentinels(Classify(e), e)
    ensures Decides(AdmissionForced, e) ==> DispositionOf(Classify(e)) == Some(Abort)
    ensures Decides(BudgetExceeded, e) ==> DispositionOf(Classify(e)) == Some(Incident(HostBudget))
    ensures Decides(ResponseInvalid, e) ==> DispositionOf(Classify(e)) == Some(Incident(InvalidPreflight))
    ensures Decides(StreamMissingTerminal, e) ==> DispositionOf(Classify(e)) == Some(Incident(MissingTerminal))
    ensures Decides(ContextCanceled, e) || Decides(DeadlineExceeded, e) ==> DispositionOf(Classify(e)) == Some(Abort)
    ensures Unlisted(e) ==> Classify(e) == e
  {
    assert forall s :: Is(Classify(e), s) <==> Is(e, s);
  }

  /** None of the table's sentinels is in the chain. */
  predicate Unlisted(e: Error) {
    && !Is(e, AdmissionForced) && !Is(e, BudgetExceeded) && !Is(e, ResponseInvalid)
    && !Is(e, StreamMissingTerminal) && !EndedByContext(e)
  }
}
