/** Storage conversion of replay authorizations, with Go's difference between a nil and
    an empty slice. */
module ReplayStorage {
  import opened Options

  datatype Slice<T> = Nil | Of(elems: seq<T>)

  function View<T>(s: Slice<T>): seq<T> { if s.Nil? then [] else s.elems }

  /** `append([]byte(nil), s...)`: a copy that is nil when there is nothing to copy. */
  function Copied<T>(s: Slice<T>): Slice<T> { if View(s) == [] then Nil else Of(View(s)) }

  datatype Operation = Operation(kind: string, path: string, value: Slice<bv8>)

  datatype Mutation = Mutation(stepIndex: int, before: string, after: string, operations: Slice<Operation>)

  datatype Authorization = Authorization(
    schema: string, planDigest: string, baseDigest: string, mutations: Slice<Mutation>)

  datatype StoredOperation = StoredOperation(kind: string, path: string, value: Slice<bv8>)

  datatype StoredMutation = StoredMutation(
    stepIndex: int, before: string, after: string, operations: Slice<StoredOperation>)

  datatype StoredAuthorization = StoredAuthorization(
    schema: string, planDigest: string, baseDigest: string, mutations: Slice<StoredMutation>)

  // ---- what stands for what ------------------------------------------------------------

  predicate SameOperation(a: Operation, b: StoredOperation) {
    a.kind == b.kind && a.path == b.path && View(a.value) == View(b.value)
  }

  predicate SameOperations(a: seq<Operation>, b: seq<StoredOperation>) {
    |a| == |b| && forall i :: 0 <= i < |a| ==> SameOperation(a[i], b[i])
  }

  predicate SameMutation(a: Mutation, b: StoredMutation) {
    && a.stepIndex == b.stepIndex && a.before == b.before && a.after == b.after
    && SameOperations(View(a.operations), View(b.operations))
  }

  predicate SameMutations(a: seq<Mutation>, b: seq<StoredMutation>) {
    |a| == |b| && forall i :: 0 <= i < |a| ==> SameMutation(a[i], b[i])
  }

  /** Both records carry the same transcript, up to nil and empty slices. */
  predicate SameAuthorization(a: Authorization, b: StoredAuthorization) {
    && a.schema == b.schema && a.planDigest == b.planDigest && a.baseDigest == b.baseDigest
    && SameMutations(View(a.mutations), View(b.mutations))
  }

  /** The slice shape every conversion produces: no nil list, no empty non-nil value. */
  predicate ExactOperations(s: Slice<Operation>) {
    s.Of? && forall i :: 0 <= i < |s.elems| ==> s.elems[i].value != Of([])
  }

  predicate Exact(a: Authorization) {
    a.mutations.Of? && forall i :: 0 <= i < |a.mutations.elems| ==> ExactOperations(a.mutations.elems[i].operations)
  }

  predicate ExactStoredOperations(s: Slice<StoredOperation>) {
    s.Of? && forall i :: 0 <= i < |s.elems| ==> s.elems[i].value != Of([])
  }

  predicate ExactStored(a: StoredAuthorization) {
    a.mutations.Of? && forall i :: 0 <= i < |a.mutations.elems| ==> ExactStoredOperations(a.mutations.elems[i].operations)
  }

  // ---- conversions -----------------------------------------------------------------------

  /** The inner loop of the conversion to storage. */
  method OperationsForStorage(source: seq<Operation>) returns (operations: seq<StoredOperation>)
    ensures SameOperations(source, operations) && ExactStoredOperations(Of(operations))
  {
    operations := [];
    for index := 0 to |source|
      invariant SameOperations(source[..index], operations)
      invariant ExactStoredOperations(Of(operations))
    {
      var operation := source[index];
      operations := operations + [StoredOperation(operation.kind, operation.path, Copied(operation.value))];
    }
    assert source[..|source|] == source;
  }

  /** `routeReplayAuthorizationForStorage` */
  method ForStorage(value: Option<Authorization>) returns (result: Option<StoredAuthorization>)
    ensures result.Some? <==> value.Some?
    ensures value.Some? ==> SameAuthorization(value.value, result.value) && ExactStored(result.value)
  {
    if value.None? { return None; }
    var source := View(value.value.mutations);
    var mutations := [];
    for index := 0 to |source|
      invariant SameMutations(source[..index], mutations)
      invariant forall i :: 0 <= i < |mutations| ==> ExactStoredOperations(mutations[i].operations)
    {
      var mutation := source[index];
      var operations := OperationsForStorage(View(mutation.operations));
      mutations := mutations + [StoredMutation(mutation.stepIndex, mutation.before, mutation.after, Of(operations))];
    }
    assert source[..|source|] == source;
    return Some(StoredAuthorization(value.value.schema, value.value.planDigest, value.value.baseDigest, Of(mutations)));
  }

  /** The inner loop of the conversion from storage. */
  method OperationsFromStored(source: seq<StoredOperation>) returns (operations: seq<Operation>)
    ensures SameOperations(operations, source) && ExactOperations(Of(operations))
  {
    operations := [];
    for index := 0 to |source|
      invariant SameOperations(operations, source[..index])
      invariant ExactOperations(Of(operations))
    {
      var operation := source[index];
      operations := operations + [Operation(operation.kind, operation.path, Copied(operation.value))];
    }
    assert source[..|source|] == source;
  }

  /** `routeReplayAuthorizationFromStored` */
  method FromStored(value: Option<StoredAuthorization>) returns (result: Option<Authorization>)
    ensures result.Some? <==> value.Some?
    ensures value.Some? ==> SameAuthorization(result.value, value.value) && Exact(result.value)
  {
    if value.None? { return None; }
    var source := View(value.value.mutations);
    var mutations := [];
    for index := 0 to |source|
      invariant SameMutations(mutations, source[..index])
      invariant forall i :: 0 <= i < |mutations| ==> ExactOperations(mutations[i].operations)
    {
      var mutation := source[index];
      var operations := OperationsFromStored(View(mutation.operations));
      mutations := mutations + [Mutation(mutation.stepIndex, mutation.before, mutation.after, Of(operations))];
    }
    assert source[..|source|] == source;
    return Some(Authorization(value.value.schema, value.value.planDigest, value.value.baseDigest, Of(mutations)));
  }

  // ---- the round trip ----------------------------------------------------------------------

  lemma ExactOperationsDetermined(a: Slice<Operation>, b: Slice<Operation>, stored: Slice<StoredOperation>)
    requires ExactOperations(a) && ExactOperations(b)
    requires SameOperations(View(a), View(stored)) && SameOperations(View(b), View(stored))
    ensures a == b
  {
    forall i | 0 <= i < |a.elems| ensures a.elems[i] == b.elems[i] {
      var x, y := a.elems[i], b.elems[i];
      assert SameOperation(x, View(stored)[i]) && SameOperation(y, View(stored)[i]);
      assert x.value == y.value;
    }
  }

  /** Two exact records that stand for the same stored one are equal. */
  lemma ExactDetermined(a: Authorization, b: Authorization, stored: StoredAuthorization)
    requires Exact(a) && Exact(b) && SameAuthorization(a, stored) && SameAuthorization(b, stored)
    ensures a == b
  {
    forall i | 0 <= i < |a.mutations.elems| ensures a.mutations.elems[i] == b.mutations.elems[i] {
      var x, y, z := a.mutations.elems[i], b.mutations.elems[i], View(stored.mutations)[i];
      assert SameMutation(x, z) && SameMutation(y, z);
      ExactOperationsDetermined(x.operations, y.operations, z.operations);
    }
    assert a.mutations.elems == b.mutations.elems;
  }

  /** Storing and loading is the identity exactly on records without nil lists and
      without empty non-nil values; on every record it keeps the transcript. */
  method StoreThenLoad(value: Option<Authorization>) returns (loaded: Option<Authorization>)
    ensures value.Some? <==> loaded.Some?
    ensures loaded == value <==> (value.Some? ==> Exact(value.value))
    ensures value.Some? ==> Exact(loaded.value) && exists s :: SameAuthorization(value.value, s) && SameAuthorization(loaded.value, s)
  {
    var stored := ForStorage(value);
    loaded := FromStored(stored);
    if value.Some? && Exact(value.value) { ExactDetermined(value.value, loaded.value, stored.value); }
  }

  /** Loading and storing again writes back the stored record exactly if it has the
      shape that storing produces; the transcript is kept for every record. */
  method LoadThenStore(value: Option<StoredAuthorization>) returns (again: Option<StoredAuthorization>)
    ensures value.Some? <==> again.Some?
    ensures again == value <==> (value.Some? ==> ExactStored(value.value))
    ensures value.Some? ==> ExactStored(again.value) && exists a :: SameAuthorization(a, value.value) && SameAuthorization(a, again.value)
  {
    var loaded := FromStored(value);
    again := ForStorage(loaded);
    if value.Some? && ExactStored(value.value) { ExactStoredDetermined(value.value, again.value, loaded.value); }
  }

  lemma ExactStoredOperationsDetermined(a: Slice<StoredOperation>, b: Slice<StoredOperation>, live: Slice<Operation>)
    requires ExactStoredOperations(a) && ExactStoredOperations(b)
    requires SameOperations(View(live), View(a)) && SameOperations(View(live), View(b))
    ensures a == b
  {
    forall i | 0 <= i < |a.elems| ensures a.elems[i] == b.elems[i] {
      var x, y := a.elems[i], b.elems[i];
      assert SameOperation(View(live)[i], x) && SameOperation(View(live)[i], y);
      assert x.value == y.value;
    }
  }

  lemma ExactStoredDetermined(a: StoredAuthorization, b: StoredAuthorization, live: Authorization)
    requires ExactStored(a) && ExactStored(b) && SameAuthorization(live, a) && SameAuthorization(live, b)
    ensures a == b
  {
    forall i | 0 <= i < |a.mutations.elems| ensures a.mutations.elems[i] == b.mutations.elems[i] {
      var x, y, z := a.mutations.elems[i], b.mutations.elems[i], View(live.mutations)[i];
      assert SameMutation(z, x) && SameMutation(z, y);
      ExactStoredOperationsDetermined(x.operations, y.operations, z.operations);
    }
    assert a.mutations.elems == b.mutations.elems;
  }
}
