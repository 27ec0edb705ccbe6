/** The database catalog: active and staged package snapshots are sorted, de-duplicated
    by exact artifact and turned into query and execute definitions. */
module DatabaseCatalog {
  import opened Options
  import opened Ordering
  import opened Decimals

  // ---- snapshots ------------------------------------------------------------------

  datatype Kind = Query | Execute | UnknownKind

  datatype PackageFile = PackageFile(isOperation: bool, digest: string)

  datatype Operation = Operation(id: string, kind: Kind, path: string, digest: string, resultSchema: string)

  /** A normalized manifest, with the outcome of its validation. */
  datatype Manifest = Manifest(
    valid: bool, isV3: bool, id: string, version: string, isPlugin: bool, ownSchema: bool,
    files: map<string, PackageFile>, operations: seq<Operation>)

  type Key = (string, string, string)

  /** One exact artifact: (id, version, digest), normalized manifest, cleaned path. */
  datatype Snapshot = Snapshot(key: Key, isPlugin: bool, manifest: Manifest, path: string)

  datatype Package = Package(version: string, digest: string, manifest: Manifest, path: string)

  datatype Item = Item(id: string, isPlugin: bool, active: Package, staged: Option<Package>)

  function SnapshotOf(item: Item, p: Package): Snapshot {
    Snapshot((item.id, p.version, p.digest), item.isPlugin, p.manifest, p.path)
  }

  function SnapshotsOf(item: Item): seq<Snapshot> {
    [SnapshotOf(item, item.active)] +
    if item.staged.Some? then [SnapshotOf(item, item.staged.value)] else []
  }

  function AllSnapshots(items: seq<Item>): seq<Snapshot> {
    if items == [] then [] else SnapshotsOf(items[0]) + AllSnapshots(items[1..])
  }

  predicate Eligible(s: Snapshot) { s.isPlugin && s.manifest.operations != [] }

  // ---- appendProtocolV2DatabaseArtifact -----------------------------------------------

  datatype Definition = Definition(
    key: Key, operationId: string, sql: string, schemaId: string, schemaVersion: string)

  datatype Catalog = Catalog(queries: seq<Definition>, executes: seq<Definition>)

  const EMPTY := Catalog([], [])

  function Plus(a: Catalog, b: Catalog): Catalog {
    Catalog(a.queries + b.queries, a.executes + b.executes)
  }

  /** Reads an operation's file of an exact artifact; None when it is missing, too big,
      outside its root or of another digest. */
  type Reader = (Key, string, string, string) -> Option<string>

  predicate IsVersion(v: string) {
    v != [] && v[0] != '0' && forall i :: 0 <= i < |v| ==> '0' <= v[i] <= '9'
  }

  function LastAt(s: string): int
    ensures -1 <= LastAt(s) < |s|
    ensures LastAt(s) >= 0 ==> s[LastAt(s)] == '@'
    ensures forall i :: LastAt(s) < i < |s| ==> s[i] != '@'
  {
    if s == [] then -1
    else if s[|s| - 1] == '@' then |s| - 1
    else LastAt(s[..|s| - 1])
  }

  /** `splitDatabaseSchemaRef` */
  function SplitSchemaRef(s: string): Option<(string, string)> {
    if s == [] then Some(("", ""))
    else
      var at := LastAt(s);
      if at <= 0 || at == |s| - 1 || !IsVersion(s[at + 1..]) then None
      else Some((s[..at], s[at + 1..]))
  }

  function Define(s: Snapshot, op: Operation, read: Reader): Option<Catalog> {
    if op.path !in s.manifest.files || !s.manifest.files[op.path].isOperation
       || s.manifest.files[op.path].digest != op.digest then None
    else
      var sql := read(s.key, s.path, op.path, op.digest);
      var schema := SplitSchemaRef(op.resultSchema);
      if sql.None? || schema.None? || op.kind == UnknownKind then None
      else
        var d := Definition(s.key, op.id, sql.value, schema.value.0, schema.value.1);
        Some(if op.kind == Query then Catalog([d], []) else Catalog([], [d]))
  }

  function DefineAll(s: Snapshot, ops: seq<Operation>, read: Reader): Option<Catalog> {
    if ops == [] then Some(EMPTY)
    else
      var first := Define(s, ops[0], read);
      var rest := DefineAll(s, ops[1..], read);
      if first.None? || rest.None? then None else Some(Plus(first.value, rest.value))
  }

  function Append(s: Snapshot, read: Reader): Option<Catalog> {
    var m := s.manifest;
    if !m.valid || !m.isV3 || m.id != s.key.0 || m.version != s.key.1 || m.isPlugin != s.isPlugin || !m.ownSchema then None
    else DefineAll(s, m.operations, read)
  }

  lemma {:induction false} LastAtIs(s: string, at: nat)
    requires at < |s| && s[at] == '@' && forall i :: at < i < |s| ==> s[i] != '@'
    ensures LastAt(s) == at
  {
    if at < LastAt(s) { assert s[LastAt(s)] == '@'; }
  }

  lemma SplitsAtJoint(id: string, version: string)
    requires id != [] && IsVersion(version)
    ensures SplitSchemaRef(id + "@" + version) == Some((id, version))
  {
    var whole := id + "@" + version;
    assert whole[|id|] == '@';
    forall i | |id| < i < |whole| ensures whole[i] != '@' {
      assert whole[i] == version[i - |id| - 1];
    }
    LastAtIs(whole, |id|);
    assert whole[..|id|] == id && whole[|id| + 1..] == version;
  }

  lemma JoinsWhatWasSplit(s: string)
    requires s != [] && SplitSchemaRef(s).Some?
    ensures var (id, version) := SplitSchemaRef(s).value;
            id != [] && IsVersion(version) && s == id + "@" + version
  {
    var at := LastAt(s);
    assert s == s[..at] + [s[at]] + s[at + 1..];
  }

  /** A schema reference splits exactly at a last `@` that is followed by a positive
      version, and joining the halves gives the reference back. */
  lemma {:induction false} SchemaRefRoundTrip(s: string, id: string, version: string)
    ensures id != [] && IsVersion(version) ==> SplitSchemaRef(id + "@" + version) == Some((id, version))
    ensures s != [] ==>
              (SplitSchemaRef(s) == Some((id, version)) <==> id != [] && IsVersion(version) && s == id + "@" + version)
  {
    if id != [] && IsVersion(version) { SplitsAtJoint(id, version); }
    if s != [] && SplitSchemaRef(s).Some? { JoinsWhatWasSplit(s); }
  }

  function OfKind(ops: seq<Operation>, kind: Kind): seq<Operation> {
    if ops == [] then []
    else (if ops[0].kind == kind then [ops[0]] else []) + OfKind(ops[1..], kind)
  }

  function JoinedSchema(d: Definition): string {
    if d.schemaId == [] then [] else d.schemaId + "@" + d.schemaVersion
  }

  predicate Mirrors(s: Snapshot, op: Operation, d: Definition, read: Reader) {
    && d.key == s.key && d.operationId == op.id
    && read(s.key, s.path, op.path, op.digest) == Some(d.sql)
    && JoinedSchema(d) == op.resultSchema
  }

  predicate AllMirror(s: Snapshot, ops: seq<Operation>, ds: seq<Definition>, read: Reader) {
    |ds| == |ops| && forall i :: 0 <= i < |ops| ==> Mirrors(s, ops[i], ds[i], read)
  }

  lemma OfKindJoins(ops: seq<Operation>, kind: Kind)
    requires ops != []
    ensures OfKind(ops, kind) == OfKind([ops[0]], kind) + OfKind(ops[1..], kind)
  {
  }

  lemma MirrorsJoin(s: Snapshot, ops: seq<Operation>, ops': seq<Operation>, ds: seq<Definition>, ds': seq<Definition>, read: Reader)
    requires AllMirror(s, ops, ds, read) && AllMirror(s, ops', ds', read)
    ensures AllMirror(s, ops + ops', ds + ds', read)
  {
  }

  lemma DefinitionMirrors(s: Snapshot, op: Operation, read: Reader)
    requires Define(s, op, read).Some?
    ensures var c := Define(s, op, read).value;
            && AllMirror(s, OfKind([op], Query), c.queries, read) && AllMirror(s, OfKind([op], Execute), c.executes, read)
            && op.kind != UnknownKind
  {
    if op.resultSchema != [] { JoinsWhatWasSplit(op.resultSchema); }
  }

  /** An accepted artifact contributes one definition per operation, kept in declared
      order within its kind, with the artifact's own key, text and schema. */
  lemma {:induction false} DefinitionsMirrorOperations(s: Snapshot, ops: seq<Operation>, read: Reader)
    requires DefineAll(s, ops, read).Some?
    ensures AllMirror(s, OfKind(ops, Query), DefineAll(s, ops, read).value.queries, read)
    ensures AllMirror(s, OfKind(ops, Execute), DefineAll(s, ops, read).value.executes, read)
    ensures OfKind(ops, UnknownKind) == []
  {
    if ops != [] {
      DefinitionsMirrorOperations(s, ops[1..], read);
      DefinitionMirrors(s, ops[0], read);
      var first, rest := Define(s, ops[0], read).value, DefineAll(s, ops[1..], read).value;
      MirrorsJoin(s, OfKind([ops[0]], Query), OfKind(ops[1..], Query), first.queries, rest.queries, read);
      MirrorsJoin(s, OfKind([ops[0]], Execute), OfKind(ops[1..], Execute), first.executes, rest.executes, read);
      OfKindJoins(ops, Query);
      OfKindJoins(ops, Execute);
    }
  }

  // ---- ordering ------------------------------------------------------------------------

  predicate KeyLess(a: Key, b: Key) {
    if a.0 != b.0 then Less(a.0, b.0)
    else if a.1 != b.1 then Less(a.1, b.1)
    else Less(a.2, b.2)
  }

  /** The comparison of the stable sort; snapshots of one key are equivalent. */
  predicate SnapshotLess(a: Snapshot, b: Snapshot) { KeyLess(a.key, b.key) }

  lemma KeyLessTotal(a: Key, b: Key)
    ensures !KeyLess(a, a) && (a == b || KeyLess(a, b) || KeyLess(b, a))
  {
    LessTotal(a.0, b.0);
    LessTotal(a.1, b.1);
    LessTotal(a.2, b.2);
  }

  lemma KeyLessTransitive(a: Key, b: Key, c: Key)
    requires KeyLess(a, b) && KeyLess(b, c)
    ensures KeyLess(a, c)
  {
    LessTotal(a.0, b.0);
    LessTotal(a.1, b.1);
    if a.0 != b.0 && b.0 != c.0 {
      LessTransitive(a.0, b.0, c.0);
    } else if a.0 == b.0 == c.0 && a.1 != b.1 && b.1 != c.1 {
      LessTransitive(a.1, b.1, c.1);
    } else if a.0 == b.0 == c.0 && a.1 == b.1 == c.1 {
      LessTransitive(a.2, b.2, c.2);
    }
  }

  lemma KeyLessIsStrictOrder()
    ensures StrictOrder(KeyLess) && WeakOrder(KeyLess)
  {
    forall a, b ensures !KeyLess(a, a) && (a == b || KeyLess(a, b) || KeyLess(b, a)) { KeyLessTotal(a, b); }
    forall a, b, c | KeyLess(a, b) && KeyLess(b, c) ensures KeyLess(a, c) { KeyLessTransitive(a, b, c); }
    StrictIsWeak(KeyLess);
  }

  lemma SnapshotLessIsWeakOrder()
    ensures WeakOrder(SnapshotLess)
    ensures forall a: Snapshot, b: Snapshot :: a.key == b.key || SnapshotLess(a, b) || SnapshotLess(b, a)
  {
    KeyLessIsStrictOrder();
    forall a, b, c | !SnapshotLess(a, b) && !SnapshotLess(b, c) ensures !SnapshotLess(a, c) {
      assert !KeyLess(a.key, b.key) && !KeyLess(b.key, c.key);
    }
  }

  // ---- loading ----------------------------------------------------------------------------

  datatype Loaded = Catalogued(catalog: Catalog) | ConflictingSnapshots | AppendFailed

  /** The loop over the ordered snapshots with its `seen` map. */
  function Fold(order: seq<Snapshot>, seen: map<Key, Snapshot>, acc: Catalog, read: Reader): Loaded {
    if order == [] then Catalogued(acc)
    else
      var s := order[0];
      if !Eligible(s) then Fold(order[1..], seen, acc, read)
      else if s.key in seen then
        if seen[s.key].manifest != s.manifest || seen[s.key].path != s.path then ConflictingSnapshots
        else Fold(order[1..], seen, acc, read)
      else
        var c := Append(s, read);
        if c.None? then AppendFailed
        else Fold(order[1..], seen[s.key := s], Plus(acc, c.value), read)
  }

  function Load(items: seq<Item>, safeMode: bool, read: Reader): Loaded {
    if safeMode then Catalogued(EMPTY) else Fold(Sort(SnapshotLess, AllSnapshots(items)), map[], EMPTY, read)
  }

  /** `loadProtocolV2DatabaseCatalog` */
  method LoadCatalog(items: seq<Item>, safeMode: bool, read: Reader) returns (result: Loaded)
    ensures result == Load(items, safeMode, read)
  {
    if safeMode { return Catalogued(EMPTY); }
    var artifacts := [];
    for i := 0 to |items|
      invariant artifacts + AllSnapshots(items[i..]) == AllSnapshots(items)
    {
      assert items[i..][0] == items[i] && items[i..][1..] == items[i + 1..];
      artifacts := artifacts + [SnapshotOf(items[i], items[i].active)];
      if items[i].staged.Some? {
        artifacts := artifacts + [SnapshotOf(items[i], items[i].staged.value)];
      }
    }
    assert items[|items|..] == [];
    assert artifacts == AllSnapshots(items);
    var ordered := Sort(SnapshotLess, artifacts);
    ghost var goal := Load(items, safeMode, read);
    assert ordered[0..] == ordered;
    var catalog := EMPTY;
    var seen: map<Key, Snapshot> := map[];
    for i := 0 to |ordered|
      invariant goal == Fold(ordered[i..], seen, catalog, read)
    {
      var s := ordered[i];
      assert ordered[i..][0] == s && ordered[i..][1..] == ordered[i + 1..];
      if !Eligible(s) { continue; }
      if s.key in seen {
        if seen[s.key].manifest != s.manifest || seen[s.key].path != s.path {
          assert Fold(ordered[i..], seen, catalog, read) == ConflictingSnapshots;
          return ConflictingSnapshots;
        }
        continue;
      }
      ghost var before := seen;
      seen := seen[s.key := s];
      var appended := Append(s, read);
      assert Fold(ordered[i..], before, catalog, read) ==
        if appended.None? then AppendFailed
        else Fold(ordered[i + 1..], seen, Plus(catalog, appended.value), read);
      if appended.None? { return AppendFailed; }
      catalog := Plus(catalog, appended.value);
    }
    assert ordered[|ordered|..] == [];
    return Catalogued(catalog);
  }

  // ---- what the catalog is ---------------------------------------------------------------------

  /** The exact artifacts that have database operations. */
  function Artifacts(s: seq<Snapshot>): set<Snapshot> { set x | x in s && Eligible(x) }

  predicate Agree(a: Snapshot, b: Snapshot) { a.key == b.key ==> a == b }

  ghost predicate Loadable(artifacts: set<Snapshot>, read: Reader) {
    && (forall a, b :: a in artifacts && b in artifacts ==> Agree(a, b))
    && (forall a :: a in artifacts ==> Append(a, read).Some?)
  }

  function AppendAll(order: seq<Snapshot>, read: Reader): Catalog {
    if order == [] then EMPTY
    else
      var c := Append(order[0], read);
      Plus(if c.Some? then c.value else EMPTY, AppendAll(order[1..], read))
  }

  /** The snapshots the loop appends: the first eligible one of every unseen key. */
  function Firsts(order: seq<Snapshot>, seen: set<Key>): seq<Snapshot> {
    if order == [] then []
    else if !Eligible(order[0]) || order[0].key in seen then Firsts(order[1..], seen)
    else [order[0]] + Firsts(order[1..], seen + {order[0].key})
  }

  lemma PlusIsMonoid(a: Catalog, b: Catalog, c: Catalog)
    ensures Plus(Plus(a, b), c) == Plus(a, Plus(b, c))
    ensures Plus(a, EMPTY) == a && Plus(EMPTY, a) == a
  {
  }

  predicate SeenOk(seen: map<Key, Snapshot>, read: Reader) {
    forall k :: k in seen ==> seen[k].key == k && Eligible(seen[k]) && Append(seen[k], read).Some?
  }

  ghost predicate AllLoadable(order: seq<Snapshot>, seen: map<Key, Snapshot>, read: Reader) {
    && (forall a :: a in order && Eligible(a) ==> Append(a, read).Some?)
    && (forall a, b :: a in order && b in order && Eligible(a) && Eligible(b) ==> Agree(a, b))
    && (forall a :: a in order && Eligible(a) && a.key in seen ==> a == seen[a.key])
  }

  /** What one more snapshot of the order adds to the condition. */
  lemma LoadableStep(s: Snapshot, rest: seq<Snapshot>, seen: map<Key, Snapshot>, read: Reader)
    requires SeenOk(seen, read)
    ensures !Eligible(s) ==> (AllLoadable([s] + rest, seen, read) <==> AllLoadable(rest, seen, read))
    ensures Eligible(s) && s.key in seen ==>
              (AllLoadable([s] + rest, seen, read) <==> AllLoadable(rest, seen, read) && s == seen[s.key])
    ensures Eligible(s) && s.key !in seen ==>
              (AllLoadable([s] + rest, seen, read) <==>
                AllLoadable(rest, seen[s.key := s], read) && Append(s, read).Some?)
  {
    var order := [s] + rest;
    assert forall a :: a in order <==> a == s || a in rest;
    var seen' := seen[s.key := s];
    if Eligible(s) && s.key !in seen {
      if AllLoadable(order, seen, read) {
        forall a | a in rest && Eligible(a) && a.key in seen' ensures a == seen'[a.key] {
          assert Agree(a, s);
        }
      }
      if AllLoadable(rest, seen', read) {
        forall a | a in order && Eligible(a) && a.key in seen ensures a == seen[a.key] {
          assert a.key in seen';
        }
        forall a, b | a in order && b in order && Eligible(a) && Eligible(b) ensures Agree(a, b) {
          assert a in rest && a.key == s.key ==> a == s;
          assert b in rest && b.key == s.key ==> b == s;
        }
      }
    }
  }

  /** The loop succeeds exactly on loadable artifacts and then appends the firsts. */
  lemma {:induction false} FoldMeaning(order: seq<Snapshot>, seen: map<Key, Snapshot>, acc: Catalog, read: Reader)
    requires SeenOk(seen, read)
    ensures Fold(order, seen, acc, read).Catalogued? <==> AllLoadable(order, seen, read)
    ensures Fold(order, seen, acc, read).Catalogued? ==>
              Fold(order, seen, acc, read).catalog == Plus(acc, AppendAll(Firsts(order, seen.Keys), read))
    decreases order, 1
  {
    if order == [] {
      PlusIsMonoid(acc, EMPTY, EMPTY);
    } else {
      var s, rest := order[0], order[1..];
      assert order == [s] + rest;
      LoadableStep(s, rest, seen, read);
      if !Eligible(s) || s.key in seen {
        FoldMeaning(rest, seen, acc, read);
      } else if Append(s, read).Some? {
        FoldNew(order, seen, acc, read);
      }
    }
  }

  lemma {:induction false} FoldNew(order: seq<Snapshot>, seen: map<Key, Snapshot>, acc: Catalog, read: Reader)
    requires SeenOk(seen, read) && order != []
    requires Eligible(order[0]) && order[0].key !in seen && Append(order[0], read).Some?
    ensures Fold(order, seen, acc, read).Catalogued? <==> AllLoadable(order[1..], seen[order[0].key := order[0]], read)
    ensures Fold(order, seen, acc, read).Catalogued? ==>
              Fold(order, seen, acc, read).catalog == Plus(acc, AppendAll(Firsts(order, seen.Keys), read))
    decreases order, 0
  {
    var s, rest := order[0], order[1..];
    var c := Append(s, read).value;
    var seen' := seen[s.key := s];
    var firsts := Firsts(rest, seen'.Keys);
    assert seen'.Keys == seen.Keys + {s.key};
    FoldMeaning(rest, seen', Plus(acc, c), read);
    PlusIsMonoid(acc, c, AppendAll(firsts, read));
    assert Firsts(order, seen.Keys) == [s] + firsts;
    assert ([s] + firsts)[1..] == firsts;
  }

  lemma {:induction false} FirstsStrict(order: seq<Snapshot>, seen: set<Key>)
    requires Sorted(SnapshotLess, order)
    ensures forall x :: x in Firsts(order, seen) ==> x in order && Eligible(x) && x.key !in seen
    ensures StrictlySorted(SnapshotLess, Firsts(order, seen))
  {
    SnapshotLessIsWeakOrder();
    if order != [] {
      if !Eligible(order[0]) || order[0].key in seen {
        FirstsStrict(order[1..], seen);
      } else {
        var rest := Firsts(order[1..], seen + {order[0].key});
        FirstsStrict(order[1..], seen + {order[0].key});
        forall x | x in rest ensures SnapshotLess(order[0], x) {
          var k :| 0 <= k < |order[1..]| && order[1..][k] == x;
          assert order[k + 1] == x;
        }
      }
    }
  }

  /** Without conflicts, every eligible artifact of an unseen key is among the firsts. */
  lemma {:induction false} FirstsCover(order: seq<Snapshot>, seen: set<Key>)
    requires forall a, b :: a in order && b in order && Eligible(a) && Eligible(b) ==> Agree(a, b)
    ensures forall x :: x in order && Eligible(x) && x.key !in seen ==> x in Firsts(order, seen)
  {
    if order != [] {
      var s, rest := order[0], order[1..];
      assert forall a :: a in rest ==> a in order;
      if !Eligible(s) || s.key in seen {
        FirstsCover(rest, seen);
      } else {
        FirstsCover(rest, seen + {s.key});
        forall x | x in order && Eligible(x) && x.key !in seen ensures x in Firsts(order, seen) {
          if x.key == s.key { assert Agree(x, s); } else { assert x in rest; }
        }
      }
    }
  }

  /** The order in which the loop appends. */
  function AppendOrder(items: seq<Item>): seq<Snapshot> { Firsts(Sort(SnapshotLess, AllSnapshots(items)), {}) }

  lemma SortedHasAll(all: seq<Snapshot>)
    ensures Sorted(SnapshotLess, Sort(SnapshotLess, all))
    ensures forall x :: x in Sort(SnapshotLess, all) <==> x in all
  {
    SnapshotLessIsWeakOrder();
    SortSorts(SnapshotLess, all);
    assert forall x :: x in all <==> x in Elements(all);
    assert forall x :: x in Sort(SnapshotLess, all) <==> x in Elements(Sort(SnapshotLess, all));
  }

  lemma LoadSucceedsIff(items: seq<Item>, read: Reader)
    ensures Load(items, false, read).Catalogued? <==> Loadable(Artifacts(AllSnapshots(items)), read)
    ensures Load(items, false, read).Catalogued? ==>
              Load(items, false, read).catalog == AppendAll(AppendOrder(items), read)
  {
    var all := AllSnapshots(items);
    var none: map<Key, Snapshot> := map[];
    assert none.Keys == {};
    SortedHasAll(all);
    FoldMeaning(Sort(SnapshotLess, all), none, EMPTY, read);
    PlusIsMonoid(AppendAll(AppendOrder(items), read), EMPTY, EMPTY);
  }

  lemma AppendOrderMeaning(items: seq<Item>, read: Reader)
    ensures StrictlySorted(SnapshotLess, AppendOrder(items))
    ensures Loadable(Artifacts(AllSnapshots(items)), read) ==>
              Elements(AppendOrder(items)) == Artifacts(AllSnapshots(items))
  {
    var all := AllSnapshots(items);
    var sorted := Sort(SnapshotLess, all);
    SortedHasAll(all);
    FirstsStrict(sorted, {});
    if Loadable(Artifacts(all), read) {
      forall a, b | a in sorted && b in sorted && Eligible(a) && Eligible(b) ensures Agree(a, b) {
        assert a in Artifacts(all) && b in Artifacts(all);
      }
      FirstsCover(sorted, {});
      assert forall x :: x in AppendOrder(items) <==> x in Artifacts(all);
    }
  }

  // ---- acceptance and content, in the manifest's own terms ---------------------------------------

  /** A reference is empty, or an id and a positive version joined by `@`. */
  ghost predicate FitsSchema(reference: string) {
    reference == [] || exists id: string, version: nat :: JoinsTo(id, version, reference)
  }

  predicate JoinsTo(id: string, version: nat, reference: string) {
    id != [] && version > 0 && reference == id + "@" + Decimal(version)
  }

  lemma FitsSchemaIff(reference: string)
    ensures SplitSchemaRef(reference).Some? <==> FitsSchema(reference)
  {
    if reference != [] {
      if SplitSchemaRef(reference).Some? {
        JoinsWhatWasSplit(reference);
        var (id, version) := SplitSchemaRef(reference).value;
        ValueDecimal(version);
        assert JoinsTo(id, Value(version), reference);
      }
      if id: string, version: nat :| JoinsTo(id, version, reference) {
        DecimalValue(version);
        SplitsAtJoint(id, Decimal(version));
      }
    }
  }

  /** An operation's file is declared as one and readable, its kind is known and its
      result schema well formed. */
  ghost predicate OperationFits(s: Snapshot, op: Operation, read: Reader) {
    && op.path in s.manifest.files && s.manifest.files[op.path] == PackageFile(true, op.digest)
    && read(s.key, s.path, op.path, op.digest).Some?
    && FitsSchema(op.resultSchema) && (op.kind == Query || op.kind == Execute)
  }

  /** What an artifact needs to be accepted. */
  ghost predicate Acceptable(s: Snapshot, read: Reader) {
    && s.manifest.valid && s.manifest.isV3 && s.manifest.ownSchema
    && s.manifest.id == s.key.0 && s.manifest.version == s.key.1 && s.manifest.isPlugin == s.isPlugin
    && forall i :: 0 <= i < |s.manifest.operations| ==> OperationFits(s, s.manifest.operations[i], read)
  }

  lemma {:induction false} DefinesIff(s: Snapshot, ops: seq<Operation>, read: Reader)
    ensures DefineAll(s, ops, read).Some? <==> forall i :: 0 <= i < |ops| ==> OperationFits(s, ops[i], read)
  {
    if ops != [] {
      DefinesIff(s, ops[1..], read);
      FitsSchemaIff(ops[0].resultSchema);
      assert Define(s, ops[0], read).Some? <==> OperationFits(s, ops[0], read);
      assert forall i :: 0 < i < |ops| ==> ops[i] == ops[1..][i - 1];
    }
  }

  lemma AppendsIff(s: Snapshot, read: Reader)
    ensures Append(s, read).Some? <==> Acceptable(s, read)
  {
    DefinesIff(s, s.manifest.operations, read);
  }

  function Flat(lists: seq<seq<Definition>>): seq<Definition> {
    if lists == [] then [] else lists[0] + Flat(lists[1..])
  }

  /** Artifact by artifact, one definition per operation of the kind, in declared order. */
  predicate ListsKind(order: seq<Snapshot>, kind: Kind, lists: seq<seq<Definition>>, read: Reader) {
    && |lists| == |order|
    && forall i :: 0 <= i < |order| ==> AllMirror(order[i], OfKind(order[i].manifest.operations, kind), lists[i], read)
  }

  /** `OfKind` keeps exactly the operations of one kind, and two kinds are all there are. */
  lemma {:induction false} OfKindMeaning(ops: seq<Operation>, kind: Kind)
    ensures forall op :: op in OfKind(ops, kind) <==> op in ops && op.kind == kind
    ensures |OfKind(ops, Query)| + |OfKind(ops, Execute)| + |OfKind(ops, UnknownKind)| == |ops|
  {
    if ops != [] {
      OfKindMeaning(ops[1..], kind);
      assert ops == [ops[0]] + ops[1..];
    }
  }

  lemma {:induction false} AppendAllContent(order: seq<Snapshot>, read: Reader)
    returns (queries: seq<seq<Definition>>, executes: seq<seq<Definition>>)
    requires forall i :: 0 <= i < |order| ==> Append(order[i], read).Some?
    ensures AppendAll(order, read) == Catalog(Flat(queries), Flat(executes))
    ensures ListsKind(order, Query, queries, read) && ListsKind(order, Execute, executes, read)
  {
    if order == [] {
      queries, executes := [], [];
    } else {
      var first := Append(order[0], read).value;
      DefinitionsMirrorOperations(order[0], order[0].manifest.operations, read);
      var qs, es := AppendAllContent(order[1..], read);
      queries, executes := [first.queries] + qs, [first.executes] + es;
      assert queries[1..] == qs && executes[1..] == es;
    }
  }

  /** `s` is the active or the staged package of some listed extension. */
  ghost predicate IsListed(items: seq<Item>, s: Snapshot) {
    exists i :: 0 <= i < |items| && (IsPackage(items[i], items[i].active, s)
                                     || (items[i].staged.Some? && IsPackage(items[i], items[i].staged.value, s)))
  }

  predicate IsPackage(item: Item, p: Package, s: Snapshot) {
    && s.key.0 == item.id && s.key.1 == p.version && s.key.2 == p.digest
    && s.isPlugin == item.isPlugin && s.manifest == p.manifest && s.path == p.path
  }

  lemma {:induction false} ListedIff(items: seq<Item>, s: Snapshot)
    ensures s in AllSnapshots(items) <==> IsListed(items, s)
  {
    if items != [] {
      ListedIff(items[1..], s);
      assert forall i :: 0 < i < |items| ==> items[i] == items[1..][i - 1];
    }
  }

  /** A listed plugin package with database operations. */
  ghost predicate IsArtifact(items: seq<Item>, s: Snapshot) {
    IsListed(items, s) && s.isPlugin && s.manifest.operations != []
  }

  lemma ArtifactIff(items: seq<Item>)
    ensures forall s :: s in Artifacts(AllSnapshots(items)) <==> IsArtifact(items, s)
  {
    forall s ensures s in Artifacts(AllSnapshots(items)) <==> IsArtifact(items, s) { ListedIff(items, s); }
  }

  /** By id, then version, then digest. */
  predicate ComesBefore(a: Key, b: Key) {
    Less(a.0, b.0) || (a.0 == b.0 && (Less(a.1, b.1) || (a.1 == b.1 && Less(a.2, b.2))))
  }

  /** Success depends on the artifacts alone: no two snapshots of one key differ and every
      artifact is acceptable. On success each exact artifact comes once, ordered by id,
      version and digest, and the catalog holds, artifact by artifact, one definition for
      each of its operations and nothing else. */
  lemma LoadMeaning(items: seq<Item>, read: Reader)
    returns (order: seq<Snapshot>, queries: seq<seq<Definition>>, executes: seq<seq<Definition>>)
    ensures forall i, j :: 0 <= i < j < |order| ==> ComesBefore(order[i].key, order[j].key)
    ensures Load(items, false, read).Catalogued? <==>
            && (forall a, b :: IsArtifact(items, a) && IsArtifact(items, b) ==> Agree(a, b))
            && (forall a :: IsArtifact(items, a) ==> Acceptable(a, read))
    ensures Load(items, false, read).Catalogued? ==>
              && (forall s :: s in order <==> IsArtifact(items, s))
              && Load(items, false, read).catalog == Catalog(Flat(queries), Flat(executes))
              && ListsKind(order, Query, queries, read) && ListsKind(order, Execute, executes, read)
  {
    order := AppendOrder(items);
    ArtifactIff(items);
    LoadSucceedsIff(items, read);
    AppendOrderMeaning(items, read);
    OrderIsByKey(order);
    forall a ensures Append(a, read).Some? <==> Acceptable(a, read) { AppendsIff(a, read); }
    queries, executes := [], [];
    if Load(items, false, read).Catalogued? {
      forall s ensures s in order <==> s in Artifacts(AllSnapshots(items)) { assert s in order <==> s in Elements(order); }
      queries, executes := AppendAllContent(order, read);
    }
  }

  lemma OrderIsByKey(order: seq<Snapshot>)
    requires StrictlySorted(SnapshotLess, order)
    ensures forall i, j :: 0 <= i < j < |order| ==> ComesBefore(order[i].key, order[j].key)
  {
    forall i, j | 0 <= i < j < |order| ensures ComesBefore(order[i].key, order[j].key) {
      assert SnapshotLess(order[i], order[j]);
    }
  }

  // ---- main results ---------------------------------------------------------------------------------

  /** The catalog is a function of the set of exact artifacts: order, repetition and
      whether a snapshot was active or staged do not matter, for success or failure and
      for the catalog itself. */
  lemma CatalogDependsOnArtifactsOnly(a: seq<Item>, b: seq<Item>, safeMode: bool, read: Reader)
    requires Artifacts(AllSnapshots(a)) == Artifacts(AllSnapshots(b))
    ensures Load(a, safeMode, read).Catalogued? <==> Load(b, safeMode, read).Catalogued?
    ensures Load(a, safeMode, read).Catalogued? ==> Load(a, safeMode, read) == Load(b, safeMode, read)
  {
    if !safeMode {
      LoadSucceedsIff(a, read);
      LoadSucceedsIff(b, read);
      AppendOrderMeaning(a, read);
      AppendOrderMeaning(b, read);
      if Load(a, false, read).Catalogued? {
        SnapshotLessIsWeakOrder();
        StrictlySortedUnique(SnapshotLess, AppendOrder(a), AppendOrder(b));
      }
    }
  }

  lemma {:induction false} SnapshotsMembership(items: seq<Item>, s: Snapshot)
    ensures s in AllSnapshots(items) <==> exists item :: item in items && s in SnapshotsOf(item)
  {
    if items != [] {
      SnapshotsMembership(items[1..], s);
      assert items == [items[0]] + items[1..];
    }
  }

  /** Any permutation of the extensions gives the same answer. */
  lemma PermutationInvariant(a: seq<Item>, b: seq<Item>, safeMode: bool, read: Reader)
    requires multiset(a) == multiset(b)
    ensures Load(a, safeMode, read).Catalogued? <==> Load(b, safeMode, read).Catalogued?
    ensures Load(a, safeMode, read).Catalogued? ==> Load(a, safeMode, read) == Load(b, safeMode, read)
  {
    forall s ensures s in AllSnapshots(a) <==> s in AllSnapshots(b) {
      SnapshotsMembership(a, s);
      SnapshotsMembership(b, s);
      assert forall item :: item in a <==> item in multiset(a);
      assert forall item :: item in b <==> item in multiset(b);
    }
    CatalogDependsOnArtifactsOnly(a, b, safeMode, read);
  }

  /** The start preparer appends the starting artifact: when its snapshots are already
      there, the published catalog is the one of the listing alone. */
  lemma StartingPresentArtifactChangesNothing(items: seq<Item>, starting: Item, read: Reader)
    requires forall s :: s in SnapshotsOf(starting) && Eligible(s) ==> s in AllSnapshots(items)
    ensures Load(items + [starting], false, read).Catalogued? <==> Load(items, false, read).Catalogued?
    ensures Load(items, false, read).Catalogued? ==>
              Load(items + [starting], false, read) == Load(items, false, read)
  {
    forall s ensures s in Artifacts(AllSnapshots(items + [starting])) <==> s in Artifacts(AllSnapshots(items)) {
      SnapshotsMembership(items + [starting], s);
      SnapshotsMembership(items, s);
    }
    CatalogDependsOnArtifactsOnly(items + [starting], items, false, read);
  }

  /** Two different snapshots of one exact artifact always fail. */
  lemma ConflictsAlwaysFail(items: seq<Item>, a: Snapshot, b: Snapshot, read: Reader)
    requires a in AllSnapshots(items) && b in AllSnapshots(items) && Eligible(a) && Eligible(b)
    requires a.key == b.key && a != b
    ensures !Load(items, false, read).Catalogued?
  {
    LoadSucceedsIff(items, read);
    assert a in Artifacts(AllSnapshots(items)) && b in Artifacts(AllSnapshots(items)) && !Agree(a, b);
  }
}
