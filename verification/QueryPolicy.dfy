/** The policy fingerprint input of a query actor: sorted, de-duplicated role and
    permission lists. */
module QueryPolicy {
  import opened Ordering

  /** `kept` is the compacted form of the first `read` elements of a sorted list. */
  predicate Compacted(kept: seq<string>, sorted: seq<string>, read: nat)
    requires 1 <= read <= |sorted|
  {
    && kept != [] && StrictlySorted(Less, kept)
    && kept[|kept| - 1] == sorted[read - 1]
    && Elements(kept) == Elements(sorted[..read])
  }

  lemma CompactEqual(kept: seq<string>, sorted: seq<string>, read: nat)
    requires 1 <= read < |sorted| && Compacted(kept, sorted, read) && sorted[read] == sorted[read - 1]
    ensures Compacted(kept, sorted, read + 1)
  {
    assert sorted[..read + 1] == sorted[..read] + [sorted[read]];
    ElementsAppend(sorted[..read], sorted[read]);
    assert sorted[read] in Elements(kept);
  }

  /** The next different element of a sorted list is above everything kept so far. */
  lemma CompactNext(kept: seq<string>, sorted: seq<string>, read: nat)
    requires StrictOrder(Less) && Sorted(Less, sorted)
    requires 1 <= read < |sorted| && Compacted(kept, sorted, read) && sorted[read] != sorted[read - 1]
    ensures Compacted(kept + [sorted[read]], sorted, read + 1)
  {
    var last := kept[|kept| - 1];
    assert Less(last, sorted[read]);
    forall i | 0 <= i < |kept| ensures Less(kept[i], sorted[read]) {
      if i < |kept| - 1 { assert Less(kept[i], last); }
    }
    assert sorted[..read + 1] == sorted[..read] + [sorted[read]];
    ElementsAppend(sorted[..read], sorted[read]);
    ElementsAppend(kept, sorted[read]);
  }

  /** The in-place compaction of a sorted array with a read and a write index. */
  method Compact(a: array<string>) returns (write: nat)
    requires Sorted(Less, a[..]) && a.Length >= 1
    modifies a
    ensures 1 <= write <= a.Length
    ensures StrictlySorted(Less, a[..write]) && Elements(a[..write]) == Elements(old(a[..]))
  {
    LessIsStrictOrder();
    ghost var sorted := a[..];
    write := 1;
    var read := 1;
    assert a[..1] == [sorted[0]] == sorted[..1];
    while read < a.Length
      invariant 1 <= write <= read <= a.Length
      invariant forall k :: read <= k < a.Length ==> a[k] == sorted[k]
      invariant Compacted(a[..write], sorted, read)
    {
      ghost var kept := a[..write];
      assert a[write - 1] == kept[write - 1];
      if a[read] == a[write - 1] {
        CompactEqual(kept, sorted, read);
      } else {
        CompactNext(kept, sorted, read);
        a[write] := a[read];
        write := write + 1;
        assert a[..write] == kept + [sorted[read]];
      }
      read := read + 1;
    }
    assert sorted[..read] == sorted;
  }

  /** `productionQuerySortedUnique`: sort a copy, then compact it in place. */
  method SortedUnique(values: seq<string>) returns (result: seq<string>)
    ensures StrictlySorted(Less, result) && Elements(result) == Elements(values)
  {
    LessIsStrictOrder();
    var sorted := Sort(Less, values);
    SortSorts(Less, values);
    if |sorted| < 2 { return sorted; }
    var a := new string[|sorted|](i requires 0 <= i < |sorted| => sorted[i]);
    assert a[..] == sorted;
    var write := Compact(a);
    result := a[..write];
  }

  // ---- the policy document --------------------------------------------------------

  datatype PolicyDocument = PolicyDocument(status: string, roles: seq<string>, permissions: seq<string>)

  function Allowed(permissions: map<string, bool>): set<string> {
    set p | p in permissions && permissions[p]
  }

  ghost predicate DocumentOf(d: PolicyDocument, status: string, roles: seq<string>, permissions: map<string, bool>) {
    && d.status == status
    && StrictlySorted(Less, d.roles) && Elements(d.roles) == Elements(roles)
    && StrictlySorted(Less, d.permissions) && Elements(d.permissions) == Allowed(permissions)
  }

  /** The policy half of `productionQueryActorProjection`; the map is walked in any order. */
  method PolicyOf(status: string, roles: seq<string>, permissions: map<string, bool>) returns (d: PolicyDocument)
    ensures DocumentOf(d, status, roles, permissions)
  {
    var allowed := [];
    var rest := permissions.Keys;
    while rest != {}
      invariant rest <= permissions.Keys
      invariant Elements(allowed) == Allowed(permissions) - rest
      decreases rest
    {
      var p :| p in rest;
      ghost var before := allowed;
      rest := rest - {p};
      if permissions[p] {
        allowed := allowed + [p];
        assert Elements(allowed) == Elements(before) + {p};
      }
    }
    var r := SortedUnique(roles);
    var a := SortedUnique(allowed);
    d := PolicyDocument(status, r, a);
  }

  /** Two actors have the same document exactly when they have the same status, the
      same set of roles and the same set of allowed permissions: order, duplicates and
      entries that are false do not count, and nothing else is identified. */
  lemma DocumentsEqualIff(
    d1: PolicyDocument, status1: string, roles1: seq<string>, permissions1: map<string, bool>,
    d2: PolicyDocument, status2: string, roles2: seq<string>, permissions2: map<string, bool>)
    requires DocumentOf(d1, status1, roles1, permissions1) && DocumentOf(d2, status2, roles2, permissions2)
    ensures d1 == d2 <==>
            && status1 == status2 && Elements(roles1) == Elements(roles2)
            && Allowed(permissions1) == Allowed(permissions2)
  {
    LessIsStrictOrder();
    if Elements(roles1) == Elements(roles2) { StrictlySortedUnique(Less, d1.roles, d2.roles); }
    if Allowed(permissions1) == Allowed(permissions2) {
      StrictlySortedUnique(Less, d1.permissions, d2.permissions);
    }
  }
}
