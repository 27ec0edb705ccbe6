/** Strict total orders, sorting, and the uniqueness of strictly sorted sequences. */
module Ordering {

  ghost predicate StrictOrder<T(!new)>(less: (T, T) -> bool) {
    && (forall a :: !less(a, a))
    && (forall a, b, c :: less(a, b) && less(b, c) ==> less(a, c))
    && (forall a, b :: a == b || less(a, b) || less(b, a))
  }

  /** An order in which different elements may be equivalent. */
  ghost predicate WeakOrder<T(!new)>(less: (T, T) -> bool) {
    && (forall a :: !less(a, a))
    && (forall a, b, c :: less(a, b) && less(b, c) ==> less(a, c))
    && (forall a, b, c :: !less(a, b) && !less(b, c) ==> !less(a, c))
  }

  lemma StrictIsWeak<T(!new)>(less: (T, T) -> bool)
    requires StrictOrder(less)
    ensures WeakOrder(less)
  {
    forall a, b, c | !less(a, b) && !less(b, c) ensures !less(a, c) {
      assert a == b || less(b, a);
      assert b == c || less(c, b);
      assert a == c || less(c, a);
    }
  }

  predicate StrictlySorted<T>(less: (T, T) -> bool, s: seq<T>) {
    forall i, j :: 0 <= i < j < |s| ==> less(s[i], s[j])
  }

  predicate Sorted<T>(less: (T, T) -> bool, s: seq<T>) {
    forall i, j :: 0 <= i < j < |s| ==> !less(s[j], s[i])
  }

  function Elements<T>(s: seq<T>): set<T> { set x | x in s }

  lemma ElementsAppend<T>(s: seq<T>, x: T)
    ensures Elements(s + [x]) == Elements(s) + {x}
  {
  }

  /** Inserts before the first element that is not smaller: equal elements keep the
      order they had. */
  function Insert<T>(less: (T, T) -> bool, x: T, s: seq<T>): seq<T> {
    if s == [] then [x]
    else if less(s[0], x) then [s[0]] + Insert(less, x, s[1..])
    else [x] + s
  }

  /** A stable sort. */
  function Sort<T>(less: (T, T) -> bool, s: seq<T>): seq<T> {
    if s == [] then [] else Insert(less, s[0], Sort(less, s[1..]))
  }

  lemma {:induction false} InsertPermutes<T>(less: (T, T) -> bool, x: T, s: seq<T>)
    ensures multiset(Insert(less, x, s)) == multiset(s) + multiset{x}
    ensures forall y :: y in Insert(less, x, s) <==> y == x || y in s
  {
    if s != [] {
      assert s == [s[0]] + s[1..];
      InsertPermutes(less, x, s[1..]);
    }
  }

  lemma {:induction false} InsertSorted<T(!new)>(less: (T, T) -> bool, x: T, s: seq<T>)
    requires WeakOrder(less) && Sorted(less, s)
    ensures Sorted(less, Insert(less, x, s))
  {
    if s != [] {
      if less(s[0], x) {
        InsertSorted(less, x, s[1..]);
        InsertPermutes(less, x, s[1..]);
        var r := Insert(less, x, s[1..]);
        forall y | y in r ensures !less(y, s[0]) {
          if y != x {
            var k :| 0 <= k < |s[1..]| && s[1..][k] == y;
            assert y == s[k + 1];
          }
        }
      } else {
        forall y | y in s ensures !less(y, x) {
          var k :| 0 <= k < |s| && s[k] == y;
          assert k == 0 || !less(s[k], s[0]);
        }
      }
    }
  }

  lemma {:induction false} SortPermutes<T>(less: (T, T) -> bool, s: seq<T>)
    ensures multiset(Sort(less, s)) == multiset(s)
  {
    if s != [] {
      SortPermutes(less, s[1..]);
      InsertPermutes(less, s[0], Sort(less, s[1..]));
      SplitHead(s);
    }
  }

  lemma {:induction false} SortSorted<T(!new)>(less: (T, T) -> bool, s: seq<T>)
    requires WeakOrder(less)
    ensures Sorted(less, Sort(less, s))
  {
    if s != [] {
      SortSorted(less, s[1..]);
      InsertSorted(less, s[0], Sort(less, s[1..]));
    }
  }

  lemma SameMultiset<T>(a: seq<T>, b: seq<T>)
    requires multiset(a) == multiset(b)
    ensures |a| == |b| && Elements(a) == Elements(b)
  {
    assert |a| == |multiset(a)| == |multiset(b)| == |b|;
    forall x ensures x in a <==> x in b {
      assert x in a <==> x in multiset(a);
      assert x in b <==> x in multiset(b);
    }
  }

  lemma SortSorts<T(!new)>(less: (T, T) -> bool, s: seq<T>)
    requires WeakOrder(less)
    ensures Sorted(less, Sort(less, s)) && multiset(Sort(less, s)) == multiset(s)
    ensures |Sort(less, s)| == |s| && Elements(Sort(less, s)) == Elements(s)
  {
    SortSorted(less, s);
    SortPermutes(less, s);
    SameMultiset(Sort(less, s), s);
  }

  lemma SplitHead<T>(a: seq<T>)
    requires a != []
    ensures multiset(a) == multiset{a[0]} + multiset(a[1..])
  {
    assert a == [a[0]] + a[1..];
  }

  lemma FirstIsLeast<T(!new)>(less: (T, T) -> bool, a: seq<T>, x: T)
    requires StrictOrder(less) && Sorted(less, a) && x in a
    ensures !less(x, a[0])
  {
    var i :| 0 <= i < |a| && a[i] == x;
    assert i == 0 || !less(a[i], a[0]);
  }

  /** A multiset has at most one sorted listing. */
  lemma {:induction false} SortedUnique<T(!new)>(less: (T, T) -> bool, a: seq<T>, b: seq<T>)
    requires StrictOrder(less) && Sorted(less, a) && Sorted(less, b)
    requires multiset(a) == multiset(b)
    ensures a == b
  {
    assert |a| == |multiset(a)| == |multiset(b)| == |b|;
    if a != [] {
      assert a[0] in multiset(b) && b[0] in multiset(a);
      FirstIsLeast(less, b, a[0]);
      FirstIsLeast(less, a, b[0]);
      SplitHead(a);
      SplitHead(b);
      var least := a[0];
      assert b[0] == least;
      assert multiset(a[1..]) == multiset(a) - multiset{least} == multiset(b[1..]);
      SortedUnique(less, a[1..], b[1..]);
    }
  }

  /** Sorting forgets the order and nothing else. */
  lemma SortEqualIff<T(!new)>(less: (T, T) -> bool, a: seq<T>, b: seq<T>)
    requires StrictOrder(less)
    ensures Sort(less, a) == Sort(less, b) <==> multiset(a) == multiset(b)
  {
    StrictIsWeak(less);
    SortSorts(less, a);
    SortSorts(less, b);
    if multiset(a) == multiset(b) { SortedUnique(less, Sort(less, a), Sort(less, b)); }
  }

  /** A non-empty finite set has a least element. */
  lemma {:induction false} LeastExists<T(!new)>(less: (T, T) -> bool, keys: set<T>) returns (least: T)
    requires StrictOrder(less) && keys != {}
    ensures least in keys && forall k :: k in keys ==> !less(k, least)
    decreases |keys|
  {
    least :| least in keys;
    if keys != {least} {
      var other := LeastExists(less, keys - {least});
      if less(other, least) { least := other; }
    }
  }

  /** The strictly sorted listing of a set. */
  ghost function Listing<T(!new)>(less: (T, T) -> bool, keys: set<T>): (r: seq<T>)
    requires StrictOrder(less)
    ensures StrictlySorted(less, r) && Elements(r) == keys
    decreases |keys|
  {
    if keys == {} then []
    else
      var least := LeastOf(less, keys);
      var rest := Listing(less, keys - {least});
      assert forall k :: k in rest <==> k in Elements(rest);
      var r := [least] + rest;
      assert forall k :: k in r <==> k in keys;
      r
  }

  ghost function LeastOf<T(!new)>(less: (T, T) -> bool, keys: set<T>): (least: T)
    requires StrictOrder(less) && keys != {}
    ensures least in keys && forall k :: k in keys ==> !less(k, least)
  {
    LeastAmong(less, keys);
    var least :| least in keys && forall k :: k in keys ==> !less(k, least);
    least
  }

  lemma LeastAmong<T(!new)>(less: (T, T) -> bool, keys: set<T>)
    requires StrictOrder(less) && keys != {}
    ensures exists least :: least in keys && forall k :: k in keys ==> !less(k, least)
  {
    var least := LeastExists(less, keys);
  }

  /** A set has at most one strictly sorted listing. */
  lemma {:induction false} StrictlySortedUnique<T(!new)>(less: (T, T) -> bool, a: seq<T>, b: seq<T>)
    requires WeakOrder(less) && StrictlySorted(less, a) && StrictlySorted(less, b)
    requires Elements(a) == Elements(b)
    ensures a == b
  {
    assert forall x :: x in a <==> x in b by {
      assert forall x :: (x in a <==> x in Elements(a)) && (x in b <==> x in Elements(b));
    }
    assert a != [] ==> a[0] in b;
    assert b != [] ==> b[0] in a;
    if a != [] && b != [] {
      assert a[0] == b[0];
      Tails(less, a);
      Tails(less, b);
      StrictlySortedUnique(less, a[1..], b[1..]);
      assert a == [a[0]] + a[1..] && b == [b[0]] + b[1..];
    }
  }

  lemma Tails<T(!new)>(less: (T, T) -> bool, a: seq<T>)
    requires WeakOrder(less) && StrictlySorted(less, a) && a != []
    ensures StrictlySorted(less, a[1..]) && Elements(a[1..]) == Elements(a) - {a[0]}
  {
    forall x ensures x in a[1..] <==> x in a && x != a[0] {
      if x in a && x != a[0] {
        var k :| 0 <= k < |a| && a[k] == x;
        assert a[1..][k - 1] == x;
      }
    }
  }

  /** Go's order on strings: byte by byte, a proper prefix first. */
  predicate Less(a: string, b: string) {
    if a == [] then b != []
    else if b == [] then false
    else a[0] < b[0] || (a[0] == b[0] && Less(a[1..], b[1..]))
  }

  lemma {:induction false} LessTransitive(a: string, b: string, c: string)
    requires Less(a, b) && Less(b, c)
    ensures Less(a, c)
  {
    if a != [] && a[0] == b[0] && b[0] == c[0] {
      LessTransitive(a[1..], b[1..], c[1..]);
    }
  }

  lemma {:induction false} LessTotal(a: string, b: string)
    ensures !Less(a, a)
    ensures a == b || Less(a, b) || Less(b, a)
    decreases a
  {
    if a != [] {
      LessTotal(a[1..], if b == [] then [] else b[1..]);
      if b != [] && a[0] == b[0] && a[1..] == b[1..] {
        assert a == [a[0]] + a[1..] && b == [b[0]] + b[1..];
      }
    }
  }

  lemma LessIsStrictOrder()
    ensures StrictOrder(Less) && WeakOrder(Less)
  {
    forall a, b ensures !Less(a, a) && (a == b || Less(a, b) || Less(b, a)) { LessTotal(a, b); }
    forall a, b, c | Less(a, b) && Less(b, c) ensures Less(a, c) { LessTransitive(a, b, c); }
    StrictIsWeak(Less);
  }

  /** `a` and `b` share their first `k` characters and differ right after: `a` ends there
      or has the smaller character. */
  predicate LessAt(a: string, b: string, k: nat) {
    && k <= |a| && k < |b| && a[..k] == b[..k]
    && (k == |a| || a[k] < b[k])
  }

  lemma {:induction false} LessMeaning(a: string, b: string)
    ensures Less(a, b) <==> exists k: nat :: LessAt(a, b, k)
  {
    if a == [] || b == [] {
      if a == [] && b != [] { assert LessAt(a, b, 0); }
    } else if a[0] == b[0] {
      var a', b' := a[1..], b[1..];
      LessMeaning(a', b');
      if k: nat :| LessAt(a', b', k) {
        assert a[..k + 1] == [a[0]] + a'[..k] && b[..k + 1] == [b[0]] + b'[..k];
        assert LessAt(a, b, k + 1);
      }
      if k: nat :| LessAt(a, b, k) {
        assert k > 0;
        assert a'[..k - 1] == a[..k][1..] && b'[..k - 1] == b[..k][1..];
        assert LessAt(a', b', k - 1);
      }
    } else {
      if a[0] < b[0] { assert LessAt(a, b, 0); }
      if k: nat :| LessAt(a, b, k) {
        assert k > 0 ==> a[..k][0] == b[..k][0];
      }
    }
  }
}
