/** Paged erasure of plugin session state: the erase loop over the paged session listing
    and what it reaches. */
module SessionErasure {
  import opened Options
  import opened Decimals
  import opened Text

  // ---- the listing -----------------------------------------------------------------

  const ERASE_PAGE_SIZE := 100
  const LIST_PAGE_MAX := 200
  const LIST_PER_PAGE_MAX := 50

  /** What the lister's own clamps leave reachable. */
  const REACHABLE := LIST_PAGE_MAX * LIST_PER_PAGE_MAX

  function ClampPage(page: int): (r: nat)
    ensures 1 <= r <= LIST_PAGE_MAX
    ensures 1 <= page <= LIST_PAGE_MAX ==> r == page
    ensures page > LIST_PAGE_MAX ==> r == LIST_PAGE_MAX
  {
    if page < 1 then 1 else if page > LIST_PAGE_MAX then LIST_PAGE_MAX else page
  }

  function ClampPerPage(perPage: int): (r: nat)
    ensures 1 <= r <= LIST_PER_PAGE_MAX
  {
    if perPage < 1 then 20 else if perPage > LIST_PER_PAGE_MAX then LIST_PER_PAGE_MAX else perPage
  }

  function Min(a: int, b: int): int { if a < b then a else b }

  function Max(a: int, b: int): int { if a < b then b else a }

  datatype Listing = Listing(items: seq<string>, total: nat, perPage: nat)

  /** `LIMIT size OFFSET offset` over one stable order. */
  function Window(all: seq<string>, offset: nat, size: nat): seq<string> {
    if offset >= |all| then [] else all[offset..Min(offset + size, |all|)]
  }

  function PageOf(all: seq<string>, page: int, perPage: int): Listing {
    var size := ClampPerPage(perPage);
    Listing(Window(all, (ClampPage(page) - 1) * size, size), |all|, size)
  }

  class SessionLister {
    const all: seq<string>
    const fails: nat -> bool
    var pages: nat
    var failed: bool

    constructor (all: seq<string>, fails: nat -> bool)
      ensures this.all == all && this.fails == fails && pages == 0 && !failed
    {
      this.all, this.fails, pages, failed := all, fails, 0, false;
    }

    method ListUserSessions(page: int, perPage: int) returns (r: Option<Listing>)
      modifies this
      ensures pages == old(pages) + 1 && failed == fails(old(pages))
      ensures r == if failed then None else Some(PageOf(all, page, perPage))
    {
      failed := fails(pages);
      pages := pages + 1;
      r := if failed then None else Some(PageOf(all, page, perPage));
    }
  }

  class Invalidator {
    const answer: nat -> Option<nat>
    var calls: seq<string>
    var removed: nat
    var failed: bool

    constructor (answer: nat -> Option<nat>)
      ensures this.answer == answer && calls == [] && removed == 0 && !failed
    {
      this.answer := answer;
      calls, removed, failed := [], 0, false;
    }

    method InvalidateSession(sid: string) returns (r: Option<nat>)
      modifies this
      ensures calls == old(calls) + [sid] && r == answer(|old(calls)|) && failed == r.None?
      ensures removed == old(removed) + if r.Some? then r.value else 0
    {
      r := answer(|calls|);
      calls := calls + [sid];
      failed := r.None?;
      if r.Some? { removed := removed + r.value; }
    }
  }

  // ---- ids ----------------------------------------------------------------------------

  const MAX_ID := 0x7FFF_FFFF_FFFF_FFFF

  predicate IsUserId(digits: string) {
    digits != [] && AllDigits(digits) && 0 < Value(digits) <= MAX_ID
  }

  /** A user id the parser accepts: positive, decimal, with or without a plus sign, within
      64 bits. */
  predicate ValidUser(userId: string) {
    var s := Trim(userId);
    IsUserId(if s != [] && s[0] == '+' then s[1..] else s)
  }

  /** It is some white space, an optional plus sign, digits of a positive 64-bit value and
      white space again. */
  lemma ValidUserMeaning(userId: string)
    ensures ValidUser(userId) <==> exists sign: string, digits: string ::
              Trim(userId) == sign + digits && (sign == "" || sign == "+")
              && digits != [] && AllDigits(digits) && 1 <= Value(digits) <= 0x7FFF_FFFF_FFFF_FFFF
  {
    var s := Trim(userId);
    if ValidUser(userId) {
      SignSplits(s);
      var sign: string, digits: string :| s == sign + digits && (sign == "" || sign == "+") && IsUserId(digits);
      assert Trim(userId) == sign + digits;
    }
    if sign: string, digits: string :| s == sign + digits && (sign == "" || sign == "+") && IsUserId(digits) {
      if sign == "" { assert s == digits; } else { assert s[1..] == digits; }
    }
  }

  lemma SignSplits(s: string)
    requires IsUserId(if s != [] && s[0] == '+' then s[1..] else s)
    ensures exists sign: string, digits: string :: s == sign + digits && (sign == "" || sign == "+") && IsUserId(digits)
  {
    if s[0] == '+' {
      assert s == "+" + s[1..];
    } else {
      assert s == "" + s;
    }
  }

  /** The distinct non-blank ids of the first `n` sessions, in first-occurrence order. */
  function Distinct(all: seq<string>, n: nat): seq<string>
    requires n <= |all|
  {
    if n == 0 then []
    else
      var front, sid := Distinct(all, n - 1), Trim(all[n - 1]);
      if sid == [] || sid in front then front else front + [sid]
  }

  predicate NamedBefore(all: seq<string>, n: nat, sid: string)
    requires n <= |all|
  {
    exists i :: 0 <= i < n && Trim(all[i]) == sid
  }

  /** `Distinct` names every non-blank id exactly once. */
  lemma {:induction false} DistinctMeaning(all: seq<string>, n: nat)
    requires n <= |all|
    ensures forall sid :: sid in Distinct(all, n) <==> sid != [] && NamedBefore(all, n, sid)
    ensures forall i, j :: 0 <= i < j < |Distinct(all, n)| ==> Distinct(all, n)[i] != Distinct(all, n)[j]
  {
    if n > 0 {
      DistinctMeaning(all, n - 1);
      forall sid ensures NamedBefore(all, n, sid) <==> NamedBefore(all, n - 1, sid) || Trim(all[n - 1]) == sid {
      }
    }
  }

  lemma DistinctCovers(all: seq<string>, n: nat, k: nat)
    requires k < n <= |all|
    ensures Trim(all[k]) == [] || Trim(all[k]) in Distinct(all, n)
  {
    DistinctMeaning(all, n);
    assert NamedBefore(all, n, Trim(all[k]));
  }

  lemma {:induction false} DistinctExtends(all: seq<string>, n: nat, m: nat) returns (more: seq<string>)
    requires n <= m <= |all|
    ensures Distinct(all, m) == Distinct(all, n) + more
    decreases m
  {
    if n == m {
      more := [];
    } else {
      more := DistinctExtends(all, n, m - 1);
      var sid := Trim(all[m - 1]);
      if sid != [] && sid !in Distinct(all, m - 1) { more := more + [sid]; }
    }
  }

  lemma DistinctMonotone(all: seq<string>, n: nat, m: nat)
    requires n <= m <= |all|
    ensures Distinct(all, n) <= Distinct(all, m)
  {
    var more := DistinctExtends(all, n, m);
  }

  // ---- the erase loop ----------------------------------------------------------------------

  datatype EraseResult = EraseResult(erased: bool, failure: bool, removed: nat, sessions: nat)

  const FAILED := EraseResult(false, true, 0, 0)

  /** The ids the loop can get to see. */
  function Reached(all: seq<string>): seq<string> { Distinct(all, Min(|all|, REACHABLE)) }

  /** How much of the listing the first `pages` pages show. */
  function Covered(all: seq<string>, pages: nat): nat {
    Min(|all|, Min(pages, LIST_PAGE_MAX) * LIST_PER_PAGE_MAX)
  }

  /** Where the page that the lister shows for `page` starts. */
  function Offset(page: nat): nat { (ClampPage(page) - 1) * LIST_PER_PAGE_MAX }

  function Shown(all: seq<string>, page: nat): seq<string> { Window(all, Offset(page), LIST_PER_PAGE_MAX) }

  lemma ErasePageIsShown(all: seq<string>, page: nat)
    ensures PageOf(all, page, ERASE_PAGE_SIZE) == Listing(Shown(all, page), |all|, LIST_PER_PAGE_MAX)
  {
    assert ClampPerPage(ERASE_PAGE_SIZE) == LIST_PER_PAGE_MAX;
  }

  /** What a page shows starts no later than what was covered and ends the cover. */
  lemma PageReach(all: seq<string>, page: nat)
    requires page >= 1
    ensures var items := Shown(all, page);
            && (items != [] ==> Offset(page) <= Covered(all, page - 1) && Covered(all, page) == Max(Covered(all, page - 1), Offset(page) + |items|))
            && (items == [] ==> Covered(all, page) == Covered(all, page - 1))
            && forall i :: 0 <= i < |items| ==> Offset(page) + i < |all| && items[i] == all[Offset(page) + i]
  {
  }

  /** After the first `reach` sessions: their distinct ids were called, in order. */
  predicate Tally(all: seq<string>, reach: nat, calls: seq<string>, seen: set<string>) {
    && reach <= |all| && reach <= REACHABLE
    && calls == Distinct(all, reach) && calls <= Reached(all)
    && seen == set x | x in calls
  }

  /** A session seen for the first time extends the tally by its id, if that is new. */
  lemma TallyNext(all: seq<string>, k: nat, calls: seq<string>, seen: set<string>)
    requires Tally(all, k, calls, seen) && k < |all| && k < REACHABLE
    ensures var sid := Trim(all[k]);
            if sid == [] || sid in seen then Tally(all, k + 1, calls, seen)
            else Tally(all, k + 1, calls + [sid], seen + {sid})
  {
    var sid := Trim(all[k]);
    DistinctMonotone(all, k + 1, Min(|all|, REACHABLE));
    assert seen + {sid} == set x | x in calls + [sid];
  }

  /** What one more session, old or new, means. */
  lemma TallyStep(all: seq<string>, reach: nat, k: nat, calls: seq<string>, seen: set<string>)
    requires Tally(all, reach, calls, seen) && k <= reach && k < |all| && k < REACHABLE
    ensures var sid, next := Trim(all[k]), Max(reach, k + 1);
            if sid == [] || sid in seen then Tally(all, next, calls, seen)
            else Tally(all, next, calls + [sid], seen + {sid})
  {
    if k < reach {
      DistinctCovers(all, reach, k);
    } else {
      TallyNext(all, k, calls, seen);
    }
  }

  /** How much is covered after `i` sessions of a page. */
  ghost function ReachAt(all: seq<string>, page: nat, i: nat): nat
    requires page >= 1
  {
    if i == 0 then Covered(all, page - 1) else Max(Covered(all, page - 1), Offset(page) + i)
  }

  lemma ReachNext(all: seq<string>, page: nat, i: nat)
    requires page >= 1 && i < |Shown(all, page)|
    ensures var k := Offset(page) + i;
            && k < |all| && k < REACHABLE && Shown(all, page)[i] == all[k]
            && k <= ReachAt(all, page, i) && ReachAt(all, page, i + 1) == Max(ReachAt(all, page, i), k + 1)
  {
    PageReach(all, page);
  }

  lemma PageStep(all: seq<string>, page: nat, i: nat, calls: seq<string>, seen: set<string>)
    requires page >= 1 && i < |Shown(all, page)|
    requires Tally(all, ReachAt(all, page, i), calls, seen)
    ensures var sid, next := Trim(Shown(all, page)[i]), ReachAt(all, page, i + 1);
            if sid == [] || sid in seen then Tally(all, next, calls, seen)
            else Tally(all, next, calls + [sid], seen + {sid})
  {
    ReachNext(all, page, i);
    TallyStep(all, ReachAt(all, page, i), Offset(page) + i, calls, seen);
  }

  /** One page: every id of it that was not seen before is invalidated once. */
  method ErasePage(items: seq<string>, ghost all: seq<string>, ghost page: nat, invalidator: Invalidator, already: set<string>)
    returns (ok: bool, seen: set<string>, erased: nat)
    requires page >= 1 && items == Shown(all, page)
    requires !invalidator.failed && Tally(all, Covered(all, page - 1), invalidator.calls, already)
    modifies invalidator
    ensures ok == !invalidator.failed
    ensures ok ==> Tally(all, Covered(all, page), invalidator.calls, seen)
    ensures ok ==> invalidator.removed == old(invalidator.removed) + erased
    ensures invalidator.calls <= Reached(all)
  {
    seen, erased := already, 0;
    PageReach(all, page);
    for i := 0 to |items|
      invariant !invalidator.failed && Tally(all, ReachAt(all, page, i), invalidator.calls, seen)
      invariant invalidator.removed == old(invalidator.removed) + erased
    {
      PageStep(all, page, i, invalidator.calls, seen);
      var sid := Trim(items[i]);
      if sid == [] || sid in seen { continue; }
      seen := seen + {sid};
      var removed := invalidator.InvalidateSession(sid);
      if removed.None? { return false, seen, erased; }
      erased := erased + removed.value;
    }
    return true, seen, erased;
  }

  /** The paging loop of `erase`, for a wired eraser and an accepted user id. */
  method ErasePages(lister: SessionLister, invalidator: Invalidator) returns (result: EraseResult)
    requires lister.pages == 0 && !lister.failed
    requires invalidator.calls == [] && invalidator.removed == 0 && !invalidator.failed
    modifies lister, invalidator
    ensures result.failure == !result.erased
    ensures result.erased <==> !lister.failed && !invalidator.failed
    ensures invalidator.calls <= Reached(lister.all)
    ensures result.erased ==> Erased(lister, invalidator, result)
  {
    var erased := 0;
    var seen: set<string> := {};
    var page := 1;
    while true
      invariant page >= 1 && lister.pages == page - 1 && !lister.failed && !invalidator.failed
      invariant page == 1 || (page - 1) * LIST_PER_PAGE_MAX < |lister.all|
      invariant Tally(lister.all, Covered(lister.all, page - 1), invalidator.calls, seen)
      invariant erased == invalidator.removed
      decreases |lister.all| - (page - 1) * LIST_PER_PAGE_MAX
    {
      var listing := lister.ListUserSessions(page, ERASE_PAGE_SIZE);
      if listing.None? { return FAILED; }
      ErasePageIsShown(lister.all, page);
      var ok, seenNow, removed := ErasePage(listing.value.items, lister.all, page, invalidator, seen);
      if !ok { return FAILED; }
      seen, erased := seenNow, erased + removed;
      if listing.value.items == [] || page * listing.value.perPage >= listing.value.total || listing.value.perPage <= 0 {
        PageReach(lister.all, page);
        break;
      }
      page := page + 1;
    }
    SeenCount(lister.all, Covered(lister.all, page), invalidator.calls, seen);
    assert Covered(lister.all, page) == Min(|lister.all|, REACHABLE);
    result := EraseResult(true, false, erased, |seen|);
  }

  /** What a reported success means: every reached id was invalidated exactly once, the
      counts are exact, and no page too many was read. */
  ghost predicate Erased(lister: SessionLister, invalidator: Invalidator, result: EraseResult)
    reads lister, invalidator
  {
    && invalidator.calls == Reached(lister.all)
    && result.sessions == |invalidator.calls| && result.removed == invalidator.removed
    && lister.pages >= 1
    && (lister.pages > 1 ==> LIST_PER_PAGE_MAX * (lister.pages - 1) < |lister.all|)
    && |lister.all| <= LIST_PER_PAGE_MAX * lister.pages
  }

  /** `pluginSessionStateEraser.erase`: success is reported exactly when the eraser is
      wired, the user id is accepted and every listing and invalidation succeeded. */
  method Erase(userId: string, lister: SessionLister?, invalidator: Invalidator?) returns (result: EraseResult)
    requires lister != null ==> lister.pages == 0 && !lister.failed
    requires invalidator != null ==> invalidator.calls == [] && invalidator.removed == 0 && !invalidator.failed
    modifies lister, invalidator
    ensures result.failure == !result.erased
    ensures result.erased <==>
              && lister != null && invalidator != null && ValidUser(userId)
              && !lister.failed && !invalidator.failed
    ensures invalidator != null && (lister == null || !ValidUser(userId)) ==> invalidator.calls == []
    ensures lister != null && invalidator != null ==> invalidator.calls <= Reached(lister.all)
    ensures result.erased ==> Erased(lister, invalidator, result)
  {
    if lister == null || invalidator == null || !ValidUser(userId) { return FAILED; }
    result := ErasePages(lister, invalidator);
  }

  lemma {:induction false} CountDistinct(s: seq<string>)
    requires forall i, j :: 0 <= i < j < |s| ==> s[i] != s[j]
    ensures |set x | x in s| == |s|
  {
    if s != [] {
      var front, last := s[..|s| - 1], s[|s| - 1];
      CountDistinct(front);
      assert (set x | x in s) == (set x | x in front) + {last};
      assert last !in front;
    }
  }

  lemma SeenCount(all: seq<string>, reach: nat, calls: seq<string>, seen: set<string>)
    requires Tally(all, reach, calls, seen)
    ensures |seen| == |calls|
  {
    DistinctMeaning(all, reach);
    CountDistinct(calls);
  }

  // ---- what is reached ------------------------------------------------------------------------

  /** Session ids as the store keeps them: non-blank and distinct. */
  predicate ProperIds(all: seq<string>) {
    && (forall i :: 0 <= i < |all| ==> Trim(all[i]) != [])
    && (forall i, j :: 0 <= i < j < |all| ==> Trim(all[i]) != Trim(all[j]))
  }

  ghost predicate Complete(all: seq<string>) {
    forall i :: 0 <= i < |all| ==> Trim(all[i]) == [] || Trim(all[i]) in Reached(all)
  }

  /** A successful erasure reached every session exactly when the listing fits into the
      pages the lister can show; a longer one reports success and leaves the rest. */
  lemma ErasureIsCompleteIff(all: seq<string>)
    ensures |all| <= 10_000 ==> Complete(all)
    ensures ProperIds(all) ==> (Complete(all) <==> |all| <= 10_000)
    ensures ProperIds(all) ==> |Reached(all)| == Min(|all|, 10_000)
  {
    var n := Min(|all|, REACHABLE);
    DistinctMeaning(all, n);
    forall i | 0 <= i < n ensures Trim(all[i]) == [] || Trim(all[i]) in Reached(all) {
      DistinctCovers(all, n, i);
    }
    if ProperIds(all) {
      ProperCount(all, n);
      if |all| > REACHABLE {
        assert Trim(all[n]) !in Reached(all);
      }
    }
  }

  lemma {:induction false} ProperCount(all: seq<string>, n: nat)
    requires ProperIds(all) && n <= |all|
    ensures |Distinct(all, n)| == n
  {
    if n > 0 {
      ProperCount(all, n - 1);
      DistinctMeaning(all, n - 1);
    }
  }

  /** `n` different ids: a, aa, aaa, ... */
  function UnaryIds(n: nat): (ids: seq<string>)
    ensures |ids| == n && forall i :: 0 <= i < n ==> ids[i] == Unary(i + 1)
  {
    if n == 0 then [] else UnaryIds(n - 1) + [Unary(n)]
  }

  function Unary(n: nat): (s: string)
    ensures |s| == n && forall i :: 0 <= i < n ==> s[i] == 'a'
  {
    if n == 0 then [] else Unary(n - 1) + ['a']
  }

  lemma UnaryIdsAreProper(n: nat)
    ensures ProperIds(UnaryIds(n))
  {
    forall i | 0 <= i < n ensures Trim(UnaryIds(n)[i]) == UnaryIds(n)[i] != [] {
      assert UnaryIds(n)[i] == Unary(i + 1);
    }
    forall i, j | 0 <= i < j < n ensures Trim(UnaryIds(n)[i]) != Trim(UnaryIds(n)[j]) {
      assert |UnaryIds(n)[i]| == i + 1 && |UnaryIds(n)[j]| == j + 1;
    }
  }

  /** A user with 10,001 sessions: a successful erasure leaves one of them alone. */
  lemma OneSessionTooMany() returns (all: seq<string>)
    ensures |all| == REACHABLE + 1 && ProperIds(all) && !Complete(all)
    ensures Trim(all[REACHABLE]) !in Reached(all)
  {
    all := UnaryIds(REACHABLE + 1);
    UnaryIdsAreProper(REACHABLE + 1);
    ErasureIsCompleteIff(all);
    DistinctMeaning(all, REACHABLE);
  }
}
