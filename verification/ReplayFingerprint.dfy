/** Replay fingerprints of required-idempotency routes: the canonical document, the
    legacy document it may still be compared with, and the compatibility test. Hashing
    and JSON are injective, so documents stand for their fingerprints. */
module ReplayFingerprint {
  import opened Options
  import opened Ordering
  import opened QueryString

  const SCHEMA := "sforum.required-route-fingerprint@2"

  datatype Request = Request(method_: string, path: string, query: Text, contentTypes: seq<string>, body: Text)

  datatype Binding = Binding(planDigest: string, baseDigest: string)

  /** A media type in its normal form, or None when it cannot be parsed. */
  type MediaParser = string -> Option<string>

  datatype Document = Document(
    schema: string, method_: string, path: string, query: Text, contentType: string, body: Text,
    planDigest: string, baseDigest: string)

  datatype LegacyDocument = LegacyDocument(
    method_: string, path: string, query: Text, contentType: string, body: Text)

  datatype Fingerprints = Fingerprints(current: Document, legacy: LegacyDocument, planDigest: string)

  // ---- query forms -----------------------------------------------------------------

  /** `canonicalRouteReplayQuery` */
  ghost function CanonicalQuery(raw: Text): Option<Text> {
    var m := Parse(raw);
    if m.None? then None else Some(Encode(m.value))
  }

  function SortedLists(m: Values): Values { map k | k in m :: Sort(TextLess, m[k]) }

  /** `canonicalLegacyRouteReplayQuery` */
  ghost function LegacyQuery(raw: Text): Option<Text> {
    var m := Parse(raw);
    if m.None? then None else Some(Encode(SortedLists(m.value)))
  }

  /** The loop of the legacy form that sorts every value list in place. */
  method SortEachList(values: Values) returns (sorted: Values)
    ensures sorted == SortedLists(values)
    ensures sorted.Keys == values.Keys
    ensures forall k :: k in values ==> Sorted(TextLess, sorted[k]) && multiset(sorted[k]) == multiset(values[k])
  {
    TextLessIsStrictOrder();
    StrictIsWeak(TextLess);
    sorted := values;
    var remaining := values.Keys;
    while remaining != {}
      invariant remaining <= values.Keys == sorted.Keys
      invariant forall k :: k in values ==>
                  sorted[k] == if k in remaining then values[k] else Sort(TextLess, values[k])
      decreases |remaining|
    {
      var key :| key in remaining;
      sorted := sorted[key := Sort(TextLess, sorted[key])];
      remaining := remaining - {key};
    }
    forall k | k in values ensures Sorted(TextLess, sorted[k]) && multiset(sorted[k]) == multiset(values[k]) {
      SortSorts(TextLess, values[k]);
    }
  }

  lemma ParsedHasNoEmptyList(raw: Text)
    requires Parse(raw).Some?
    ensures NoEmptyList(Parse(raw).value) && NoEmptyList(SortedLists(Parse(raw).value))
  {
    var m := Parse(raw).value;
    GroupHasNoEmptyList(ParsePairs(raw).value);
    forall k | k in m ensures SortedLists(m)[k] != [] {
      SortPermutes(TextLess, m[k]);
      SameMultiset(m[k], Sort(TextLess, m[k]));
    }
  }

  /** Canonical queries are equal iff the parsed value lists are. */
  lemma {:induction false} CanonicalEqualIff(a: Text, b: Text)
    requires Parse(a).Some? && Parse(b).Some?
    ensures CanonicalQuery(a) == CanonicalQuery(b) <==> Parse(a) == Parse(b)
  {
    ParsedHasNoEmptyList(a);
    ParsedHasNoEmptyList(b);
    EncodeRoundTrip(Parse(a).value);
    EncodeRoundTrip(Parse(b).value);
  }

  /** The canonical query means the same as the query it came from, and is its own
      canonical form. */
  lemma {:induction false} CanonicalIsFaithful(raw: Text)
    requires Parse(raw).Some?
    ensures Parse(CanonicalQuery(raw).value) == Parse(raw)
    ensures CanonicalQuery(CanonicalQuery(raw).value) == CanonicalQuery(raw)
  {
    ParsedHasNoEmptyList(raw);
    EncodeRoundTrip(Parse(raw).value);
  }

  ghost predicate SameBags(a: Values, b: Values) {
    a.Keys == b.Keys && forall k :: k in a ==> multiset(a[k]) == multiset(b[k])
  }

  lemma SortedListsEqualIff(a: Values, b: Values)
    ensures SortedLists(a) == SortedLists(b) <==> SameBags(a, b)
  {
    TextLessIsStrictOrder();
    assert SortedLists(a).Keys == a.Keys && SortedLists(b).Keys == b.Keys;
    forall k | k in a && k in b
      ensures SortedLists(a)[k] == SortedLists(b)[k] <==> multiset(a[k]) == multiset(b[k])
    {
      SortEqualIff(TextLess, a[k], b[k]);
    }
    if SortedLists(a) == SortedLists(b) {
      forall k | k in a ensures multiset(a[k]) == multiset(b[k]) {
        assert k in b;
        assert SortedLists(a)[k] == SortedLists(b)[k];
      }
    }
  }

  /** Legacy queries are equal iff every key has the same values in any order. */
  lemma {:induction false} LegacyEqualIff(a: Text, b: Text)
    requires Parse(a).Some? && Parse(b).Some?
    ensures LegacyQuery(a) == LegacyQuery(b) <==> SameBags(Parse(a).value, Parse(b).value)
  {
    ParsedHasNoEmptyList(a);
    ParsedHasNoEmptyList(b);
    EncodeRoundTrip(SortedLists(Parse(a).value));
    EncodeRoundTrip(SortedLists(Parse(b).value));
    SortedListsEqualIff(Parse(a).value, Parse(b).value);
  }

  // ---- the compatibility test --------------------------------------------------------

  ghost predicate LegacyCompatible(chainLength: nat, raw: Text) {
    chainLength == 1 && Parse(raw).Some? && forall k :: k in Parse(raw).value ==> |Parse(raw).value[k]| <= 1
  }

  /** `routeReplayLegacyFingerprintCompatible` */
  method IsLegacyCompatible(chainLength: nat, raw: Text) returns (ok: bool)
    ensures ok <==> LegacyCompatible(chainLength, raw)
  {
    if chainLength != 1 { return false; }
    var parsed := Parse(raw);
    if parsed.None? { return false; }
    var values := parsed.value;
    var remaining := values.Keys;
    while remaining != {}
      invariant remaining <= values.Keys
      invariant forall k :: k in values && k !in remaining ==> |values[k]| <= 1
      decreases |remaining|
    {
      var key :| key in remaining;
      if |values[key]| > 1 { return false; }
      remaining := remaining - {key};
    }
    return true;
  }

  predicate Constant(values: seq<Text>) { forall i, j :: 0 <= i < j < |values| ==> values[i] == values[j] }

  lemma ConstantBag(a: seq<Text>, b: seq<Text>)
    requires Constant(a) && multiset(a) == multiset(b)
    ensures a == b
  {
    SameMultiset(a, b);
    forall i | 0 <= i < |a| ensures a[i] == b[i] {
      assert b[i] in multiset(a);
      var j :| 0 <= j < |a| && a[j] == b[i];
      assert a[i] == a[j];
    }
  }

  ghost predicate AllConstant(m: Values) { forall k :: k in m ==> Constant(m[k]) }

  function Swapped(values: seq<Text>, i: nat, j: nat): seq<Text>
    requires i < j < |values|
  {
    values[i := values[j]][j := values[i]]
  }

  lemma SwapKeepsBag(values: seq<Text>, i: nat, j: nat)
    requires i < j < |values| && values[i] != values[j]
    ensures multiset(Swapped(values, i, j)) == multiset(values)
    ensures Swapped(values, i, j) != values && Swapped(values, i, j) != []
  {
    assert Swapped(values, i, j)[i] != values[i];
  }

  /** `other` has the same legacy form as `raw` and another meaning. */
  ghost predicate Mistaken(other: Text, raw: Text) {
    Parse(other).Some? && LegacyQuery(other) == LegacyQuery(raw) && CanonicalQuery(other) != CanonicalQuery(raw)
  }

  ghost predicate Ambiguous(raw: Text) { exists other :: Mistaken(other, raw) }

  lemma OtherBagsAreMistaken(raw: Text, m: Values)
    requires Parse(raw).Some? && NoEmptyList(m) && m != Parse(raw).value && SameBags(m, Parse(raw).value)
    ensures Ambiguous(raw)
  {
    var other := Encode(m);
    EncodeRoundTrip(m);
    LegacyEqualIff(other, raw);
    CanonicalEqualIff(other, raw);
    assert Mistaken(other, raw);
  }

  lemma SwapIsAmbiguous(raw: Text, k: Text, i: nat, j: nat)
    requires Parse(raw).Some? && k in Parse(raw).value && i < j < |Parse(raw).value[k]|
    requires Parse(raw).value[k][i] != Parse(raw).value[k][j]
    ensures Ambiguous(raw)
  {
    var m := Parse(raw).value;
    var values := m[k];
    SwapKeepsBag(values, i, j);
    ParsedHasNoEmptyList(raw);
    var m' := m[k := Swapped(values, i, j)];
    assert m'[k] != m[k];
    OtherBagsAreMistaken(raw, m');
  }

  /** A legacy form pins down its query iff no key carries two different values; the
      compatibility test admits only such queries. */
  lemma {:induction false} LegacyPinsQueryIff(raw: Text)
    requires Parse(raw).Some?
    ensures !Ambiguous(raw) <==> AllConstant(Parse(raw).value)
    ensures LegacyCompatible(1, raw) ==> !Ambiguous(raw)
  {
    var m := Parse(raw).value;
    if AllConstant(m) {
      forall other | Parse(other).Some? && LegacyQuery(other) == LegacyQuery(raw) ensures !Mistaken(other, raw) {
        ConstantIsPinned(raw, other);
      }
    } else {
      var k :| k in m && !Constant(m[k]);
      var i, j :| 0 <= i < j < |m[k]| && m[k][i] != m[k][j];
      SwapIsAmbiguous(raw, k, i, j);
    }
  }

  lemma {:induction false} ConstantIsPinned(raw: Text, other: Text)
    requires Parse(raw).Some? && Parse(other).Some? && AllConstant(Parse(raw).value)
    requires LegacyQuery(other) == LegacyQuery(raw)
    ensures !Mistaken(other, raw)
  {
    var m, n := Parse(raw).value, Parse(other).value;
    LegacyEqualIff(other, raw);
    forall k | k in m ensures m[k] == n[k] { ConstantBag(m[k], n[k]); }
    assert m == n;
  }

  // ---- documents -------------------------------------------------------------------------

  /** `canonicalRouteReplayContentType` */
  function CanonicalContentType(values: seq<string>, parse: MediaParser): Option<string> {
    if values == [] then Some("") else if |values| != 1 then None else parse(values[0])
  }

  /** `routeReplayFingerprints`; `binding` is None when the plan has no replay binding. */
  ghost function FingerprintsOf(request: Request, binding: Option<Binding>, parse: MediaParser): Option<Fingerprints> {
    var query := CanonicalQuery(request.query);
    var contentType := CanonicalContentType(request.contentTypes, parse);
    var legacyQuery := LegacyQuery(request.query);
    if query.None? || contentType.None? || binding.None? || legacyQuery.None? then None
    else Some(Fingerprints(
      Document(SCHEMA, request.method_, request.path, query.value, contentType.value, request.body,
               binding.value.planDigest, binding.value.baseDigest),
      LegacyDocument(request.method_, request.path, legacyQuery.value, contentType.value, request.body),
      binding.value.planDigest))
  }

  /** The header values mean the media type `t`: none at all, or a single one of it. */
  predicate MeansType(values: seq<string>, t: string, parse: MediaParser) {
    (values == [] && t == "") || (|values| == 1 && parse(values[0]) == Some(t))
  }

  ghost predicate SameType(a: seq<string>, b: seq<string>, parse: MediaParser) {
    exists t :: MeansType(a, t, parse) && MeansType(b, t, parse)
  }

  /** What two requests must share to be the same replay. */
  ghost predicate SameReplay(a: Request, b: Request, parse: MediaParser) {
    && a.method_ == b.method_ && a.path == b.path && a.body == b.body
    && Parse(a.query) == Parse(b.query) && SameType(a.contentTypes, b.contentTypes, parse)
  }

  lemma ContentTypeMeaning(values: seq<string>, parse: MediaParser)
    ensures forall t :: CanonicalContentType(values, parse) == Some(t) <==> MeansType(values, t, parse)
  {
  }

  lemma SameTypeIff(a: seq<string>, b: seq<string>, parse: MediaParser)
    requires CanonicalContentType(a, parse).Some? && CanonicalContentType(b, parse).Some?
    ensures SameType(a, b, parse) <==> CanonicalContentType(a, parse) == CanonicalContentType(b, parse)
  {
    ContentTypeMeaning(a, parse);
    ContentTypeMeaning(b, parse);
    var t := CanonicalContentType(a, parse).value;
    assert MeansType(a, t, parse);
    if t' :| MeansType(a, t', parse) && MeansType(b, t', parse) {
      assert CanonicalContentType(a, parse) == Some(t') && CanonicalContentType(b, parse) == Some(t');
    }
  }

  /** A request has fingerprints exactly if its query parses, it names at most one media
      type, a well-formed one, and the plan can be bound; the plan digest is the binding's. */
  lemma {:induction false} FingerprintedIff(request: Request, binding: Option<Binding>, parse: MediaParser)
    ensures FingerprintsOf(request, binding, parse).Some? <==>
            Parse(request.query).Some? && binding.Some? && exists t :: MeansType(request.contentTypes, t, parse)
    ensures FingerprintsOf(request, binding, parse).Some? ==>
              FingerprintsOf(request, binding, parse).value.planDigest == binding.value.planDigest
  {
    ContentTypeMeaning(request.contentTypes, parse);
    if CanonicalContentType(request.contentTypes, parse).Some? {
      assert MeansType(request.contentTypes, CanonicalContentType(request.contentTypes, parse).value, parse);
    }
  }

  /** Equal legacy documents mean equal method, path, body and media type, and a query
      with the same values of every key in any order. */
  lemma {:induction false} LegacyFingerprintEqualIff(a: Request, bindA: Option<Binding>, b: Request, bindB: Option<Binding>, parse: MediaParser)
    requires FingerprintsOf(a, bindA, parse).Some? && FingerprintsOf(b, bindB, parse).Some?
    ensures FingerprintsOf(a, bindA, parse).value.legacy == FingerprintsOf(b, bindB, parse).value.legacy <==>
            && a.method_ == b.method_ && a.path == b.path && a.body == b.body
            && SameBags(Parse(a.query).value, Parse(b.query).value)
            && SameType(a.contentTypes, b.contentTypes, parse)
  {
    LegacyEqualIff(a.query, b.query);
    SameTypeIff(a.contentTypes, b.contentTypes, parse);
  }

  /** Equal fingerprints mean the same request under the same plan, and nothing else. */
  lemma {:induction false} FingerprintEqualIff(a: Request, bindA: Option<Binding>, b: Request, bindB: Option<Binding>, parse: MediaParser)
    requires FingerprintsOf(a, bindA, parse).Some? && FingerprintsOf(b, bindB, parse).Some?
    ensures FingerprintsOf(a, bindA, parse).value.current == FingerprintsOf(b, bindB, parse).value.current
        <==> SameReplay(a, b, parse) && bindA == bindB
  {
    CanonicalEqualIff(a.query, b.query);
    SameTypeIff(a.contentTypes, b.contentTypes, parse);
  }

  /** When the new request passes the compatibility test, a stored legacy fingerprint
      matches only if the stored request was the same one. */
  lemma {:induction false} CompatibleLegacyIsExact(
    incoming: Request, bindFresh: Option<Binding>, stored: Request, bindStored: Option<Binding>,
    chainLength: nat, parse: MediaParser)
    requires FingerprintsOf(incoming, bindFresh, parse).Some? && FingerprintsOf(stored, bindStored, parse).Some?
    requires LegacyCompatible(chainLength, incoming.query)
    requires FingerprintsOf(incoming, bindFresh, parse).value.legacy == FingerprintsOf(stored, bindStored, parse).value.legacy
    ensures SameReplay(incoming, stored, parse)
    ensures CanonicalQuery(incoming.query) == CanonicalQuery(stored.query)
  {
    LegacyPinsQueryIff(incoming.query);
    assert !Mistaken(stored.query, incoming.query);
    SameTypeIff(incoming.contentTypes, stored.contentTypes, parse);
    CanonicalEqualIff(stored.query, incoming.query);
  }

  /** Without the test a legacy match proves nothing about order: for every query with
      two different values of one key another request has the same legacy document and
      a different fingerprint. */
  lemma {:induction false} IncompatibleLegacyMayMislead(request: Request, binding: Option<Binding>, parse: MediaParser) returns (other: Request)
    requires FingerprintsOf(request, binding, parse).Some? && !AllConstant(Parse(request.query).value)
    ensures FingerprintsOf(other, binding, parse).Some?
    ensures FingerprintsOf(other, binding, parse).value.legacy == FingerprintsOf(request, binding, parse).value.legacy
    ensures FingerprintsOf(other, binding, parse).value.current != FingerprintsOf(request, binding, parse).value.current
  {
    LegacyPinsQueryIff(request.query);
    var query :| Mistaken(query, request.query);
    other := request.(query := query);
  }
}
