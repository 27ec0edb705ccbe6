/** Query strings: percent escaping, parsing into ordered value lists per key, and the
    encoding of such lists with sorted keys. */
module QueryString {
  import opened Options
  import opened Ordering

  type Byte = c: char | c as int < 256 witness 'a'
  type Text = seq<Byte>
  type Pair = (Text, Text)
  type Values = map<Text, seq<Text>>

  predicate TextLess(a: Text, b: Text) { Less(a, b) }

  lemma TextLessIsStrictOrder()
    ensures StrictOrder(TextLess)
  {
    LessIsStrictOrder();
  }

  // ---- escaping --------------------------------------------------------------------

  predicate Unreserved(c: Byte) {
    'a' <= c <= 'z' || 'A' <= c <= 'Z' || '0' <= c <= '9' || c == '-' || c == '_' || c == '.' || c == '~'
  }

  function HexDigit(n: nat): Byte
    requires n < 16
  {
    if n < 10 then '0' + n as char else 'A' + (n - 10) as char
  }

  function HexValue(c: Byte): Option<nat> {
    if '0' <= c <= '9' then Some(c as nat - '0' as nat)
    else if 'a' <= c <= 'f' then Some(c as nat - 'a' as nat + 10)
    else if 'A' <= c <= 'F' then Some(c as nat - 'A' as nat + 10)
    else None
  }

  function EscapeByte(c: Byte): Text {
    if c == ' ' then ['+']
    else if Unreserved(c) then [c]
    else ['%', HexDigit(c as int / 16), HexDigit(c as int % 16)]
  }

  function Escape(s: Text): Text {
    if s == [] then [] else EscapeByte(s[0]) + Escape(s[1..])
  }

  function FromHex(high: Byte, low: Byte): Option<Byte> {
    var h, l := HexValue(high), HexValue(low);
    if h.None? || l.None? || h.value >= 16 || l.value >= 16 then None
    else Some((16 * h.value + l.value) as char)
  }

  function Unescape(s: Text): Option<Text> {
    if s == [] then Some([])
    else if s[0] == '%' then
      if |s| < 3 then None
      else
        var c, rest := FromHex(s[1], s[2]), Unescape(s[3..]);
        if c.None? || rest.None? then None else Some([c.value] + rest.value)
    else
      var rest := Unescape(s[1..]);
      if rest.None? then None else Some([if s[0] == '+' then ' ' else s[0]] + rest.value)
  }

  lemma HexRoundTrip(c: Byte)
    ensures FromHex(HexDigit(c as int / 16), HexDigit(c as int % 16)) == Some(c)
  {
    var h, l := c as int / 16, c as int % 16;
    assert HexValue(HexDigit(h)) == Some(h) && HexValue(HexDigit(l)) == Some(l);
  }

  predicate Plain(s: Text) { '&' !in s && '=' !in s && ';' !in s }

  /** Escaping is undone by unescaping and never produces a separator. */
  lemma {:induction false} EscapeRoundTrip(s: Text)
    ensures Unescape(Escape(s)) == Some(s)
    ensures Plain(Escape(s))
    ensures s != [] ==> Escape(s) != []
  {
    if s != [] {
      var c, e, rest := s[0], EscapeByte(s[0]), Escape(s[1..]);
      EscapeRoundTrip(s[1..]);
      HexRoundTrip(c);
      var whole := e + rest;
      assert s == [c] + s[1..];
      assert whole[|e|..] == rest;
      assert Plain(e);
      if |e| == 3 { assert whole[1] == e[1] && whole[2] == e[2]; }
    }
  }

  /** Escaping byte by byte: an unreserved byte stays, a blank is a plus, and any other is
      a percent sign with its two digits in capitals. */
  lemma EscapeIsByByte(c: Byte, rest: Text)
    ensures Escape([c] + rest) == Escape([c]) + Escape(rest)
    ensures Unreserved(c) ==> Escape([c]) == [c]
    ensures c == ' ' ==> Escape([c]) == ['+']
    ensures !Unreserved(c) && c != ' ' ==>
              Escape([c]) == ['%', "0123456789ABCDEF"[c as int / 16], "0123456789ABCDEF"[c as int % 16]]
  {
    assert ([c] + rest)[1..] == rest;
    EscapeOne(c);
  }

  lemma EscapeOne(c: Byte)
    ensures Escape([c]) == EscapeByte(c)
  {
    var none: Text := [];
    assert [c][1..] == none && Escape(none) == none;
    assert EscapeByte(c) + none == EscapeByte(c);
  }

  // ---- parsing ---------------------------------------------------------------------

  function Before(s: Text, sep: Byte): Text {
    if s == [] || s[0] == sep then [] else [s[0]] + Before(s[1..], sep)
  }

  function After(s: Text, sep: Byte): (r: Text)
    ensures |r| <= |s| && (s != [] ==> |r| < |s|)
  {
    if s == [] then [] else if s[0] == sep then s[1..] else After(s[1..], sep)
  }

  lemma {:induction false} CutAt(a: Text, sep: Byte, b: Text)
    requires sep !in a
    ensures Before(a + [sep] + b, sep) == a && After(a + [sep] + b, sep) == b
    ensures Before(a, sep) == a && After(a, sep) == []
  {
    if a == [] {
      assert a + [sep] + b == [sep] + b;
    } else {
      CutAt(a[1..], sep, b);
      assert (a + [sep] + b)[1..] == a[1..] + [sep] + b;
    }
  }

  /** The parsed pairs in their written order: a semicolon or a bad escape anywhere is an
      error, empty segments are skipped. */
  function ParsePairs(raw: Text): Option<seq<Pair>>
    decreases |raw|
  {
    if raw == [] then Some([])
    else
      var segment, rest := Before(raw, '&'), ParsePairs(After(raw, '&'));
      if rest.None? || ';' in segment then None
      else if segment == [] then rest
      else
        var k, v := Unescape(Before(segment, '=')), Unescape(After(segment, '='));
        if k.None? || v.None? then None else Some([(k.value, v.value)] + rest.value)
  }

  /** Appends every value to the list of its key. */
  function Group(pairs: seq<Pair>): Values {
    if pairs == [] then map[]
    else
      var m, last := Group(pairs[..|pairs| - 1]), pairs[|pairs| - 1];
      m[last.0 := (if last.0 in m then m[last.0] else []) + [last.1]]
  }

  function Parse(raw: Text): Option<Values> {
    var pairs := ParsePairs(raw);
    if pairs.None? then None else Some(Group(pairs.value))
  }

  /** The values of one key, in their written order. */
  function ValuesOf(key: Text, pairs: seq<Pair>): seq<Text> {
    if pairs == [] then []
    else ValuesOf(key, pairs[..|pairs| - 1]) + if pairs[|pairs| - 1].0 == key then [pairs[|pairs| - 1].1] else []
  }

  predicate NoEmptyList(m: Values) { forall k :: k in m ==> m[k] != [] }

  function Lookup(m: Values, key: Text): seq<Text> { if key in m then m[key] else [] }

  lemma {:induction false} GroupHasNoEmptyList(pairs: seq<Pair>)
    ensures NoEmptyList(Group(pairs))
  {
    if pairs != [] { GroupHasNoEmptyList(pairs[..|pairs| - 1]); }
  }

  /** Grouping keeps, for every key, exactly its values in their order. */
  lemma {:induction false} GroupMeaning(pairs: seq<Pair>, key: Text)
    ensures Lookup(Group(pairs), key) == ValuesOf(key, pairs)
  {
    if pairs != [] { GroupMeaning(pairs[..|pairs| - 1], key); }
  }

  lemma LookupDetermines(a: Values, b: Values)
    requires NoEmptyList(a) && NoEmptyList(b)
    requires forall k :: k in a || k in b ==> Lookup(a, k) == Lookup(b, k)
    ensures a == b
  {
    forall k ensures k in a <==> k in b {
      if k in a || k in b { assert Lookup(a, k) == Lookup(b, k); }
    }
    forall k | k in a ensures a[k] == b[k] { assert Lookup(a, k) == Lookup(b, k); }
  }

  ghost predicate SameValues(a: seq<Pair>, b: seq<Pair>) {
    forall k :: ValuesOf(k, a) == ValuesOf(k, b)
  }

  /** Parsed queries agree iff every key has the same values in the same order, however
      the keys are interleaved. */
  lemma GroupEqualIff(a: seq<Pair>, b: seq<Pair>)
    ensures Group(a) == Group(b) <==> SameValues(a, b)
  {
    forall k ensures Lookup(Group(a), k) == ValuesOf(k, a) && Lookup(Group(b), k) == ValuesOf(k, b) {
      GroupMeaning(a, k);
      GroupMeaning(b, k);
    }
    GroupHasNoEmptyList(a);
    GroupHasNoEmptyList(b);
    if SameValues(a, b) {
      forall k | k in Group(a) || k in Group(b) ensures Lookup(Group(a), k) == Lookup(Group(b), k) {
        assert ValuesOf(k, a) == ValuesOf(k, b);
      }
      LookupDetermines(Group(a), Group(b));
    }
  }

  // ---- the laws of parsing -------------------------------------------------------------

  /** A query is parsed segment by segment: the pairs of `a&b`, for a segment `a`, are
      those of `a` followed by those of `b`, and an error in either is an error. */
  lemma ParseIsBySegment(a: Text, b: Text)
    requires '&' !in a
    ensures var whole, first, rest := ParsePairs(a + ['&'] + b), ParsePairs(a), ParsePairs(b);
            && (whole.Some? <==> first.Some? && rest.Some?)
            && (whole.Some? ==> whole.value == first.value + rest.value)
  {
    CutAt(a, '&', b);
    assert ParsePairs([]) == Some([]);
  }

  /** A pair read from a key and a value, if both unescape. */
  function PairOf(k: Text, v: Text): Option<seq<Pair>> {
    var key, value := Unescape(k), Unescape(v);
    if ';' in k || ';' in v || key.None? || value.None? then None else Some([(key.value, value.value)])
  }

  lemma SegmentParses(s: Text)
    requires '&' !in s && s != []
    ensures ParsePairs(s) ==
            if ';' in s || Unescape(Before(s, '=')).None? || Unescape(After(s, '=')).None? then None
            else Some([(Unescape(Before(s, '=')).value, Unescape(After(s, '=')).value)])
  {
    CutAt(s, '&', []);
    var none: seq<Pair> := [];
    var rest := ParsePairs(After(s, '&'));
    assert rest == Some(none);
    var k, v := Unescape(Before(s, '=')), Unescape(After(s, '='));
    if ';' !in s && k.Some? && v.Some? {
      assert [(k.value, v.value)] + none == [(k.value, v.value)];
    }
  }

  /** A single segment: nothing when it is empty, an error when it holds a semicolon or a
      malformed escape, and otherwise one pair: what comes before the first `=`, and what
      comes after it, unescaped; without `=`, a key with an empty value. */
  lemma ParseSegment(k: Text, v: Text)
    requires '&' !in k && '&' !in v && '=' !in k
    ensures ParsePairs([]) == Some([])
    ensures ParsePairs(k + ['='] + v) == PairOf(k, v)
    ensures k != [] ==> ParsePairs(k) == PairOf(k, [])
  {
    SegmentParses(k + ['='] + v);
    CutAt(k, '=', v);
    if k != [] { SegmentParses(k); }
  }

  /** Unescaping reads a text from the left: a plus is a blank, a percent sign needs two
      hexadecimal digits and is their byte, every other byte is itself. */
  lemma {:induction false} UnescapeReadsOn(c: Byte, rest: Text)
    ensures Unescape([]) == Some([])
    ensures c != '%' ==>
              (Unescape([c] + rest).Some? <==> Unescape(rest).Some?)
              && (Unescape(rest).Some? ==> Unescape([c] + rest).value == [if c == '+' then ' ' else c] + Unescape(rest).value)
  {
    assert ([c] + rest)[1..] == rest;
  }

  /** A byte and its two hexadecimal digits, in either case. */
  lemma PercentIsAByte(high: Byte, low: Byte, rest: Text)
    ensures var s := ['%', high, low] + rest;
            && (Unescape(s).Some? <==> HexValue(high).Some? && HexValue(low).Some? && Unescape(rest).Some?)
            && (Unescape(s).Some? ==>
                  Unescape(s).value == [(16 * HexValue(high).value + HexValue(low).value) as char] + Unescape(rest).value)
    ensures Unescape(['%']).None? && Unescape(['%', high]).None?
  {
    var s := ['%', high, low] + rest;
    assert s[3..] == rest && s[1] == high && s[2] == low;
    HexIsSmall(high);
    HexIsSmall(low);
  }

  lemma HexIsSmall(c: Byte)
    ensures HexValue(c).Some? ==> HexValue(c).value < 16
  {
  }

  /** The hexadecimal digits, by their value, in either case. */
  lemma HexDigitsAre(n: nat)
    requires n < 16
    ensures HexValue("0123456789abcdef"[n]) == Some(n) && HexValue("0123456789ABCDEF"[n]) == Some(n)
  {
  }

  lemma OnlyHexDigits(c: Byte)
    requires HexValue(c).Some?
    ensures HexValue(c).value < 16
    ensures "0123456789abcdef"[HexValue(c).value] == c || "0123456789ABCDEF"[HexValue(c).value] == c
  {
  }

  // ---- encoding --------------------------------------------------------------------

  function EncodePair(p: Pair): Text { Escape(p.0) + ['='] + Escape(p.1) }

  function EncodePairs(pairs: seq<Pair>): Text {
    if pairs == [] then []
    else if |pairs| == 1 then EncodePair(pairs[0])
    else EncodePair(pairs[0]) + ['&'] + EncodePairs(pairs[1..])
  }

  lemma EncodedPairParses(p: Pair)
    ensures '&' !in EncodePair(p) && ';' !in EncodePair(p) && EncodePair(p) != []
    ensures Unescape(Before(EncodePair(p), '=')) == Some(p.0)
    ensures Unescape(After(EncodePair(p), '=')) == Some(p.1)
  {
    EscapeRoundTrip(p.0);
    EscapeRoundTrip(p.1);
    CutAt(Escape(p.0), '=', Escape(p.1));
  }

  lemma {:induction false} EncodedPairsParse(pairs: seq<Pair>)
    ensures ParsePairs(EncodePairs(pairs)) == Some(pairs)
  {
    if pairs != [] {
      var first, rest := EncodePair(pairs[0]), EncodePairs(pairs[1..]);
      EncodedPairParses(pairs[0]);
      EncodedPairsParse(pairs[1..]);
      CutAt(first, '&', rest);
      assert pairs == [pairs[0]] + pairs[1..];
      assert |pairs| == 1 ==> EncodePairs(pairs) == first;
    }
  }

  function Tag(key: Text, values: seq<Text>): seq<Pair> {
    if values == [] then [] else Tag(key, values[..|values| - 1]) + [(key, values[|values| - 1])]
  }

  function PairsOf(keys: seq<Text>, m: Values): seq<Pair>
    requires forall k :: k in keys ==> k in m
  {
    if keys == [] then [] else PairsOf(keys[..|keys| - 1], m) + Tag(keys[|keys| - 1], m[keys[|keys| - 1]])
  }

  /** Keys in sorted order, each with its values in their order. */
  ghost function Encode(m: Values): Text {
    TextLessIsStrictOrder();
    var keys := Listing(TextLess, m.Keys);
    assert forall k :: k in keys ==> k in Elements(keys);
    EncodePairs(PairsOf(keys, m))
  }

  lemma {:induction false} ValuesOfConcat(key: Text, a: seq<Pair>, b: seq<Pair>)
    ensures ValuesOf(key, a + b) == ValuesOf(key, a) + ValuesOf(key, b)
  {
    if b == [] {
      assert a + b == a;
    } else {
      var b' := b[..|b| - 1];
      ValuesOfConcat(key, a, b');
      assert (a + b)[..|a + b| - 1] == a + b';
    }
  }

  lemma ValuesOfLast(key: Text, pairs: seq<Pair>, p: Pair)
    ensures ValuesOf(key, pairs + [p]) == ValuesOf(key, pairs) + if p.0 == key then [p.1] else []
  {
    assert (pairs + [p])[..|pairs|] == pairs;
  }

  lemma {:induction false} ValuesOfTag(key: Text, tag: Text, values: seq<Text>)
    ensures ValuesOf(key, Tag(tag, values)) == if key == tag then values else []
  {
    if values == [] {
      assert Tag(tag, values) == [];
    } else {
      var values', last := values[..|values| - 1], values[|values| - 1];
      assert values == values' + [last];
      ValuesOfTag(key, tag, values');
      ValuesOfLast(key, Tag(tag, values'), (tag, last));
      assert Tag(tag, values) == Tag(tag, values') + [(tag, last)];
    }
  }

  predicate Distinct(keys: seq<Text>) { forall i, j :: 0 <= i < j < |keys| ==> keys[i] != keys[j] }

  lemma PairsOfLast(keys: seq<Text>, last: Text, m: Values)
    requires forall k :: k in keys + [last] ==> k in m
    ensures (forall k :: k in keys ==> k in m) && last in m
    ensures PairsOf(keys + [last], m) == PairsOf(keys, m) + Tag(last, m[last])
  {
    var all := keys + [last];
    assert all[|keys|] == last && all[..|keys|] == keys;
    forall k | k in keys ensures k in m { assert k in all; }
  }

  lemma {:induction false} ValuesOfPairsOf(key: Text, keys: seq<Text>, m: Values)
    requires forall k :: k in keys ==> k in m
    requires Distinct(keys)
    ensures ValuesOf(key, PairsOf(keys, m)) == if key in keys then m[key] else []
    decreases |keys|
  {
    if keys == [] {
      assert PairsOf(keys, m) == [];
    } else {
      var keys', last := keys[..|keys| - 1], keys[|keys| - 1];
      assert keys == keys' + [last];
      PairsOfLast(keys', last, m);
      ValuesOfPairsOf(key, keys', m);
      ValuesOfTag(key, last, m[last]);
      ValuesOfConcat(key, PairsOf(keys', m), Tag(last, m[last]));
      assert last !in keys';
    }
  }

  /** Parsing an encoded query gives back exactly the value lists: the encoding loses
      nothing. */
  lemma {:induction false} EncodeRoundTrip(m: Values)
    requires NoEmptyList(m)
    ensures Parse(Encode(m)) == Some(m)
  {
    TextLessIsStrictOrder();
    var keys := Listing(TextLess, m.Keys);
    assert forall k :: k in keys <==> k in Elements(keys);
    forall i, j | 0 <= i < j < |keys| ensures keys[i] != keys[j] { assert TextLess(keys[i], keys[j]); }
    var pairs := PairsOf(keys, m);
    EncodedPairsParse(pairs);
    GroupHasNoEmptyList(pairs);
    forall k ensures Lookup(Group(pairs), k) == Lookup(m, k) {
      GroupMeaning(pairs, k);
      ValuesOfPairsOf(k, keys, m);
    }
    LookupDetermines(Group(pairs), m);
  }
}
