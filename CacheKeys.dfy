/**
 * The cache key of a find-by lookup (`cache_key_for`): the pairs
 * (attribute, value) are stringified, sorted by attribute name and
 * flattened; `cache_find_by` and the table name go in front; every part is
 * percent-escaped and the parts are joined with `/`.
 */
module CacheKeys {
  import opened Optional
  import opened Sorting
  import opened UriEscape
  import opened Sequences

  /**
   * A Ruby value as it reaches the cache layer: a String, an Integer, nil, or
   * any other object, carried with the text its `to_s` gives.
   */
  datatype Value = Str(s: string) | Num(n: int) | Nil | Obj(text: string)

  /** The character of one decimal digit. */
  function DigitChar(d: nat): (c: char)
    requires d < 10
    ensures '0' <= c <= '9' && c as int - '0' as int == d
  {
    ('0' as int + d) as char
  }

  /** The decimal digits of a natural number, most significant first. */
  function Digits(n: nat): (r: string)
    ensures 1 <= |r| && (n >= 10 <==> |r| >= 2)
    ensures forall i :: 0 <= i < |r| ==> '0' <= r[i] <= '9'
  {
    if n < 10 then [DigitChar(n)] else Digits(n / 10) + [DigitChar(n % 10)]
  }

  /** `Integer#to_s`. */
  function Decimal(n: int): (r: string)
    ensures |r| >= 1 && (r[0] == '-' <==> n < 0)
    ensures forall i :: 0 <= i < |r| ==> Unreserved(r[i])
  {
    if n < 0 then "-" + Digits(-n) else Digits(n)
  }

  lemma {:induction false} DigitsInjective(a: nat, b: nat)
    requires Digits(a) == Digits(b)
    ensures a == b
  {
    if a >= 10 && b >= 10 {
      var da, db := Digits(a), Digits(b);
      assert da[..|da| - 1] == Digits(a / 10);
      assert db[..|db| - 1] == Digits(b / 10);
      DigitsInjective(a / 10, b / 10);
      assert DigitChar(a % 10) == da[|da| - 1] == DigitChar(b % 10);
    }
  }

  /** Distinct integers print differently. */
  lemma DecimalInjective(a: int, b: int)
    requires Decimal(a) == Decimal(b)
    ensures a == b
  {
    if a < 0 && b < 0 {
      var d := Decimal(a);
      assert d == "-" + Digits(-a) && d == "-" + Digits(-b);
      assert Digits(-a) == d[1..] == Digits(-b);
      DigitsInjective(-a, -b);
    } else if a >= 0 && b >= 0 {
      DigitsInjective(a, b);
    }
  }

  /** `to_s` of a value. */
  function ToS(v: Value): string {
    match v
    case Str(s) => s
    case Num(n) => Decimal(n)
    case Nil => ""
    case Obj(text) => text
  }

  /** `find_attributes.map { |k, v| [k.to_s, v.to_s] }`. */
  function Stringify(attrs: seq<(string, Value)>): (r: seq<(string, string)>)
    ensures |r| == |attrs|
    ensures forall i :: 0 <= i < |r| ==> r[i] == (attrs[i].0, ToS(attrs[i].1))
  {
    seq(|attrs|, i requires 0 <= i < |attrs| => (attrs[i].0, ToS(attrs[i].1)))
  }

  function FieldOf(p: (string, string)): string {
    p.0
  }

  /** `inject([], &:+)` over the pairs: name, value, name, value, ... */
  function Flatten(pairs: seq<(string, string)>): (r: seq<string>)
    ensures |r| == 2 * |pairs|
  {
    if pairs == [] then []
    else [pairs[0].0, pairs[0].1] + Flatten(pairs[1..])
  }

  /** The first part of every key. */
  const Namespace: string := "cache_find_by"

  /** The parts of the key before escaping. */
  function Parts(table: string, attrs: seq<(string, Value)>): seq<string> {
    [Namespace, table] + Flatten(SortBy(Stringify(attrs), FieldOf))
  }

  function EscapeAll(parts: seq<string>): (r: seq<string>)
    ensures |r| == |parts|
  {
    if parts == [] then [] else [Escape(parts[0])] + EscapeAll(parts[1..])
  }

  /** `Array#join('/')`. */
  function Join(parts: seq<string>): string {
    if parts == [] then ""
    else if |parts| == 1 then parts[0]
    else parts[0] + "/" + Join(parts[1..])
  }

  /** `cache_key_for(find_attributes)` of a class whose table is `table`. */
  function CacheKeyFor(table: string, attrs: seq<(string, Value)>): string {
    Join(EscapeAll(Parts(table, attrs)))
  }

  // ---------------------------------------------------------------------
  // Reading a key back

  function IndexOfSlash(t: string): (i: nat)
    requires '/' in t
    ensures i < |t| && t[i] == '/' && '/' !in t[..i]
  {
    if t[0] == '/' then 0
    else
      var j := IndexOfSlash(t[1..]);
      assert t[..j + 1] == [t[0]] + t[1..][..j];
      j + 1
  }

  /** `String#split('/', -1)`: the pieces between the slashes. */
  function Split(t: string): (parts: seq<string>)
    ensures |parts| >= 1
    decreases |t|
  {
    if '/' !in t then [t]
    else
      var i := IndexOfSlash(t);
      [t[..i]] + Split(t[i + 1..])
  }

  function UnescapeAll(parts: seq<string>): Option<seq<seq<byte>>> {
    if parts == [] then Some([])
    else
      var head := Unescape(parts[0]);
      var tail := UnescapeAll(parts[1..]);
      if head.Some? && tail.Some? then Some([head.value] + tail.value) else None
  }

  function Utf8All(parts: seq<string>): seq<seq<byte>> {
    if parts == [] then [] else [Utf8Encode(parts[0])] + Utf8All(parts[1..])
  }

  /** The partner of `CacheKeyFor`: the bytes of each part of a key. */
  function DecodeKey(key: string): Option<seq<seq<byte>>> {
    UnescapeAll(Split(key))
  }

  lemma {:induction false} SplitJoin(parts: seq<string>)
    requires |parts| >= 1
    requires forall k :: 0 <= k < |parts| ==> '/' !in parts[k]
    ensures Split(Join(parts)) == parts
  {
    if |parts| > 1 {
      var p := parts[0];
      var t := Join(parts);
      assert t == p + "/" + Join(parts[1..]);
      assert t[|p|] == '/';
      var i := IndexOfSlash(t);
      assert i == |p|;
      assert t[..i] == p;
      assert t[i + 1..] == Join(parts[1..]);
      SplitJoin(parts[1..]);
      assert parts == [p] + parts[1..];
    }
  }

  lemma {:induction false} UnescapeAllEscapeAll(parts: seq<string>)
    ensures UnescapeAll(EscapeAll(parts)) == Some(Utf8All(parts))
  {
    if parts != [] {
      UnescapeEscape(parts[0]);
      UnescapeAllEscapeAll(parts[1..]);
      assert EscapeAll(parts)[1..] == EscapeAll(parts[1..]);
    }
  }

  lemma {:induction false} EscapeAllWellEscaped(parts: seq<string>)
    ensures forall k :: 0 <= k < |parts| ==> EscapeAll(parts)[k] == Escape(parts[k])
    ensures forall k :: 0 <= k < |parts| ==> WellEscaped(EscapeAll(parts)[k])
  {
    if parts != [] {
      EscapeAllWellEscaped(parts[1..]);
      EscapeWellEscaped(parts[0]);
      assert forall k :: 1 <= k < |parts| ==> parts[k] == parts[1..][k - 1];
    }
  }

  /** A character that may appear in a key. */
  predicate KeyChar(c: char) {
    Unreserved(c) || c == '%' || c == '/'
  }

  lemma {:induction false} JoinCharacters(parts: seq<string>)
    requires forall k, i :: 0 <= k < |parts| && 0 <= i < |parts[k]| ==> KeyChar(parts[k][i])
    ensures forall i :: 0 <= i < |Join(parts)| ==> KeyChar(Join(parts)[i])
  {
    if |parts| > 1 {
      JoinCharacters(parts[1..]);
      assert forall k :: 1 <= k < |parts| ==> parts[k] == parts[1..][k - 1];
      var j := Join(parts[1..]);
      assert Join(parts) == parts[0] + "/" + j;
      forall i | 0 <= i < |Join(parts)| ensures KeyChar(Join(parts)[i]) {
        if i > |parts[0]| {
          assert Join(parts)[i] == j[i - |parts[0]| - 1];
        }
      }
    }
  }

  // ---------------------------------------------------------------------
  // What a key is

  /** The partner of `Flatten`: consecutive name, value parts paired up again. */
  function Unflatten(parts: seq<string>): seq<(string, string)>
    decreases |parts|
  {
    if |parts| < 2 then [] else [(parts[0], parts[1])] + Unflatten(parts[2..])
  }

  lemma {:induction false} UnflattenFlatten(pairs: seq<(string, string)>)
    ensures Unflatten(Flatten(pairs)) == pairs
  {
    if pairs != [] {
      UnflattenFlatten(pairs[1..]);
      assert Flatten(pairs)[2..] == Flatten(pairs[1..]);
    }
  }

  /**
   * The parts of a key: the namespace and the table, then the name and value
   * of every attribute, names ascending, the pairs being those of the input.
   */
  lemma PartsLayout(table: string, attrs: seq<(string, Value)>)
    ensures var p := Parts(table, attrs);
      && |p| == 2 + 2 * |attrs|
      && p[..2] == ["cache_find_by", table]
      && SortedBy(Unflatten(p[2..]), FieldOf)
      && multiset(Unflatten(p[2..])) == multiset(Stringify(attrs))
  {
    var sorted := SortBy(Stringify(attrs), FieldOf);
    var p := Parts(table, attrs);
    assert |sorted| == |attrs| by { assert |multiset(sorted)| == |multiset(Stringify(attrs))|; }
    assert p[2..] == Flatten(sorted);
    UnflattenFlatten(sorted);
  }

  lemma {:induction false} EscapedPartsHaveNoSlash(parts: seq<string>)
    ensures forall k :: 0 <= k < |parts| ==> '/' !in EscapeAll(parts)[k]
    ensures forall k, i :: 0 <= k < |parts| && 0 <= i < |EscapeAll(parts)[k]| ==> KeyChar(EscapeAll(parts)[k][i])
  {
    var e := EscapeAll(parts);
    EscapeAllWellEscaped(parts);
    forall k | 0 <= k < |parts|
      ensures '/' !in e[k]
      ensures forall i :: 0 <= i < |e[k]| ==> KeyChar(e[k][i])
    {
      WellEscapedCharacters(e[k]);
    }
  }

  lemma JoinedPartsDecode(parts: seq<string>)
    requires |parts| >= 1
    ensures UnescapeAll(Split(Join(EscapeAll(parts)))) == Some(Utf8All(parts))
  {
    EscapedPartsHaveNoSlash(parts);
    SplitJoin(EscapeAll(parts));
    UnescapeAllEscapeAll(parts);
  }

  /**
   * Reading a key back yields, part by part, the UTF-8 bytes of the
   * namespace, the table and the sorted names and values.
   */
  lemma KeyDecodes(table: string, attrs: seq<(string, Value)>)
    ensures DecodeKey(CacheKeyFor(table, attrs)) == Some(Utf8All(Parts(table, attrs)))
  {
    JoinedPartsDecode(Parts(table, attrs));
  }

  lemma JoinedPartsCharacters(parts: seq<string>, key: string)
    requires |parts| >= 1 && key == Join(EscapeAll(parts))
    ensures
      && (forall i :: 0 <= i < |key| ==> KeyChar(key[i]))
      && (forall piece :: piece in Split(key) ==> WellEscaped(piece))
  {
    EscapedPartsHaveNoSlash(parts);
    EscapeAllWellEscaped(parts);
    JoinCharacters(EscapeAll(parts));
    SplitJoin(EscapeAll(parts));
  }

  /**
   * Every character of a key is unreserved, a `/` or the `%` of an escape,
   * and every piece between slashes is a well-formed escaped part.
   */
  lemma KeyCharacters(table: string, attrs: seq<(string, Value)>)
    ensures var key := CacheKeyFor(table, attrs);
      && (forall i :: 0 <= i < |key| ==> KeyChar(key[i]))
      && (forall piece :: piece in Split(key) ==> WellEscaped(piece))
  {
    JoinedPartsCharacters(Parts(table, attrs), CacheKeyFor(table, attrs));
  }

  /** No two attributes share a name. */
  predicate DistinctNames<V>(attrs: seq<(string, V)>) {
    forall i, j :: 0 <= i < j < |attrs| ==> attrs[i].0 != attrs[j].0
  }

  lemma DistinctNamesDistinguish(attrs: seq<(string, Value)>)
    requires DistinctNames(attrs)
    ensures KeyDistinguishes(multiset(Stringify(attrs)), FieldOf)
  {
    var s := Stringify(attrs);
    forall x, y | x in multiset(s) && y in multiset(s) && FieldOf(x) == FieldOf(y)
      ensures x == y
    {
      var i :| 0 <= i < |s| && s[i] == x;
      var j :| 0 <= j < |s| && s[j] == y;
      assert attrs[i].0 == attrs[j].0;
    }
  }

  /**
   * The key depends only on which (name, text) pairs are given, not on their
   * order, when the names are distinct.
   */
  lemma KeyIgnoresOrder(table: string, a: seq<(string, Value)>, b: seq<(string, Value)>)
    requires DistinctNames(a)
    requires multiset(Stringify(a)) == multiset(Stringify(b))
    ensures CacheKeyFor(table, a) == CacheKeyFor(table, b)
  {
    DistinctNamesDistinguish(a);
    SortByPermutation(Stringify(a), Stringify(b), FieldOf);
  }

  lemma StringifyPermutation(a: seq<(string, Value)>, b: seq<(string, Value)>)
    requires multiset(a) == multiset(b)
    ensures multiset(Stringify(a)) == multiset(Stringify(b))
  {
    var f := (p: (string, Value)) => (p.0, ToS(p.1));
    MapPermutation(a, b, f);
    assert Stringify(a) == Map(a, f) && Stringify(b) == Map(b, f);
  }

  /** A permutation of the pairs leaves the key as it is. */
  lemma KeyPermutationInvariant(table: string, a: seq<(string, Value)>, b: seq<(string, Value)>)
    requires DistinctNames(a)
    requires multiset(a) == multiset(b)
    ensures CacheKeyFor(table, a) == CacheKeyFor(table, b)
  {
    StringifyPermutation(a, b);
    KeyIgnoresOrder(table, a, b);
  }
}
