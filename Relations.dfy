/**
 * The relation side of the find-by cache (`ActiveRecord::Relation`):
 * `one_record_with_caching` decides whether a one-record lookup may be
 * served from the class's store and, if so, reads it through the store
 * under the lookup's key; `first` and `take` go through it unless they are
 * given arguments.
 */
module Relations {
  import opened Optional
  import opened Sorting
  import opened Sequences
  import opened CacheKeys
  import opened Stores
  import opened Models

  /** The right side of an equality: a plain value, or a bind placeholder. */
  datatype Rhs = Literal(value: Value) | BindParam

  /**
   * A where-value of the relation: an equality between an attribute and a
   * right side, or any other condition (an inequality, `IN`, a SQL fragment).
   */
  datatype Condition = Equality(field: string, right: Rhs) | NonEquality

  /** A bound parameter: the column it is bound to and its value. */
  datatype Bind = Bind(column: string, value: Value)

  /** The query modifiers that rule caching out when present. */
  datatype Modifiers = Modifiers(
    offset: Option<int>,
    joins: seq<string>,
    order: seq<string>,
    reverseOrder: bool,
    includes: seq<string>,
    preload: seq<string>,
    select: seq<string>,
    group: seq<string>,
    from: Option<string>,
    lock: Option<string>)

  /** A relation about to fetch one record. */
  datatype Lookup = Lookup(wheres: seq<Condition>, binds: seq<Bind>, loaded: bool, modifiers: Modifiers)

  /**
   * `bind_values.detect { |(column, value)| column.name.to_s == field }`:
   * the value of the first bound pair whose column is `field`.
   */
  function Detect(binds: seq<Bind>, field: string): (r: Option<Value>)
    ensures r.None? <==> forall i :: 0 <= i < |binds| ==> binds[i].column != field
    ensures r.Some? ==> exists i :: 0 <= i < |binds| && binds[i].column == field && binds[i].value == r.value
                          && forall j :: 0 <= j < i ==> binds[j].column != field
  {
    if binds == [] then None
    else if binds[0].column == field then Some(binds[0].value)
    else
      var r := Detect(binds[1..], field);
      assert r.Some? ==> exists i :: 0 <= i < |binds[1..]| && binds[1..][i].column == field && binds[1..][i].value == r.value
                          && forall j :: 0 <= j < i ==> binds[1..][j].column != field;
      assert forall i :: 1 <= i < |binds| ==> binds[i] == binds[1..][i - 1];
      r
  }

  /** The attribute a condition constrains (`wv.left.name.to_s`). */
  function FieldName(c: Condition): string {
    if c.Equality? then c.field else ""
  }

  /**
   * `actual_right`: the literal right side, or for a bind placeholder the
   * value bound to the attribute, nil when none is.
   */
  function ActualRight(binds: seq<Bind>, c: Condition): Value {
    if c.Equality? && c.right.Literal? then c.right.value
    else
      match Detect(binds, FieldName(c))
      case Some(v) => v
      case None => Nil
  }

  /** `r.is_a?(String) || r.is_a?(Numeric)`. */
  predicate Simple(v: Value) {
    v.Str? || v.Num?
  }

  /** `offset_value.nil? && joins_values.blank? && ... && lock_value.nil?` */
  predicate NoModifiers(m: Modifiers) {
    && m.offset.None?
    && m.joins == []
    && m.order == []
    && !m.reverseOrder
    && m.includes == []
    && m.preload == []
    && m.select == []
    && m.group == []
    && m.from.None?
    && m.lock.None?
  }

  /** The constrained attribute names, in the order of the conditions. */
  function Fields(l: Lookup): (r: seq<string>)
    ensures |r| == |l.wheres| && forall i :: 0 <= i < |r| ==> r[i] == FieldName(l.wheres[i])
  {
    Map(l.wheres, FieldName)
  }

  /**
   * The eligibility test of `one_record_with_caching`, given the class's
   * declared sets: something was declared, the relation is not loaded, every
   * condition is an equality, the sorted attribute names are a declared set,
   * every right side resolves to a String or a number, and no modifier is
   * present.
   */
  predicate Cacheable(findBys: FindBys, l: Lookup) {
    && findBys.Some?
    && !l.loaded
    && (forall c :: c in l.wheres ==> c.Equality?)
    && SortBy(Fields(l), Identity) in findBys.value
    && (forall c :: c in l.wheres ==> Simple(ActualRight(l.binds, c)))
    && NoModifiers(l.modifiers)
  }

  /** `can_cache &&= ...`: the caller's permission and the eligibility test. */
  predicate Eligible(canCache: bool, findBys: FindBys, l: Lookup) {
    canCache && Cacheable(findBys, l)
  }

  /** `where_values.map { |wv| [wv.left.name, actual_right.call(wv)] }`. */
  function KeyPairs(l: Lookup): (r: seq<(string, Value)>)
    ensures |r| == |l.wheres|
    ensures forall i :: 0 <= i < |r| ==> r[i] == (FieldName(l.wheres[i]), ActualRight(l.binds, l.wheres[i]))
  {
    Map(l.wheres, (c: Condition) => (FieldName(c), ActualRight(l.binds, c)))
  }

  /** The key a cacheable lookup is stored under. */
  function LookupKey(table: string, l: Lookup): string {
    CacheKeyFor(table, KeyPairs(l))
  }

  // ---------------------------------------------------------------------
  // Eligibility

  /**
   * A cacheable lookup has a declaration behind it, is not loaded, has
   * equalities only, simple values only and no modifier; with no
   * declaration at all nothing is cacheable.
   */
  lemma CacheableRequirements(findBys: FindBys, l: Lookup)
    ensures !Cacheable(None, l)
    ensures Cacheable(findBys, l) ==>
      && findBys.Some?
      && !l.loaded
      && (forall c :: c in l.wheres ==> c.Equality?)
      && (forall c :: c in l.wheres ==> Simple(ActualRight(l.binds, c)))
      && NoModifiers(l.modifiers)
  {
  }

  /** A bind placeholder nothing is bound to resolves to nil and rules caching out. */
  lemma UnboundPlaceholderNotCacheable(findBys: FindBys, l: Lookup, i: nat)
    requires i < |l.wheres| && l.wheres[i].Equality? && l.wheres[i].right == BindParam
    requires forall j :: 0 <= j < |l.binds| ==> l.binds[j].column != l.wheres[i].field
    ensures ActualRight(l.binds, l.wheres[i]) == Nil
    ensures !Cacheable(findBys, l)
  {
  }

  /** A bind placeholder resolves to the value of the first pair bound to its attribute. */
  lemma PlaceholderTakesFirstBinding(binds: seq<Bind>, field: string, k: nat)
    requires k < |binds| && binds[k].column == field
    requires forall j :: 0 <= j < k ==> binds[j].column != field
    ensures ActualRight(binds, Equality(field, BindParam)) == binds[k].value
  {
    var r := Detect(binds, field);
    var i :| 0 <= i < |binds| && binds[i].column == field && binds[i].value == r.value
             && forall j :: 0 <= j < i ==> binds[j].column != field;
    assert i == k;
  }

  /**
   * When the declared sets are stored sorted, the name test of a lookup
   * that passes the other tests holds exactly when some declared set holds
   * the same names as its conditions, in whatever order.
   */
  lemma CacheableIffDeclaredSet(findBys: FindBys, l: Lookup)
    requires findBys.Some? && Normalized(findBys)
    requires !l.loaded && NoModifiers(l.modifiers)
    requires forall c :: c in l.wheres ==> c.Equality?
    requires forall c :: c in l.wheres ==> Simple(ActualRight(l.binds, c))
    ensures Cacheable(findBys, l) <==>
      exists names :: names in findBys.value && multiset(names) == multiset(Fields(l))
  {
    var sorted := SortBy(Fields(l), Identity);
    if Cacheable(findBys, l) {
      assert sorted in findBys.value && multiset(sorted) == multiset(Fields(l));
    }
    if exists names :: names in findBys.value && multiset(names) == multiset(Fields(l)) {
      var names :| names in findBys.value && multiset(names) == multiset(Fields(l));
      IdentityDistinguishes(multiset(names));
      SortedUnique(names, sorted, Identity);
    }
  }

  /** No two bound pairs are bound to the same column. */
  predicate DistinctColumns(binds: seq<Bind>) {
    forall i, j :: 0 <= i < j < |binds| ==> binds[i].column != binds[j].column
  }

  /** With one bind per column, `detect` finds the same value in any order of the binds. */
  lemma DetectIgnoresOrder(a: seq<Bind>, b: seq<Bind>, field: string)
    requires multiset(a) == multiset(b) && DistinctColumns(a)
    ensures Detect(a, field) == Detect(b, field)
  {
    var ra, rb := Detect(a, field), Detect(b, field);
    if ra.Some? {
      var i :| 0 <= i < |a| && a[i].column == field && a[i].value == ra.value
               && forall j :: 0 <= j < i ==> a[j].column != field;
      assert a[i] in multiset(b);
      var q :| 0 <= q < |b| && b[q] == a[i];
      assert rb.Some?;
      var k :| 0 <= k < |b| && b[k].column == field && b[k].value == rb.value
               && forall j :: 0 <= j < k ==> b[j].column != field;
      assert b[k] in multiset(a);
      var p :| 0 <= p < |a| && a[p] == b[k];
      assert i == p;
    } else {
      forall j | 0 <= j < |b|
        ensures b[j].column != field
      {
        assert b[j] in multiset(a);
      }
    }
  }

  /** With one bind per column, every condition resolves alike under any order of the binds. */
  lemma ActualRightIgnoresBindOrder(a: seq<Bind>, b: seq<Bind>)
    requires multiset(a) == multiset(b) && DistinctColumns(a)
    ensures forall c :: ActualRight(a, c) == ActualRight(b, c)
  {
    forall c ensures ActualRight(a, c) == ActualRight(b, c) {
      DetectIgnoresOrder(a, b, FieldName(c));
    }
  }

  /**
   * Reordering the conditions of a lookup, and with them its binds (one per
   * column), does not change whether it is cacheable.
   */
  lemma CacheableIgnoresOrder(findBys: FindBys, l: Lookup, m: Lookup)
    requires multiset(l.wheres) == multiset(m.wheres)
    requires multiset(l.binds) == multiset(m.binds) && DistinctColumns(l.binds)
    requires l.loaded == m.loaded && l.modifiers == m.modifiers
    ensures Cacheable(findBys, l) <==> Cacheable(findBys, m)
  {
    MapPermutation(l.wheres, m.wheres, FieldName);
    IdentityDistinguishes(multiset(Fields(l)));
    SortByPermutation(Fields(l), Fields(m), Identity);
    SameElements(l.wheres, m.wheres);
    ActualRightIgnoresBindOrder(l.binds, m.binds);
  }

  /**
   * Reordering the conditions of a lookup with distinct attributes, and with
   * them its binds (one per column), does not change its key.
   */
  lemma KeyIgnoresConditionOrder(table: string, l: Lookup, m: Lookup)
    requires multiset(l.wheres) == multiset(m.wheres)
    requires multiset(l.binds) == multiset(m.binds) && DistinctColumns(l.binds)
    requires DistinctNames(KeyPairs(l))
    ensures LookupKey(table, l) == LookupKey(table, m)
  {
    var pair := (c: Condition) => (FieldName(c), ActualRight(l.binds, c));
    MapPermutation(l.wheres, m.wheres, pair);
    ActualRightIgnoresBindOrder(l.binds, m.binds);
    assert KeyPairs(l) == Map(l.wheres, pair);
    assert KeyPairs(m) == Map(m.wheres, pair);
    KeyPermutationInvariant(table, KeyPairs(l), KeyPairs(m));
  }

  lemma SameElements<T>(a: seq<T>, b: seq<T>)
    requires multiset(a) == multiset(b)
    ensures forall x :: x in a <==> x in b
  {
    forall x ensures x in a <==> x in b {
      assert x in a <==> x in multiset(a);
      assert x in b <==> x in multiset(b);
    }
  }

  // ---------------------------------------------------------------------
  // Invalidation

  /**
   * A record saved or destroyed evicts every cached lookup that found it:
   * when a cacheable lookup with distinct attributes asked for the values
   * the record had before the change (equal as text), its key is one of
   * those `flush_find_cache` deletes.
   */
  lemma FlushEvictsCachedLookup(table: string, findBys: FindBys, l: Lookup, was: map<string, Value>)
    requires Cacheable(findBys, l) && Covers(findBys.value, was)
    requires DistinctNames(KeyPairs(l))
    requires forall i :: 0 <= i < |l.wheres| ==>
      FieldName(l.wheres[i]) in was && ToS(ActualRight(l.binds, l.wheres[i])) == ToS(was[FieldName(l.wheres[i])])
    ensures LookupKey(table, l) in FlushKeys(table, findBys.value, was)
  {
    var fields := Fields(l);
    var names := SortBy(fields, Identity);
    var text := (f: string) => (f, if f in was then ToS(was[f]) else "");
    MapPermutation(fields, names, text);
    assert Stringify(KeyPairs(l)) == Map(fields, text);
    assert Stringify(PriorPairs(names, was)) == Map(names, text);
    KeyIgnoresOrder(table, KeyPairs(l), PriorPairs(names, was));
    assert LookupKey(table, l) == FlushKey(table, names, was);
  }

  /** After the flush, reading that lookup through the store runs the query again. */
  lemma FlushedLookupMisses(entries: map<string, Cached>, table: string, findBys: FindBys, l: Lookup,
                            was: map<string, Value>, computed: Cached)
    requires Cacheable(findBys, l) && Covers(findBys.value, was)
    requires DistinctNames(KeyPairs(l))
    requires forall i :: 0 <= i < |l.wheres| ==>
      FieldName(l.wheres[i]) in was && ToS(ActualRight(l.binds, l.wheres[i])) == ToS(was[FieldName(l.wheres[i])])
    ensures ReadThrough(entries - FlushKeys(table, findBys.value, was), LookupKey(table, l), computed).ranBlock
  {
    FlushEvictsCachedLookup(table, findBys, l, was);
  }

  // ---------------------------------------------------------------------
  // Reading through the class's store

  /**
   * What serving a lookup did to the class and its store: an ineligible
   * lookup runs the query and leaves the class's store as it was; an
   * eligible one settles the class's store if need be (keeping the one in
   * force, else taking the Rails cache, else a new memory store) and reads
   * through it under the lookup's key.
   */
  twostate predicate Served(klass: ModelClass, l: Lookup, canCache: bool, query: Cached,
                            railsCache: Option<Store>, new record: Cached, ranQuery: bool)
    requires klass.Linked()
    reads klass.lineage, StoresReached(klass, railsCache)
  {
    if Eligible(canCache, old(klass.CacheFindBys()), l) then
      ReadThroughClassStore(klass, LookupKey(klass.tableName, l), query, railsCache, record, ranQuery)
    else
      record == query && ranQuery && klass.ownCache == old(klass.ownCache)
  }

  /**
   * `klass.finder_cache.fetch(key) { query }` as seen from the class: its
   * store is settled (the one in force is kept, else the Rails cache or a
   * new memory store is taken) and `key` is read through it.
   */
  twostate predicate ReadThroughClassStore(klass: ModelClass, key: string, query: Cached,
                                           railsCache: Option<Store>, new record: Cached, ranQuery: bool)
    requires klass.Linked()
    reads klass.lineage, StoresReached(klass, railsCache)
  {
    && Settled(klass, railsCache)
    && Fetched(record, ranQuery, klass.CurrentCache().value.entries)
       == ReadThrough(PriorEntries(klass, railsCache), key, query)
  }

  /**
   * `one_record_with_caching(can_cache) { query }`; the block's result is
   * `query` and `ranQuery` tells whether the block was run.
   */
  method OneRecordWithCaching(klass: ModelClass, l: Lookup, canCache: bool, query: Cached, railsCache: Option<Store>)
    returns (record: Cached, ranQuery: bool)
    requires klass.Linked()
    modifies klass`ownCache, StoresReached(klass, railsCache)
    ensures Served(klass, l, canCache, query, railsCache, record, ranQuery)
    ensures forall s :: s in old(StoresReached(klass, railsCache)) && Some(s) != klass.CurrentCache() ==> unchanged(s)
    ensures klass.CacheFindBys() == old(klass.CacheFindBys())
    ensures !Eligible(canCache, klass.CacheFindBys(), l) ==> unchanged(old(StoresReached(klass, railsCache)))
  {
    var findBys := klass.CacheFindBys();
    if Eligible(canCache, findBys, l) {
      record, ranQuery := CachedLookup(klass, l, canCache, query, railsCache);
    } else {
      record, ranQuery := query, true;
    }
  }

  /** The eligible case: `finder_cache.fetch(cache_key_for(...)) { query }`. */
  method CachedLookup(klass: ModelClass, l: Lookup, canCache: bool, query: Cached, railsCache: Option<Store>)
    returns (record: Cached, ranQuery: bool)
    requires klass.Linked() && Eligible(canCache, klass.CacheFindBys(), l)
    modifies klass`ownCache, StoresReached(klass, railsCache)
    ensures Served(klass, l, canCache, query, railsCache, record, ranQuery)
    ensures forall s :: s in old(StoresReached(klass, railsCache)) && Some(s) != klass.CurrentCache() ==> unchanged(s)
  {
    record, ranQuery := FetchThrough(klass, LookupKey(klass.tableName, l), query, railsCache);
  }

  /** `klass.finder_cache.fetch(cache_key) { query }`. */
  method FetchThrough(klass: ModelClass, key: string, query: Cached, railsCache: Option<Store>)
    returns (record: Cached, ranQuery: bool)
    requires klass.Linked()
    modifies klass`ownCache, StoresReached(klass, railsCache)
    ensures ReadThroughClassStore(klass, key, query, railsCache, record, ranQuery)
    ensures forall s :: s in old(StoresReached(klass, railsCache)) && Some(s) != klass.CurrentCache() ==> unchanged(s)
  {
    var store := klass.FinderCache(railsCache);
    record, ranQuery := store.Fetch(key, query);
  }

  /** `first(*args)`: arguments bypass the cache. */
  method First(klass: ModelClass, l: Lookup, args: seq<Value>, query: Cached, railsCache: Option<Store>)
    returns (record: Cached, ranQuery: bool)
    requires klass.Linked()
    modifies klass`ownCache, StoresReached(klass, railsCache)
    ensures Served(klass, l, args == [], query, railsCache, record, ranQuery)
    ensures forall s :: s in old(StoresReached(klass, railsCache)) && Some(s) != klass.CurrentCache() ==> unchanged(s)
    ensures !Eligible(args == [], klass.CacheFindBys(), l) ==> unchanged(old(StoresReached(klass, railsCache)))
    ensures args != [] ==> record == query && ranQuery
  {
    record, ranQuery := OneRecordWithCaching(klass, l, args == [], query, railsCache);
  }

  /** `take(*args)`: arguments bypass the cache. */
  method Take(klass: ModelClass, l: Lookup, args: seq<Value>, query: Cached, railsCache: Option<Store>)
    returns (record: Cached, ranQuery: bool)
    requires klass.Linked()
    modifies klass`ownCache, StoresReached(klass, railsCache)
    ensures Served(klass, l, args == [], query, railsCache, record, ranQuery)
    ensures forall s :: s in old(StoresReached(klass, railsCache)) && Some(s) != klass.CurrentCache() ==> unchanged(s)
    ensures !Eligible(args == [], klass.CacheFindBys(), l) ==> unchanged(old(StoresReached(klass, railsCache)))
    ensures args != [] ==> record == query && ranQuery
  {
    record, ranQuery := OneRecordWithCaching(klass, l, args == [], query, railsCache);
  }

  /**
   * The same eligible lookup twice: the second is answered from the store
   * with the first one's record, whatever the query would now return, and
   * without running it.
   */
  method LookupTwice(klass: ModelClass, l: Lookup, query: Cached, later: Cached, railsCache: Option<Store>)
    returns (first: Cached, second: Cached, ranSecond: bool)
    requires klass.Linked()
    requires Cacheable(klass.CacheFindBys(), l)
    modifies klass`ownCache, StoresReached(klass, railsCache)
    ensures second == first && !ranSecond
  {
    var ran;
    first, ran := First(klass, l, [], query, railsCache);
    ghost var key := LookupKey(klass.tableName, l);
    assert key in klass.CurrentCache().value.entries && klass.CurrentCache().value.entries[key] == first;
    second, ranSecond := First(klass, l, [], later, None);
  }
}
