/**
 * The class-level side of the find-by cache (`ActiveRecord::Base`): each
 * model class may declare attribute sets to cache (`cache_find_by`), has a
 * cache store that is settled on first use or set explicitly
 * (`finder_cache`, `finder_cache=`), and each record can evict itself from
 * that store (`flush_find_cache`).
 *
 * Ruby keeps `cache_find_bys` and `finder_cache` as singleton methods that
 * a class defines on itself and its subclasses inherit. Here every class
 * holds what it has defined itself, and a reading walks up to the nearest
 * ancestor that defined it.
 */
module Models {
  import opened Optional
  import opened Sorting
  import opened Sequences
  import opened CacheKeys
  import opened Stores

  /** An argument of `cache_find_by`: a Symbol, a String, or anything else. */
  datatype AttrName = Symbol(name: string) | Text(name: string) | OtherName

  /** A lifecycle hook registered on the class. */
  datatype Callback = AfterUpdateFlush | BeforeDestroyFlush

  /** The declared attribute sets: nil until a first declaration, then a set. */
  type FindBys = Option<set<seq<string>>>

  function Identity(s: string): string {
    s
  }

  /** Every declared set lists its names in ascending order. */
  ghost predicate Normalized(findBys: FindBys) {
    findBys.Some? ==> forall names :: names in findBys.value ==> SortedBy(names, Identity)
  }

  /** `name.to_s` of a Symbol or a String. */
  function NameText(n: AttrName): string {
    if n.OtherName? then "" else n.name
  }

  /** The names as `to_s` gives them; `None` when one is neither a Symbol nor a String. */
  function NameTexts(names: seq<AttrName>): (r: Option<seq<string>>)
    ensures r.Some? <==> forall i :: 0 <= i < |names| ==> !names[i].OtherName?
    ensures r.Some? ==> |r.value| == |names| && forall i :: 0 <= i < |names| ==> r.value[i] == names[i].name
  {
    if names == [] then Some([])
    else if names[0].OtherName? then None
    else
      match NameTexts(names[1..])
      case None => None
      case Some(rest) => Some([names[0].name] + rest)
  }

  /**
   * `attribute_names.map { |name| name.to_s }.sort`, which raises
   * `ArgumentError` (here `None`) at a name that is neither a Symbol nor a
   * String.
   */
  function NormalizeNames(names: seq<AttrName>): (r: Option<seq<string>>)
    ensures r.Some? <==> forall i :: 0 <= i < |names| ==> !names[i].OtherName?
    ensures r.Some? ==> SortedBy(r.value, Identity) && multiset(r.value) == multiset(NameTexts(names).value)
  {
    match NameTexts(names)
    case None => None
    case Some(texts) => Some(SortBy(texts, Identity))
  }

  lemma IdentityDistinguishes(m: multiset<string>)
    ensures KeyDistinguishes(m, Identity)
  {
  }

  lemma {:induction false} NameTextsPermutation(a: seq<AttrName>, b: seq<AttrName>)
    requires multiset(a) == multiset(b)
    requires forall i :: 0 <= i < |a| ==> !a[i].OtherName?
    ensures forall i :: 0 <= i < |b| ==> !b[i].OtherName?
    ensures multiset(NameTexts(a).value) == multiset(NameTexts(b).value)
  {
    forall i | 0 <= i < |b| ensures !b[i].OtherName? {
      assert b[i] in multiset(a);
    }
    var f := NameText;
    MapPermutation(a, b, f);
    assert NameTexts(a).value == Map(a, f);
    assert NameTexts(b).value == Map(b, f);
  }

  /** Declaring the same names in another order normalises to the same list. */
  lemma NormalizeIgnoresOrder(a: seq<AttrName>, b: seq<AttrName>)
    requires multiset(a) == multiset(b)
    ensures NormalizeNames(a) == NormalizeNames(b)
  {
    if forall i :: 0 <= i < |a| ==> !a[i].OtherName? {
      NameTextsPermutation(a, b);
      IdentityDistinguishes(multiset(NormalizeNames(a).value));
      SortedUnique(NormalizeNames(a).value, NormalizeNames(b).value, Identity);
    } else {
      var i :| 0 <= i < |a| && a[i].OtherName?;
      assert a[i] in multiset(b);
    }
  }

  /** `cache_find_bys | [find_by]`, the registry `nil` counting as empty. */
  function Registered(findBys: FindBys, findBy: seq<string>): (r: set<seq<string>>)
    ensures findBy in r
    ensures findBys.Some? ==> findBys.value <= r
    ensures forall names :: names in r ==> names == findBy || (findBys.Some? && names in findBys.value)
  {
    (if findBys.Some? then findBys.value else {}) + {findBy}
  }

  /**
   * Declaring names that are a reordering of names already declared leaves
   * the registry as it was.
   */
  lemma RedeclareUnchanged(findBys: FindBys, first: seq<AttrName>, again: seq<AttrName>)
    requires multiset(first) == multiset(again)
    requires NormalizeNames(first).Some?
    ensures NormalizeNames(again) == NormalizeNames(first)
    ensures var once := Registered(findBys, NormalizeNames(first).value);
      Registered(Some(once), NormalizeNames(again).value) == once
  {
    NormalizeIgnoresOrder(first, again);
  }

  /** A model class: its table, its superclass, and what it has defined on itself. */
  class ModelClass {
    const tableName: string
    const parent: ModelClass?
    /** This class and its superclasses. */
    ghost const lineage: set<ModelClass>
    ghost const depth: nat

    /** `cache_find_bys` as defined on this class itself, if it was. */
    var ownFindBys: FindBys
    /** `finder_cache` as defined on this class itself, if it was. */
    var ownCache: Option<Store>
    /** The hooks this class registered itself. */
    var callbacks: seq<Callback>

    ghost predicate Linked()
      decreases depth
    {
      && this in lineage
      && (parent == null ==> lineage == {this} && depth == 0)
      && (parent != null ==>
            && this !in parent.lineage
            && lineage == {this} + parent.lineage
            && parent.depth < depth
            && parent.Linked())
    }

    /** A subclass of `parent` (a root class when it is null) with nothing declared. */
    constructor (tableName: string, parent: ModelClass?)
      requires parent != null ==> parent.Linked()
      ensures Linked()
      ensures this.tableName == tableName && this.parent == parent
      ensures ownFindBys == None && ownCache == None && callbacks == []
    {
      this.tableName := tableName;
      this.parent := parent;
      if parent == null {
        lineage := {this};
        depth := 0;
      } else {
        lineage := {this} + parent.lineage;
        depth := parent.depth + 1;
      }
      ownFindBys := None;
      ownCache := None;
      callbacks := [];
    }

    /** The private `cache_find_bys`: the nearest definition up the chain, `nil` if none. */
    function CacheFindBys(): (r: FindBys)
      requires Linked()
      reads lineage`ownFindBys
      decreases depth
      ensures ownFindBys.Some? ==> r == ownFindBys
      ensures r.Some? ==> exists c :: c in lineage && c.ownFindBys == r
    {
      if ownFindBys.Some? then ownFindBys
      else if parent == null then None
      else parent.CacheFindBys()
    }

    /** The store `finder_cache` returns without settling one: the nearest definition, if any. */
    function CurrentCache(): (r: Option<Store>)
      requires Linked()
      reads lineage`ownCache
      decreases depth
      ensures ownCache.Some? ==> r == ownCache
      ensures r.Some? ==> exists c :: c in lineage && c.ownCache == r
    {
      if ownCache.Some? then ownCache
      else if parent == null then None
      else parent.CurrentCache()
    }

    /** `finder_cache=`: this class and the subclasses that define none read `store`. */
    method SetFinderCache(store: Store)
      requires Linked()
      modifies this`ownCache
      ensures ownCache == Some(store)
      ensures CurrentCache() == Some(store)
    {
      ownCache := Some(store);
    }

    /**
     * `finder_cache`: the store in force; when no class up the chain has one,
     * the Rails cache (when there is one) or a new memory store becomes this
     * class's own.
     */
    method FinderCache(railsCache: Option<Store>) returns (store: Store)
      requires Linked()
      modifies this`ownCache
      ensures CurrentCache() == Some(store)
      ensures old(CurrentCache()).Some? ==> store == old(CurrentCache()).value && ownCache == old(ownCache)
      ensures old(CurrentCache()).None? ==> ownCache == Some(store)
      ensures old(CurrentCache()).None? && railsCache.Some? ==> store == railsCache.value
      ensures old(CurrentCache()).None? && railsCache.None? ==> fresh(store) && store.entries == map[]
    {
      var current := CurrentCache();
      if current.Some? {
        store := current.value;
      } else {
        if railsCache.Some? {
          store := railsCache.value;
        } else {
          store := new Store();
        }
        SetFinderCache(store);
      }
    }

    /**
     * `cache_find_by(*attribute_names)`. On the first declaration up the
     * chain the registry becomes an empty set and the two flush hooks are
     * registered, before the names are looked at; `ok` is false where Ruby
     * raises `ArgumentError`, and then nothing else changes.
     */
    method CacheFindBy(names: seq<AttrName>) returns (ok: bool)
      requires Linked()
      modifies this`ownFindBys, this`callbacks
      ensures ok <==> NormalizeNames(names).Some?
      ensures old(CacheFindBys()).None? ==> callbacks == old(callbacks) + [AfterUpdateFlush, BeforeDestroyFlush]
      ensures old(CacheFindBys()).Some? ==> callbacks == old(callbacks)
      ensures ok ==> ownFindBys == Some(Registered(old(CacheFindBys()), NormalizeNames(names).value))
      ensures !ok && old(CacheFindBys()).None? ==> ownFindBys == Some({})
      ensures !ok && old(CacheFindBys()).Some? ==> ownFindBys == old(ownFindBys)
      ensures CacheFindBys().Some?
      ensures Normalized(old(CacheFindBys())) ==> Normalized(CacheFindBys())
    {
      var findBys := CacheFindBys();
      if findBys.None? {
        ownFindBys := Some({});
        callbacks := callbacks + [AfterUpdateFlush, BeforeDestroyFlush];
        findBys := Some({});
      }
      var findBy := NormalizeNames(names);
      ok := findBy.Some?;
      if ok {
        ownFindBys := Some(Registered(findBys, findBy.value));
      }
    }
  }

  /** The value `attribute_was(name)` of a record, from its values before the change. */
  function AttributeWas(was: map<string, Value>, name: string): Value
    requires name in was
  {
    was[name]
  }

  /** `attribute_names.map { |attr_name| [attr_name, attribute_was(attr_name)] }`. */
  function PriorPairs(names: seq<string>, was: map<string, Value>): (r: seq<(string, Value)>)
    requires forall i :: 0 <= i < |names| ==> names[i] in was
    ensures |r| == |names|
    ensures forall i :: 0 <= i < |names| ==> r[i] == (names[i], was[names[i]])
  {
    seq(|names|, i requires 0 <= i < |names| => (names[i], AttributeWas(was, names[i])))
  }

  /** Every declared name is an attribute the record has a prior value for. */
  ghost predicate Covers(findBys: set<seq<string>>, was: map<string, Value>) {
    forall names, i :: names in findBys && 0 <= i < |names| ==> names[i] in was
  }

  /** The key `flush_find_cache` deletes for one declared set: built from the prior values. */
  function FlushKey(table: string, names: seq<string>, was: map<string, Value>): string
    requires forall i :: 0 <= i < |names| ==> names[i] in was
  {
    CacheKeyFor(table, PriorPairs(names, was))
  }

  /** The keys `flush_find_cache` deletes: one per declared set. */
  ghost function FlushKeys(table: string, findBys: set<seq<string>>, was: map<string, Value>): set<string>
    requires Covers(findBys, was)
  {
    set names | names in findBys :: FlushKey(table, names, was)
  }

  /** The entries of the store `finder_cache` settles on, as they were before the call. */
  twostate function PriorEntries(klass: ModelClass, railsCache: Option<Store>): map<string, Cached>
    requires klass.Linked()
    reads {}
  {
    if old(klass.CurrentCache()).Some? then old(klass.CurrentCache().value.entries)
    else if railsCache.Some? then old(railsCache.value.entries)
    else map[]
  }

  /**
   * `klass`'s store is settled: the one in force before stays, else the
   * Rails cache was taken, else a new memory store.
   */
  twostate predicate Settled(klass: ModelClass, railsCache: Option<Store>)
    requires klass.Linked()
    reads klass.lineage
  {
    && klass.CurrentCache().Some?
    && (old(klass.CurrentCache()).Some? ==> klass.CurrentCache() == old(klass.CurrentCache()) && klass.ownCache == old(klass.ownCache))
    && (old(klass.CurrentCache()).None? && railsCache.Some? ==> klass.CurrentCache() == railsCache)
    && (old(klass.CurrentCache()).None? && railsCache.None? ==> fresh(klass.CurrentCache().value))
  }

  /** The stores a call that settles `klass`'s store may write to. */
  ghost function StoresReached(klass: ModelClass, railsCache: Option<Store>): set<object>
    requires klass.Linked()
    reads klass.lineage
  {
    (if klass.CurrentCache().Some? then {klass.CurrentCache().value} else {})
    + (if railsCache.Some? then {railsCache.value} else {})
  }

  /**
   * `flush_find_cache` on a record of `klass` whose attributes were `was`
   * before the change. `raised` is true where Ruby raises `NoMethodError`:
   * nothing was ever declared, so `cache_find_bys` is nil. Otherwise, for
   * every declared set, the key built from the prior values is deleted from
   * the store, settling it first if need be; no other key is touched.
   */
  method FlushFindCache(klass: ModelClass, was: map<string, Value>, railsCache: Option<Store>)
    returns (raised: bool)
    requires klass.Linked()
    requires klass.CacheFindBys().Some? ==> Covers(klass.CacheFindBys().value, was)
    modifies klass`ownCache, StoresReached(klass, railsCache)
    ensures raised <==> old(klass.CacheFindBys()).None?
    ensures raised || old(klass.CacheFindBys()).value == {} ==> klass.ownCache == old(klass.ownCache)
    ensures raised || old(klass.CacheFindBys()).value == {} ==> unchanged(old(StoresReached(klass, railsCache)))
    ensures !raised && old(klass.CacheFindBys()).value != {} ==> Settled(klass, railsCache)
    ensures forall s :: s in old(StoresReached(klass, railsCache)) && Some(s) != klass.CurrentCache() ==> unchanged(s)
    ensures !raised && old(klass.CacheFindBys()).value != {} ==>
      && klass.CurrentCache().Some?
      && klass.CurrentCache().value.entries
           == PriorEntries(klass, railsCache) - FlushKeys(klass.tableName, old(klass.CacheFindBys()).value, was)
  {
    var findBys := klass.CacheFindBys();
    if findBys.None? {
      return true;
    }
    raised := false;
    if findBys.value == {} {
      return;
    }
    // Ruby reads `finder_cache` once per declared set; the first reading
    // settles the store and every later one returns that same store.
    var store := klass.FinderCache(railsCache);
    DeleteKeys(store, klass.tableName, findBys.value, was);
  }

  /** The `each` loop of `flush_find_cache`: one `delete` per declared set. */
  method DeleteKeys(store: Store, table: string, findBys: set<seq<string>>, was: map<string, Value>)
    requires Covers(findBys, was)
    modifies store
    ensures store.entries == old(store.entries) - FlushKeys(table, findBys, was)
  {
    var remaining := findBys;
    ghost var deleted: set<string> := {};
    while remaining != {}
      invariant remaining <= findBys
      invariant deleted == FlushKeys(table, findBys - remaining, was)
      invariant store.entries == old(store.entries) - deleted
      decreases remaining
    {
      var names :| names in remaining;
      var key := FlushKey(table, names, was);
      var _ := store.Delete(key);
      RemoveOneMore(old(store.entries), deleted, key);
      FlushKeysAdd(table, findBys - remaining, names, was);
      assert findBys - (remaining - {names}) == (findBys - remaining) + {names};
      remaining := remaining - {names};
      deleted := deleted + {key};
    }
  }

  lemma RemoveOneMore<K, V>(m: map<K, V>, gone: set<K>, k: K)
    ensures (m - gone) - {k} == m - (gone + {k})
  {
  }

  lemma FlushKeysAdd(table: string, done: set<seq<string>>, names: seq<string>, was: map<string, Value>)
    requires Covers(done + {names}, was)
    ensures FlushKeys(table, done + {names}, was) == FlushKeys(table, done, was) + {FlushKey(table, names, was)}
  {
    FlushKeysAddWithin(table, done, names, was);
    FlushKeysAddCovers(table, done, names, was);
  }

  lemma FlushKeysAddWithin(table: string, done: set<seq<string>>, names: seq<string>, was: map<string, Value>)
    requires Covers(done + {names}, was)
    ensures FlushKeys(table, done + {names}, was) <= FlushKeys(table, done, was) + {FlushKey(table, names, was)}
  {
    forall n | n in done + {names}
      ensures FlushKey(table, n, was) in FlushKeys(table, done, was) + {FlushKey(table, names, was)}
    {
      if n != names {
        assert n in done;
      }
    }
  }

  lemma FlushKeysAddCovers(table: string, done: set<seq<string>>, names: seq<string>, was: map<string, Value>)
    requires Covers(done + {names}, was)
    ensures FlushKeys(table, done, was) + {FlushKey(table, names, was)} <= FlushKeys(table, done + {names}, was)
  {
  }
}
