# Find-by cache for ActiveRecord, modelled in Dafny

This project models api_hammer's find-by cache for ActiveRecord
(`lib/api_hammer/active_record_cache_find_by.rb`). The model covers these parts:

- A model class declares attribute sets with `cache_find_by`. A later `first` or `take`
  whose conditions are equalities on exactly one of those sets is served from a cache store.
- The store is the class's `finder_cache`. It is inherited, settled on first use, and
  can be set with `finder_cache=`.
- The store is read through under a key built by `cache_key_for`.
- A record that is updated or destroyed deletes, for every declared set, the key built
  from its prior attribute values (`flush_find_cache`).

The modules follow the program's structure:

- `Strings`: Ruby's string order.
- `Sorting`: `sort` and `sort_by`, and why their result is canonical.
- `Sequences`: `map` over a sequence, and mapping a permutation.
- `UriEscape`: the percent-escaping of key parts.
- `CacheKeys`: `cache_key_for`.
- `KeyExamples`: the key of the documented `users`/`email` lookup.
- `Stores`: the cache store, with `fetch` and `delete`.
- `Models`: the class side (`ActiveRecord::Base`).
- `Relations`: the relation side (`ActiveRecord::Relation`).

Two details of the code shape the model:

- A declaration is not deduplicated. `cache_find_by :a, :a` registers `["a", "a"]`:
  line 98 sorts but does not remove repeats.
- A declaration that fails still has effects. When the first declaration up the chain
  fails with `ArgumentError`, the class is still set up: it gets an empty registry and
  its two flush hooks (lines 88-93 run before line 96 raises). An empty registry is
  truthy in Ruby, so the class then counts as declared.

## Model

| member | source | states |
|---|---|---|
| Strings.Below | lib/api_hammer/active_record_cache_find_by.rb:98 | Ruby's `String#<=>` as `<`: code-point lexicographic order, a proper prefix first. A strict total order by `BelowIrreflexive`, `BelowAsymmetric`, `BelowTransitive` and `BelowTotal`. |
| Strings.AtMost | lib/api_hammer/active_record_cache_find_by.rb:98 | `<=` of that order, the comparison `sort` and `sort_by` use. A total order by `AtMostAntisymmetric`, `AtMostTransitive` and `AtMostTotal`. |
| Sorting.SortBy | lib/api_hammer/active_record_cache_find_by.rb:98 | The result is a permutation of the input, in ascending order of the key. |
| Sorting.SortedUnique | lib/api_hammer/active_record_cache_find_by.rb:114 | Two ascending arrangements of the same elements are equal when equal keys mean equal elements. So `sort_by(&:first)` over distinct names has one outcome. |
| Sorting.SortByPermutation | lib/api_hammer/active_record_cache_find_by.rb:36 | Sorting two permutations of the same elements gives the same list when the key tells elements apart. |
| UriEscape.UnescapeEscape | lib/api_hammer/active_record_cache_find_by.rb:118 | Percent-decoding an escaped part gives back exactly the UTF-8 bytes of the part. |
| UriEscape.EscapeWellEscaped | lib/api_hammer/active_record_cache_find_by.rb:118 | An escaped part contains only unreserved characters and `%XX` triples with upper-case hex digits. |
| UriEscape.WellEscapedCharacters | lib/api_hammer/active_record_cache_find_by.rb:118 | A well-escaped part contains only unreserved characters and `%`, so never a `/`. |
| UriEscape.EscapeUnreservedIdentity | lib/api_hammer/active_record_cache_find_by.rb:118 | A part made of `[a-zA-Z0-9-._~]` is left unchanged. |
| UriEscape.EscapeAppend | lib/api_hammer/active_record_cache_find_by.rb:118 | Escaping works character by character: escaping a concatenation concatenates the escapes. |
| UriEscape.Escape | lib/api_hammer/active_record_cache_find_by.rb:118 | `URI::Parser#escape` with the class `[^a-z0-9\-\.\_\~]`: each character outside it becomes `%XX` per UTF-8 byte. Characterised by `UnescapeEscape`, `EscapeWellEscaped`, `EscapeUnreservedIdentity` and `EscapeAppend`. |
| CacheKeys.DecimalInjective | lib/api_hammer/active_record_cache_find_by.rb:114 | Distinct integers have distinct `to_s`. |
| CacheKeys.Decimal | lib/api_hammer/active_record_cache_find_by.rb:114 | `Integer#to_s`: at least one character, a leading `-` exactly for negatives, and only unreserved characters; injective by `DecimalInjective`. |
| CacheKeys.ToS | lib/api_hammer/active_record_cache_find_by.rb:114 | `to_s` of a value: a string itself, an integer's decimal text, nil as the empty string, another object as its own text. Its integer case is characterised by `Decimal` and `DecimalInjective`. |
| CacheKeys.UnflattenFlatten | lib/api_hammer/active_record_cache_find_by.rb:114 | The `inject([], &:+)` flattening of pairs can be paired up again into the same pairs. |
| CacheKeys.Flatten | lib/api_hammer/active_record_cache_find_by.rb:114 | `inject([], &:+)` over the pairs: twice as many parts as pairs. `UnflattenFlatten` pairs them back into the same pairs. |
| CacheKeys.SplitJoin | lib/api_hammer/active_record_cache_find_by.rb:119 | Splitting `join('/')` at the slashes gives back the parts, provided no part has a slash. |
| CacheKeys.Join | lib/api_hammer/active_record_cache_find_by.rb:119 | `join('/')`. Characterised by `SplitJoin`: splitting it at `/` returns the slash-free parts. |
| CacheKeys.PartsLayout | lib/api_hammer/active_record_cache_find_by.rb:114-115 | The key parts are `cache_find_by`, then the table name, then name and value of every attribute. The names are ascending, and the pairs are those of the input as text. |
| CacheKeys.Parts | lib/api_hammer/active_record_cache_find_by.rb:114-115 | `cache_key_prefix + attrs`, before escaping. Characterised by `PartsLayout`. |
| CacheKeys.CacheKeyFor | lib/api_hammer/active_record_cache_find_by.rb:113-120 | `cache_key_for`: namespace, table, sorted names and values, each escaped and joined by `/`. Characterised by `PartsLayout`, `KeyDecodes`, `KeyCharacters` and `KeyPermutationInvariant`. |
| CacheKeys.KeyDecodes | lib/api_hammer/active_record_cache_find_by.rb:113-120 | Reading a key back (split at `/`, then percent-decode) gives the UTF-8 bytes of every part, in order. |
| CacheKeys.KeyCharacters | lib/api_hammer/active_record_cache_find_by.rb:116-119 | Every character of a key is unreserved, `/` or `%`. Every piece between slashes is well escaped. |
| CacheKeys.KeyIgnoresOrder | lib/api_hammer/active_record_cache_find_by.rb:114 | Attributes with distinct names give the same key in any order, whenever they are the same pairs as text. |
| CacheKeys.KeyPermutationInvariant | lib/api_hammer/active_record_cache_find_by.rb:113-120 | Any reordering of attributes with distinct names gives the same key. |
| KeyExamples.EscapeAddress | lib/api_hammer/active_record_cache_find_by.rb:118 | In an address made of unreserved characters, only the `@` is escaped, as `%40`. |
| KeyExamples.SingleAttributeKey | lib/api_hammer/active_record_cache_find_by.rb:113-120 | A lookup by one attribute gets the key `cache_find_by/<table>/<field>/<value>`, each part escaped. |
| KeyExamples.AddressKey | lib/api_hammer/active_record_cache_find_by.rb:113-120 | Looking up `users` by `email: "local@domain"` gives the key `cache_find_by/users/email/local%40domain`. |
| Stores.ReadThrough | lib/api_hammer/active_record_cache_find_by.rb:51-53 | `fetch` runs the block exactly when the key is absent. Afterwards the key is present and holds the returned value. |
| Stores.ReadThroughHit | lib/api_hammer/active_record_cache_find_by.rb:51-53 | A hit returns the stored value, does not run the block, and changes nothing. |
| Stores.ReadThroughMiss | lib/api_hammer/active_record_cache_find_by.rb:51-53 | A miss returns the block's value and stores it under the key. Nothing else changes. |
| Stores.ReadThroughIdempotent | lib/api_hammer/active_record_cache_find_by.rb:51-53 | A second read of the same key is a hit on the first read's value, whatever its block would yield. |
| Stores.ReadThroughOtherKeys | lib/api_hammer/active_record_cache_find_by.rb:51-53 | A read-through leaves every other key as it was. |
| Stores.DeleteThenReadMisses | lib/api_hammer/active_record_cache_find_by.rb:128 | After a key is deleted, the next read of it runs the block. |
| Stores.Store.constructor | lib/api_hammer/active_record_cache_find_by.rb:72 | A new `MemoryStore` is empty. |
| Stores.Store.Fetch | lib/api_hammer/active_record_cache_find_by.rb:51-53 | The value, whether the block ran, and the new entries are exactly those of `ReadThrough` on the old entries. |
| Stores.Store.Delete | lib/api_hammer/active_record_cache_find_by.rb:128 | The key is removed and every other entry stays. The result tells whether the key was present. |
| Models.NameTexts | lib/api_hammer/active_record_cache_find_by.rb:95-97 | Succeeds exactly when every name is a Symbol or a String. Then it gives each name's text, position by position. |
| Models.NormalizeNames | lib/api_hammer/active_record_cache_find_by.rb:95-98 | Fails (`ArgumentError`) exactly when some name is neither a Symbol nor a String. Otherwise it gives the name texts sorted, with repeats kept. |
| Models.NormalizeIgnoresOrder | lib/api_hammer/active_record_cache_find_by.rb:95-98 | Any reordering of the same names normalises to the same result, failure included. |
| Models.Registered | lib/api_hammer/active_record_cache_find_by.rb:100 | The union contains the new set and every set registered before (a nil registry counts as empty), and nothing else. |
| Models.RedeclareUnchanged | lib/api_hammer/active_record_cache_find_by.rb:100 | Declaring a reordering of names already declared leaves the registry unchanged. |
| Models.ModelClass.constructor | lib/api_hammer/active_record_cache_find_by.rb:109-111 | A new subclass has defined no registry, no store and no hooks of its own. |
| Models.ModelClass.CacheFindBys | lib/api_hammer/active_record_cache_find_by.rb:104-111 | Returns the class's own registry when it defined one. Otherwise it inherits one defined up the chain, or gives nil. |
| Models.ModelClass.CurrentCache | lib/api_hammer/active_record_cache_find_by.rb:62-74 | The store in force is the class's own, else one defined by an ancestor. |
| Models.ModelClass.SetFinderCache | lib/api_hammer/active_record_cache_find_by.rb:62-64 | After `finder_cache=`, this class reads the given store. |
| Models.ModelClass.FinderCache | lib/api_hammer/active_record_cache_find_by.rb:69-74 | A store already in force is returned unchanged. Otherwise the Rails cache, or else a new empty memory store, becomes the class's own store and is returned. |
| Models.ModelClass.CacheFindBy | lib/api_hammer/active_record_cache_find_by.rb:87-101 | The first declaration up the chain sets up an empty registry and appends the after_update and before_destroy flush hooks. A declaration succeeds exactly when the names are valid, and then the registry becomes the union. A failure changes nothing more. Sorted registries stay sorted. |
| Models.FlushFindCache | lib/api_hammer/active_record_cache_find_by.rb:124-132 | Raises exactly when nothing was declared. When nothing was declared, or the declared sets are empty, no store and not the class's store setting change. Otherwise the store `finder_cache` settles on (an inherited one stays inherited, not copied onto the class) loses exactly one key per declared set, built from the prior values. Every other store stays as it was. |
| Models.DeleteKeys | lib/api_hammer/active_record_cache_find_by.rb:125-129 | The loop deletes exactly the flush keys of all declared sets. |
| Models.FlushKeysAdd | lib/api_hammer/active_record_cache_find_by.rb:125-128 | One more declared set adds exactly its own key to the keys deleted. |
| Models.FlushKey | lib/api_hammer/active_record_cache_find_by.rb:126-128 | The key one iteration deletes: `cache_key_for` of the declared names paired with their prior values. Characterised by `FlushKeysAdd` and `FlushEvictsCachedLookup`. |
| Models.FlushKeys | lib/api_hammer/active_record_cache_find_by.rb:125-128 | The keys `flush_find_cache` deletes: one per declared set, built from the prior values. Characterised by `FlushKeysAdd`, `DeleteKeys` and `FlushEvictsCachedLookup`. |
| Relations.Detect | lib/api_hammer/active_record_cache_find_by.rb:26 | Gives nil exactly when no bound column has the field's name. Otherwise it gives the value of the first bound pair that does. |
| Relations.DetectIgnoresOrder | lib/api_hammer/active_record_cache_find_by.rb:26 | With one bind per column, `detect` finds the same value whatever the order of the binds. |
| Relations.ActualRight | lib/api_hammer/active_record_cache_find_by.rb:24-31 | The literal right side, else the value `detect` finds for the attribute, else nil. Characterised by `PlaceholderTakesFirstBinding`, `UnboundPlaceholderNotCacheable` and `ActualRightIgnoresBindOrder`. |
| Relations.ActualRightIgnoresBindOrder | lib/api_hammer/active_record_cache_find_by.rb:24-31 | With one bind per column, every condition resolves to the same value under any order of the binds. |
| Relations.CacheableRequirements | lib/api_hammer/active_record_cache_find_by.rb:33-47 | Without any declaration nothing is cacheable. A cacheable lookup is not loaded, has only equalities, has simple values only, and no modifier. |
| Relations.Cacheable | lib/api_hammer/active_record_cache_find_by.rb:33-47 | The eligibility test after `can_cache`: a declaration exists, not loaded, equalities only, sorted names a declared set, simple values, no modifier. Characterised by `CacheableRequirements`, `CacheableIffDeclaredSet` and `CacheableIgnoresOrder`. |
| Relations.Eligible | lib/api_hammer/active_record_cache_find_by.rb:33 | `can_cache &&= ...`: the caller's permission and the eligibility test. It decides the branch of `OneRecordWithCaching`, `First` and `Take`. |
| Relations.Simple | lib/api_hammer/active_record_cache_find_by.rb:37 | A right side is a String or a number. Characterised by `CacheableRequirements`. |
| Relations.NoModifiers | lib/api_hammer/active_record_cache_find_by.rb:38-47 | No offset, joins, order, reverse order, includes, preload, select, group, from or lock. Characterised by `CacheableRequirements`. |
| Relations.LookupKey | lib/api_hammer/active_record_cache_find_by.rb:50 | The key of a lookup: `cache_key_for` of its attribute/resolved-value pairs. Characterised by `KeyIgnoresConditionOrder` and `FlushEvictsCachedLookup`. |
| Relations.UnboundPlaceholderNotCacheable | lib/api_hammer/active_record_cache_find_by.rb:24-27 | A placeholder with no bound value resolves to nil, which rules caching out. |
| Relations.PlaceholderTakesFirstBinding | lib/api_hammer/active_record_cache_find_by.rb:24-27 | A placeholder resolves to the value of the first bind with the same column name. |
| Relations.CacheableIffDeclaredSet | lib/api_hammer/active_record_cache_find_by.rb:36 | The other tests passing and sorted registries given, a lookup is cacheable exactly when some declared set has the same names as its conditions, in any order. |
| Relations.CacheableIgnoresOrder | lib/api_hammer/active_record_cache_find_by.rb:33-47 | Reordering the conditions, and the binds with them (one bind per column), does not change eligibility. |
| Relations.KeyIgnoresConditionOrder | lib/api_hammer/active_record_cache_find_by.rb:50 | Reordering conditions on distinct attributes, and the binds with them (one bind per column), does not change the key. |
| Relations.FlushEvictsCachedLookup | lib/api_hammer/active_record_cache_find_by.rb:124-128 | Suppose a cacheable lookup on distinct attributes asked for a record's prior values (equal as text). Then its key is among those `flush_find_cache` deletes. |
| Relations.FlushedLookupMisses | lib/api_hammer/active_record_cache_find_by.rb:124-128 | After the flush, such a lookup misses and runs the query again. |
| Relations.OneRecordWithCaching | lib/api_hammer/active_record_cache_find_by.rb:23-57 | An eligible lookup settles the class's store and reads it through under the lookup's key; no other store changes. Any other lookup runs the query and changes no store. The registry is unchanged either way. |
| Relations.CachedLookup | lib/api_hammer/active_record_cache_find_by.rb:49-53 | The eligible case is served by a read-through of the class's store under the lookup's key; no other store changes. |
| Relations.FetchThrough | lib/api_hammer/active_record_cache_find_by.rb:51-53 | `finder_cache.fetch` settles the store (an inherited one stays inherited, not copied onto the class), then reads through it from the entries it held before; no other store changes. |
| Relations.First | lib/api_hammer/active_record_cache_find_by.rb:5-10 | `first` with arguments always runs the query and changes no store. Without arguments it is served as above, and only the class's store may change. |
| Relations.Take | lib/api_hammer/active_record_cache_find_by.rb:11-16 | `take` with arguments always runs the query and changes no store. Without arguments it is served as above, and only the class's store may change. |
| Relations.LookupTwice | lib/api_hammer/active_record_cache_find_by.rb:49-53 | The same cacheable lookup twice: the second returns the first's record without running its query. |

## Left out

- Numbers other than integers (floats, `BigDecimal`, `Rational`) are not modelled. `Value` has integers, strings, nil and an opaque object carrying its `to_s`.
- Case folding under the `/i` flag is not modelled. It might let a non-ASCII character such as U+212A KELVIN SIGN through unescaped. Here only ASCII letters, digits and `-._~` are unreserved.
- Models.FlushFindCache: requires every declared name to have a prior value. In Ruby, `attribute_was` on an unknown attribute raises part-way through the loop, and how much was deleted by then depends on `Set` order.
- Models.FlushFindCache: resolves `finder_cache` once, before the loop; Ruby resolves it once per declared set. The first resolution settles the store and later ones return that same store, so the deletions are the same.
- KeyIgnoresOrder, KeyPermutationInvariant, KeyIgnoresConditionOrder and FlushEvictsCachedLookup require distinct attribute names. With repeated names, `sort_by` is not stable in Ruby, so the key is not determined by the source; `Sorting.SortBy` models one stable order.
- Relations.CacheableIgnoresOrder and Relations.KeyIgnoresConditionOrder require one bind per column. With two binds on the same column, `detect` takes whichever comes first, so reordering them can change the value a placeholder resolves to.
- Models.ModelClass.SetFinderCache: takes a store, not nil. `finder_cache = nil` would make every later `fetch` raise.
- Whether Rails and `Rails.cache` exist is a parameter `railsCache` of the operations that settle a store.
- Store expiry, eviction, size limits, serialisation and sharing between processes are not modelled. A store is a map from key to record or nil.
- Records are abstract values. The query that a relation's block runs is a parameter, its result.
- The `alias_method` patching of `Relation#first` and `#take` is not modelled, nor the condition that `take` is only patched where it exists (lines 5-16 as load-time code). `First` and `Take` are the patched methods.
- Callbacks are recorded but not run. The hook that calls `flush_find_cache` after an update or before a destroy is `FlushFindCache` itself.
- Freezing of the registry and names is not modelled; Dafny values are immutable.
- Concurrent access to a store by several threads or processes is not modelled.
- The Sinatra integration (`lib/api_hammer/sinatra.rb`) and the rest of the gem are not part of this model.
