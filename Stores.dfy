/**
 * The cache store a model class reads through (`finder_cache`): an
 * `ActiveSupport::Cache::Store` seen as a map from key to the cached result
 * of a one-record query, with the two operations the find-by cache uses,
 * `fetch` with a block and `delete`.
 */
module Stores {
  import opened Optional
  import opened CacheKeys

  /** A row of the model's table, by attribute name. */
  datatype Record = Record(attributes: map<string, Value>)

  /** What `first`/`take` returns and the store keeps: a record, or nil. */
  type Cached = Option<Record>

  /** The outcome of one read-through: the value, whether the block ran, the new entries. */
  datatype Fetched = Fetched(value: Cached, ranBlock: bool, entries: map<string, Cached>)

  /**
   * `fetch(key) { block }` on a store holding `entries`, the block yielding
   * `computed`: a hit returns what is stored and leaves the block alone; a
   * miss runs the block and stores its result under the key.
   */
  function ReadThrough(entries: map<string, Cached>, key: string, computed: Cached): (f: Fetched)
    ensures f.ranBlock <==> key !in entries
    ensures key in f.entries && f.entries[key] == f.value
  {
    if key in entries then Fetched(entries[key], false, entries)
    else Fetched(computed, true, entries[key := computed])
  }

  /** A hit returns the stored value, does not run the block and changes nothing. */
  lemma ReadThroughHit(entries: map<string, Cached>, key: string, computed: Cached)
    requires key in entries
    ensures ReadThrough(entries, key, computed) == Fetched(entries[key], false, entries)
  {
  }

  /** A miss runs the block once and stores its result under the key, and nothing else. */
  lemma ReadThroughMiss(entries: map<string, Cached>, key: string, computed: Cached)
    requires key !in entries
    ensures var f := ReadThrough(entries, key, computed);
      f.value == computed && f.ranBlock && f.entries == entries[key := computed]
      && f.entries.Keys == entries.Keys + {key}
  {
  }

  /**
   * Reading the same key twice: the second read is a hit on the value the
   * first one returned, whatever its block would yield, and stores nothing.
   */
  lemma ReadThroughIdempotent(entries: map<string, Cached>, key: string, first: Cached, second: Cached)
    ensures var f := ReadThrough(entries, key, first);
      var g := ReadThrough(f.entries, key, second);
      g.value == f.value && !g.ranBlock && g.entries == f.entries
  {
  }

  /** A read-through leaves every other key as it was. */
  lemma ReadThroughOtherKeys(entries: map<string, Cached>, key: string, computed: Cached, other: string)
    requires other != key
    ensures var f := ReadThrough(entries, key, computed);
      (other in f.entries <==> other in entries)
      && (other in entries ==> f.entries[other] == entries[other])
  {
  }

  /** After a key is deleted, the next read of it runs the block again. */
  lemma DeleteThenReadMisses(entries: map<string, Cached>, key: string, computed: Cached)
    ensures ReadThrough(entries - {key}, key, computed).ranBlock
  {
  }

  /** A cache store; `ActiveSupport::Cache::MemoryStore.new` is an empty one. */
  class Store {
    var entries: map<string, Cached>

    constructor ()
      ensures entries == map[]
    {
      entries := map[];
    }

    /** `fetch(key) { block }`; `ran` tells whether the block was run. */
    method Fetch(key: string, computed: Cached) returns (value: Cached, ran: bool)
      modifies this
      ensures Fetched(value, ran, entries) == ReadThrough(old(entries), key, computed)
    {
      if key in entries {
        value, ran := entries[key], false;
      } else {
        value, ran := computed, true;
        entries := entries[key := computed];
      }
    }

    /** `delete(key)`: the entry under `key` is gone, every other entry stays. */
    method Delete(key: string) returns (existed: bool)
      modifies this
      ensures existed <==> key in old(entries)
      ensures entries == old(entries) - {key}
    {
      existed := key in entries;
      entries := entries - {key};
    }
  }
}
