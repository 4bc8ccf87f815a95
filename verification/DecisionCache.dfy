/** The decision cache (internal/policy/cache.go): a map with expiry, a capacity bound and eviction. */
module DecisionCache {
  import opened Text

  datatype Decision = Decision(allow: bool, violations: seq<string>, matchedRule: string)

  datatype Entry = Entry(decision: Decision, expiresAt: int)

  type Entries = map<string, Entry>

  const FIVE_MINUTES: int := 300_000_000_000  // nanoseconds
  const DEFAULT_MAX_ENTRIES: int := 10000

  /** A hit needs an entry whose expiry lies strictly ahead. */
  function Lookup(entries: Entries, key: string, now: int): Option<Decision> {
    if key in entries && now < entries[key].expiresAt then Some(entries[key].decision) else None
  }

  /** What is left after the entries that expired before `now` are removed. */
  function Unexpired(entries: Entries, now: int): Entries {
    map key | key in entries && now <= entries[key].expiresAt :: entries[key]
  }

  /** `part` holds some of the entries of `whole`, unchanged. */
  predicate Submap(part: Entries, whole: Entries) {
    forall key :: key in part ==> key in whole && part[key] == whole[key]
  }

  /** The effect of Set: some other entries may be evicted, the new one is present. */
  predicate Stored(before: Entries, key: string, entry: Entry, after: Entries) {
    key in after && after[key] == entry && Submap(after - {key}, before)
  }

  /** Removing expired entries, in cleanup or on eviction, changes no later lookup. */
  lemma CleanupInvisible(entries: Entries, part: Entries, key: string, cleaned: int, later: int)
    requires cleaned <= later && Submap(Unexpired(entries, cleaned), part) && Submap(part, entries)
    ensures Lookup(part, key, later) == Lookup(entries, key, later)
  {
    if key in entries && later < entries[key].expiresAt {
      assert key in Unexpired(entries, cleaned);
    }
  }

  lemma SubmapSize(part: Entries, whole: Entries)
    requires Submap(part, whole)
    ensures |part| <= |whole|
  {
    assert part.Keys <= whole.Keys;
    KeysSize(part.Keys, whole.Keys);
  }

  lemma {:induction false} KeysSize(a: set<string>, b: set<string>)
    requires a <= b
    ensures |a| <= |b|
  {
    if a != {} {
      var x :| x in a;
      KeysSize(a - {x}, b - {x});
    }
  }

  class Cache {
    const enabled: bool
    const ttl: int
    const maxEntries: int
    var entries: Entries
    var hits: nat
    var misses: nat
    var evicted: nat
    ghost var inserted: nat     // Sets that added a key
    ghost var invalidated: nat  // entries dropped by Invalidate

    /** Never over capacity, and every insertion is live, evicted or invalidated. */
    ghost predicate Valid()
      reads this
    {
      && (maxEntries >= 1 ==> |entries| <= maxEntries)
      && inserted == |entries| + evicted + invalidated
      && (!enabled ==> entries == map[])
    }

    constructor (enabled: bool, ttl: int, maxEntries: int)
      ensures Valid() && entries == map[] && this.enabled == enabled
      ensures this.ttl == if ttl == 0 then FIVE_MINUTES else ttl
      ensures this.maxEntries == if maxEntries == 0 then DEFAULT_MAX_ENTRIES else maxEntries
    {
      this.enabled := enabled;
      this.ttl := if ttl == 0 then FIVE_MINUTES else ttl;
      this.maxEntries := if maxEntries == 0 then DEFAULT_MAX_ENTRIES else maxEntries;
      entries := map[];
      hits, misses, evicted, inserted, invalidated := 0, 0, 0, 0, 0;
    }

    method Get(key: string, now: int) returns (found: Option<Decision>)
      requires Valid()
      modifies this`hits, this`misses
      ensures Valid()
      ensures found == Lookup(entries, key, now)
      ensures enabled ==> hits + misses == old(hits + misses) + 1
      ensures hits == old(hits) + if found.Some? then 1 else 0
    {
      if !enabled {
        return None;
      }
      if key in entries && now < entries[key].expiresAt {
        hits := hits + 1;
        return Some(entries[key].decision);
      }
      misses := misses + 1;
      return None;
    }

    /** The shared loop of cleanup and evictOldest. */
    method RemoveExpired(now: int)
      modifies this`entries, this`evicted
      ensures entries == Unexpired(old(entries), now)
      ensures |entries| + evicted == old(|entries| + evicted)
    {
      ghost var before := entries;
      var pending := entries.Keys;
      while pending != {}
        invariant pending <= before.Keys
        invariant forall key :: key in entries <==> key in before && (key in pending || now <= before[key].expiresAt)
        invariant forall key :: key in entries ==> entries[key] == before[key]
        invariant |entries| + evicted == old(|entries| + evicted)
        decreases pending
      {
        var key :| key in pending;
        pending := pending - {key};
        if now > entries[key].expiresAt {
          Shrink(entries, key);
          entries := entries - {key};
          evicted := evicted + 1;
        }
      }
      assert entries == Unexpired(before, now);
    }

    static lemma Shrink(entries: Entries, key: string)
      requires key in entries
      ensures |entries - {key}| == |entries| - 1
    {
      assert (entries - {key}).Keys == entries.Keys - {key};
    }

    /** Expired entries first, then a tenth of the capacity but never less than one entry. */
    method EvictOldest(now: int)
      modifies this`entries, this`evicted
      ensures Submap(entries, old(entries))
      ensures |entries| + evicted == old(|entries| + evicted)
      ensures maxEntries >= 1 && old(|entries|) <= maxEntries ==> |entries| < maxEntries
      ensures |Unexpired(old(entries), now)| < maxEntries ==> entries == Unexpired(old(entries), now)
      ensures var live, tenth := |Unexpired(old(entries), now)|, if maxEntries < 20 then 1 else maxEntries / 10;
        live >= maxEntries ==> Submap(entries, Unexpired(old(entries), now)) && |entries| == if live <= tenth then 0 else live - tenth
    {
      RemoveExpired(now);
      ghost var unexpired := entries;
      SubmapSize(entries, old(entries));
      if |entries| >= maxEntries {
        var toRemove := maxEntries / 10;
        var removed := 0;
        while entries != map[]
          invariant Submap(entries, unexpired) && (removed == 0 || 0 < removed < toRemove)
          invariant |entries| + removed == |unexpired|
          invariant |entries| + evicted == old(|entries| + evicted)
          decreases |entries|
        {
          var key :| key in entries;
          Shrink(entries, key);
          entries := entries - {key};
          evicted := evicted + 1;
          removed := removed + 1;
          if removed >= toRemove {
            break;
          }
        }
      }
    }

    method Set(key: string, decision: Decision, now: int)
      requires Valid()
      modifies this`entries, this`evicted, this`inserted
      ensures Valid()
      ensures if enabled then Stored(old(entries), key, Entry(decision, now + ttl), entries) else entries == old(entries)
      ensures enabled && old(|entries|) < maxEntries ==> entries == old(entries)[key := Entry(decision, now + ttl)]
    {
      if !enabled {
        return;
      }
      if |entries| >= maxEntries {
        EvictOldest(now);
      }
      if key !in entries {
        inserted := inserted + 1;
        assert entries[key := Entry(decision, now + ttl)].Keys == entries.Keys + {key};
      } else {
        assert entries[key := Entry(decision, now + ttl)].Keys == entries.Keys;
      }
      entries := entries[key := Entry(decision, now + ttl)];
    }

    method Invalidate()
      requires Valid()
      modifies this`entries, this`invalidated
      ensures Valid() && entries == map[]
    {
      if !enabled {
        return;
      }
      invalidated := invalidated + |entries|;
      entries := map[];
    }

    method Cleanup(now: int)
      requires Valid()
      modifies this`entries, this`evicted
      ensures Valid() && entries == Unexpired(old(entries), now)
    {
      ghost var before := entries;
      RemoveExpired(now);
      SubmapSize(entries, before);
    }
  }
}
