/**
  StickyCache (pkg/routing/cache.go): provider assignments with a time to live and, when
  full, eviction of the least recently used.  Each method is one critical section; Get has
  two, Lookup and Touch, so every interleaving of callers is a sequence of these methods.

  Beside the cache runs what it stands for: the unbounded map of the last assignment made
  for each key and not deleted since.
 */
module StickyCaches {
  import opened Options

  datatype Entry = Entry(provider: string, expiresAt: nat, createdAt: nat, lastAccessedAt: nat, accessCount: nat)

  /** The last Set of a key. */
  datatype Assignment = Assignment(provider: string, at: nat)

  predicate Expired(ttl: nat, a: Assignment, now: nat) {
    ttl > 0 && now > a.at + ttl
  }

  /** A cache entry is the latest assignment of its key. */
  ghost predicate Current(ttl: nat, e: Entry, a: Assignment) {
    e.provider == a.provider && e.createdAt == a.at && e.expiresAt == if ttl > 0 then a.at + ttl else 0
  }

  /**
    One key in the cache against the unbounded map: an entry is current, and an assignment
    without an entry was evicted or had expired.
   */
  ghost predicate KeyAgrees(ttl: nat, entries: map<string, Entry>, latest: map<string, Assignment>,
                            evicted: set<string>, clock: nat, k: string) {
    && (k in entries ==> k in latest && k !in evicted && Current(ttl, entries[k], latest[k]))
    && (k in latest ==> k in entries || k in evicted || Expired(ttl, latest[k], clock))
  }

  ghost predicate Agrees(ttl: nat, entries: map<string, Entry>, latest: map<string, Assignment>,
                         evicted: set<string>, clock: nat) {
    forall k :: KeyAgrees(ttl, entries, latest, evicted, clock, k)
  }

  /** The access times kept in the entries are the times of last use. */
  ghost predicate UsesAgree(entries: map<string, Entry>, lastUse: map<string, nat>) {
    forall k :: k in entries ==> k in lastUse && lastUse[k] == entries[k].lastAccessedAt
  }

  lemma {:induction false} UsesPut(entries: map<string, Entry>, lastUse: map<string, nat>, key: string, e: Entry)
    requires UsesAgree(entries, lastUse)
    ensures UsesAgree(entries[key := e], lastUse[key := e.lastAccessedAt])
  {
  }

  /** Of these keys none was used before `victim`. */
  ghost predicate LeastUsed(lastUse: map<string, nat>, keys: set<string>, victim: string) {
    victim in keys && victim in lastUse && forall k :: k in keys && k in lastUse ==> lastUse[victim] <= lastUse[k]
  }

  /** The empty key was used before all others of these. */
  ghost predicate OlderThanAll(lastUse: map<string, nat>, keys: set<string>) {
    "" in lastUse && forall k :: k in keys && k in lastUse && k != "" ==> lastUse[""] < lastUse[k]
  }

  lemma {:induction false} UsesDecide(entries: map<string, Entry>, lastUse: map<string, nat>, order: seq<string>, victim: string)
    requires UsesAgree(entries, lastUse) && Visits(order, entries)
    ensures LeastUsed(lastUse, entries.Keys, victim) <==> LeastRecent(entries, victim)
    ensures EmptyOldest(entries, order) <==> "" in entries && OlderThanAll(lastUse, entries.Keys)
  {
  }

  /** `victim` has the least last-access time. */
  ghost predicate LeastRecent(entries: map<string, Entry>, victim: string) {
    victim in entries && forall k :: k in entries ==> entries[victim].lastAccessedAt <= entries[k].lastAccessedAt
  }

  /** The entries in some order, each once. */
  ghost predicate Visits(order: seq<string>, entries: map<string, Entry>) {
    && (forall i, j :: 0 <= i < j < |order| ==> order[i] != order[j])
    && (forall k :: k in order <==> k in entries)
  }

  /** Among these keys, the empty one was used before all others. */
  ghost predicate EmptyOldest(entries: map<string, Entry>, keys: seq<string>)
    requires forall k :: k in keys ==> k in entries
  {
    "" in keys && forall k :: k in keys && k != "" ==> entries[""].lastAccessedAt < entries[k].lastAccessedAt
  }

  /**
    A visit in this order finds nothing to evict: the empty key comes last, and every
    other entry was used later.
   */
  ghost predicate Spares(entries: map<string, Entry>, order: seq<string>)
    requires forall k :: k in order ==> k in entries
  {
    |order| > 0 ==>
      && order[|order| - 1] == ""
      && forall i :: 0 <= i < |order| - 1 ==> entries[""].lastAccessedAt < entries[order[i]].lastAccessedAt
  }

  class StickyCache {
    var entries: map<string, Entry>
    const ttl: nat
    const maxEntries: int

    ghost var latest: map<string, Assignment>
    ghost var evicted: set<string>   // keys evicted since they were last assigned
    ghost var named: bool            // the empty key has never been assigned
    ghost var lastUse: map<string, nat>   // when each key was last assigned or looked up with success
    ghost var clock: nat

    ghost predicate Valid()
      reads this
    {
      && Agrees(ttl, entries, latest, evicted, clock)
      && (named ==> "" !in entries && (maxEntries > 0 ==> |entries| <= maxEntries))
      && (maxEntries <= 0 ==> evicted == {})
      && UsesAgree(entries, lastUse)
    }

    constructor (ttl: nat, maxEntries: int)
      ensures Valid() && this.ttl == ttl && this.maxEntries == maxEntries
      ensures entries == map[] && latest == map[] && evicted == {} && named && clock == 0 && lastUse == map[]
    {
      this.ttl, this.maxEntries := ttl, maxEntries;
      entries, latest, evicted, named, clock, lastUse := map[], map[], {}, true, 0, map[];
    }

    /**
      The read section of Get.  A hit returns the unexpired provider last Set for the key,
      and a miss means there is none or it has been evicted.
     */
    method Lookup(key: string, now: nat) returns (hit: Option<string>)
      requires Valid() && clock <= now
      modifies this`clock
      ensures Valid() && clock == now
      ensures hit.Some? <==> key in latest && (ttl == 0 || now <= latest[key].at + ttl) && key !in evicted
      ensures hit.Some? ==> hit.value == latest[key].provider
    {
      AgreesLater(ttl, entries, latest, evicted, clock, now);
      assert KeyAgrees(ttl, entries, latest, evicted, now, key);
      clock := now;
      if key !in entries {
        return None;
      }
      if ttl > 0 && now > entries[key].expiresAt {
        return None;
      }
      return Some(entries[key].provider);
    }

    /** The write section of Get; the entry may be gone or may have been replaced by then. */
    method Touch(key: string, now: nat)
      requires Valid() && clock <= now
      modifies this`entries, this`clock, this`lastUse
      ensures Valid() && clock == now
      ensures lastUse == if key in old(entries) then old(lastUse)[key := now] else old(lastUse)
      ensures key !in old(entries) ==> entries == old(entries)
      ensures key in old(entries) ==>
        var e := old(entries)[key];
        entries == old(entries)[key := e.(lastAccessedAt := now, accessCount := e.accessCount + 1)]
    {
      AgreesLater(ttl, entries, latest, evicted, clock, now);
      clock := now;
      if key in entries {
        var e := entries[key];
        AgreesTouch(ttl, entries, latest, evicted, now, key, e.(lastAccessedAt := now, accessCount := e.accessCount + 1));
        SizeAfterPut(entries, key, e.(lastAccessedAt := now, accessCount := e.accessCount + 1));
        entries := entries[key := e.(lastAccessedAt := now, accessCount := e.accessCount + 1)];
        lastUse := lastUse[key := now];
      }
    }

    /** Visits the entries in `order`, which Go leaves arbitrary; "" stands for "none found yet". */
    method EvictLRU(order: seq<string>) returns (victim: Option<string>)
      requires Visits(order, entries)
      modifies this`entries
      ensures victim.None? ==> entries == old(entries)
      ensures victim.Some? ==> victim.value in old(entries) && victim.value != "" && entries == old(entries) - {victim.value}
      ensures victim.None? <==> Spares(old(entries), order)
      ensures victim.Some? ==> (LeastRecent(old(entries), victim.value) <==> !EmptyOldest(old(entries), order))
    {
      var oldestKey, oldestTime := "", 0;
      for i := 0 to |order|
        invariant entries == old(entries)
        invariant oldestKey == "" <==> Spares(entries, order[..i])
        invariant oldestKey != "" ==> oldestKey in order[..i] && oldestTime == entries[oldestKey].lastAccessedAt
        invariant i > 0 && !EmptyOldest(entries, order[..i]) ==>
          oldestKey != "" && forall k :: k in order[..i] ==> oldestTime <= entries[k].lastAccessedAt
      {
        var key := order[i];
        assert key in order && order[..i + 1] == order[..i] + [key];
        if oldestKey == "" || entries[key].lastAccessedAt < oldestTime {
          oldestKey, oldestTime := key, entries[key].lastAccessedAt;
        }
      }
      assert order[..|order|] == order;
      if oldestKey == "" {
        return None;
      }
      entries := entries - {oldestKey};
      return Some(oldestKey);
    }

    /** Makes room for a new key in a full cache. */
    method MakeRoom(key: string, order: seq<string>) returns (victim: Option<string>)
      requires Visits(order, entries)
      modifies this`entries
      ensures entries == old(entries) - Gone(victim)
      ensures victim.Some? <==>
        maxEntries > 0 && |old(entries)| >= maxEntries && key !in old(entries) && !Spares(old(entries), order)
      ensures victim.Some? ==> victim.value in old(entries)
      ensures victim.Some? ==> (LeastRecent(old(entries), victim.value) <==> !EmptyOldest(old(entries), order))
    {
      victim := None;
      if maxEntries > 0 && |entries| >= maxEntries && key !in entries {
        victim := EvictLRU(order);
      }
    }

    method Set(key: string, provider: string, now: nat, order: seq<string>) returns (ghost victim: Option<string>)
      requires Valid() && clock <= now && Visits(order, entries)
      modifies this
      ensures Valid() && clock == now
      ensures latest == old(latest)[key := Assignment(provider, now)]
      ensures named == (old(named) && key != "")
      ensures evicted == (old(evicted) + Gone(victim)) - {key}
      ensures entries == (old(entries) - Gone(victim))[key := Entry(provider, if ttl > 0 then now + ttl else 0, now, now, 1)]
      ensures lastUse == old(lastUse)[key := now]
      ensures victim.Some? <==>
        maxEntries > 0 && |old(entries)| >= maxEntries && key !in old(entries) && !Spares(old(entries), order)
      ensures victim.Some? ==>
        (LeastUsed(old(lastUse), old(entries).Keys, victim.value) <==>
           !("" in old(entries) && OlderThanAll(old(lastUse), old(entries).Keys)))
      ensures maxEntries > 0 && |old(entries)| <= maxEntries ==>
        (|entries| <= maxEntries <==> |old(entries)| < maxEntries || key in old(entries) || !Spares(old(entries), order))
    {
      var out := MakeRoom(key, order);
      victim := out;
      SizeAfterRemove(old(entries), Gone(victim));
      SizeAfterPut(entries, key, NewEntry(provider, now));
      if named { NamedIsNotSpared(old(entries), order); }
      if victim.Some? { UsesDecide(old(entries), lastUse, order, victim.value); }
      Install(key, provider, now, Gone(victim), old(entries));
    }

    /** The second half of Set, once there is room. */
    method Install(key: string, provider: string, now: nat, ghost gone: set<string>, ghost before: map<string, Entry>)
      requires Agrees(ttl, before, latest, evicted, clock) && clock <= now && entries == before - gone
      requires named ==> "" !in entries && (maxEntries > 0 ==> |entries| + (if key in entries then 0 else 1) <= maxEntries)
      requires maxEntries <= 0 ==> evicted == {} && gone == {}
      requires UsesAgree(entries, lastUse)
      modifies this
      ensures Valid() && clock == now
      ensures latest == old(latest)[key := Assignment(provider, now)]
      ensures named == (old(named) && key != "")
      ensures evicted == (old(evicted) + gone) - {key}
      ensures entries == old(entries)[key := NewEntry(provider, now)] && lastUse == old(lastUse)[key := now]
    {
      var e := NewEntry(provider, now);
      AgreesPut(ttl, before, latest, evicted, clock, now, gone, key, provider, e);
      SizeAfterPut(entries, key, e);
      UsesPut(entries, lastUse, key, e);
      Write(entries[key := e], latest[key := Assignment(provider, now)], (evicted + gone) - {key}, named && key != "",
            lastUse[key := now], now);
    }

    /** Puts a consistent state in place. */
    method Write(entries': map<string, Entry>, ghost latest': map<string, Assignment>, ghost evicted': set<string>,
                 ghost named': bool, ghost lastUse': map<string, nat>, ghost now: nat)
      requires Agrees(ttl, entries', latest', evicted', now) && UsesAgree(entries', lastUse')
      requires named' ==> "" !in entries' && (maxEntries > 0 ==> |entries'| <= maxEntries)
      requires maxEntries <= 0 ==> evicted' == {}
      modifies this
      ensures Valid() && clock == now && entries == entries' && latest == latest' && evicted == evicted'
      ensures named == named' && lastUse == lastUse'
    {
      entries := entries';
      latest, evicted, named, clock, lastUse := latest', evicted', named', now, lastUse';
    }

    function NewEntry(provider: string, now: nat): Entry {
      Entry(provider, if ttl > 0 then now + ttl else 0, now, now, 1)
    }

    method Delete(key: string, ghost now: nat)
      requires Valid() && clock <= now
      modifies this
      ensures Valid() && clock == now && named == old(named)
      ensures entries == old(entries) - {key} && latest == old(latest) - {key} && evicted == old(evicted) - {key}
    {
      SizeAfterRemove(entries, {key});
      AgreesDelete(ttl, entries, latest, evicted, clock, now, key);
      entries := entries - {key};
      latest := latest - {key};
      evicted := evicted - {key};
      clock := now;
    }

    method Clear(ghost now: nat)
      requires Valid() && clock <= now
      modifies this
      ensures Valid() && clock == now && named == old(named)
      ensures entries == map[] && latest == map[] && evicted == {}
    {
      entries, latest, evicted, clock := map[], map[], {}, now;
    }

    /** The background cleanup removes exactly the entries that have expired. */
    method RemoveExpired(now: nat)
      requires Valid() && clock <= now
      modifies this`entries, this`clock
      ensures Valid() && clock == now
      ensures entries == old(entries) - Overdue(ttl, old(entries), latest, now)
    {
      AgreesSweep(ttl, entries, latest, evicted, clock, now);
      SizeAfterRemove(entries, Stale(entries, now));
      if ttl > 0 {
        Sweep(now);
      }
      clock := now;
    }

    method Sweep(now: nat)
      modifies this`entries
      ensures entries == old(entries) - Stale(old(entries), now)
    {
      var rest := entries.Keys;
      ghost var m, stale := entries, Stale(entries, now);
      while rest != {}
        invariant rest <= m.Keys
        invariant entries == m - (stale - rest)
      {
        var key :| key in rest;
        assert entries[key] == m[key];
        rest := rest - {key};
        if now > entries[key].expiresAt {
          entries := entries - {key};
        }
      }
      assert stale - rest == stale;
    }
  }

  ghost function Gone(victim: Option<string>): set<string> {
    if victim.Some? then {victim.value} else {}
  }

  /** The entries whose stamp has passed. */
  ghost function Stale(entries: map<string, Entry>, now: nat): set<string> {
    set k | k in entries && now > entries[k].expiresAt
  }

  /** The entries whose assignment has expired. */
  ghost function Overdue(ttl: nat, entries: map<string, Entry>, latest: map<string, Assignment>, now: nat): set<string> {
    set k | k in entries && k in latest && Expired(ttl, latest[k], now)
  }

  lemma {:induction false} AgreesPut(ttl: nat, entries: map<string, Entry>, latest: map<string, Assignment>, evicted: set<string>,
                                     clock: nat, now: nat, gone: set<string>, key: string, provider: string, e: Entry)
    requires Agrees(ttl, entries, latest, evicted, clock) && clock <= now
    requires Current(ttl, e, Assignment(provider, now))
    ensures Agrees(ttl, (entries - gone)[key := e], latest[key := Assignment(provider, now)], (evicted + gone) - {key}, now)
  {
    var entries', latest', evicted' := (entries - gone)[key := e], latest[key := Assignment(provider, now)], (evicted + gone) - {key};
    forall k ensures KeyAgrees(ttl, entries', latest', evicted', now, k) {
      assert KeyAgrees(ttl, entries, latest, evicted, clock, k);
    }
  }

  lemma {:induction false} AgreesLater(ttl: nat, entries: map<string, Entry>, latest: map<string, Assignment>,
                                       evicted: set<string>, clock: nat, now: nat)
    requires Agrees(ttl, entries, latest, evicted, clock) && clock <= now
    ensures Agrees(ttl, entries, latest, evicted, now)
  {
    forall k ensures KeyAgrees(ttl, entries, latest, evicted, now, k) {
      assert KeyAgrees(ttl, entries, latest, evicted, clock, k);
    }
  }

  lemma {:induction false} AgreesTouch(ttl: nat, entries: map<string, Entry>, latest: map<string, Assignment>,
                                       evicted: set<string>, clock: nat, key: string, e: Entry)
    requires Agrees(ttl, entries, latest, evicted, clock) && key in entries
    requires e.provider == entries[key].provider && e.createdAt == entries[key].createdAt && e.expiresAt == entries[key].expiresAt
    ensures Agrees(ttl, entries[key := e], latest, evicted, clock)
  {
    var entries' := entries[key := e];
    forall k ensures KeyAgrees(ttl, entries', latest, evicted, clock, k) {
      assert KeyAgrees(ttl, entries, latest, evicted, clock, k);
    }
  }

  lemma {:induction false} AgreesDelete(ttl: nat, entries: map<string, Entry>, latest: map<string, Assignment>,
                                        evicted: set<string>, clock: nat, now: nat, key: string)
    requires Agrees(ttl, entries, latest, evicted, clock) && clock <= now
    ensures Agrees(ttl, entries - {key}, latest - {key}, evicted - {key}, now)
  {
    forall k ensures KeyAgrees(ttl, entries - {key}, latest - {key}, evicted - {key}, now, k) {
      assert KeyAgrees(ttl, entries, latest, evicted, clock, k);
    }
  }

  lemma {:induction false} AgreesSweep(ttl: nat, entries: map<string, Entry>, latest: map<string, Assignment>,
                                       evicted: set<string>, clock: nat, now: nat)
    requires Agrees(ttl, entries, latest, evicted, clock) && clock <= now
    ensures ttl > 0 ==> Stale(entries, now) == Overdue(ttl, entries, latest, now)
    ensures ttl > 0 ==> Agrees(ttl, entries - Stale(entries, now), latest, evicted, now)
    ensures ttl == 0 ==> entries - Overdue(ttl, entries, latest, now) == entries
    ensures ttl == 0 ==> Agrees(ttl, entries, latest, evicted, now)
  {
    AgreesLater(ttl, entries, latest, evicted, clock, now);
    forall k ensures k in entries ==> k in latest && Current(ttl, entries[k], latest[k]) {
      assert KeyAgrees(ttl, entries, latest, evicted, clock, k);
    }
    forall k ensures ttl > 0 ==> KeyAgrees(ttl, entries - Stale(entries, now), latest, evicted, now, k) {
      assert KeyAgrees(ttl, entries, latest, evicted, clock, k);
    }
  }

  lemma {:induction false} SizeAfterPut(m: map<string, Entry>, key: string, e: Entry)
    ensures |m[key := e]| == |m| + if key in m then 0 else 1
  {
    assert m[key := e].Keys == m.Keys + {key};
  }

  lemma {:induction false} SizeAfterRemove(m: map<string, Entry>, keys: set<string>)
    ensures |m - keys| <= |m|
    ensures keys <= m.Keys ==> |m - keys| == |m| - |keys|
  {
    assert (m - keys).Keys == m.Keys - keys;
    assert m.Keys == (m.Keys - keys) + (m.Keys * keys);
    assert keys <= m.Keys ==> m.Keys * keys == keys;
  }

  /** Without the empty key, only an empty cache has nothing to evict. */
  lemma {:induction false} NamedIsNotSpared(entries: map<string, Entry>, order: seq<string>)
    requires Visits(order, entries) && "" !in entries
    ensures Spares(entries, order) <==> |entries| == 0
    ensures !EmptyOldest(entries, order)
  {
    if |order| > 0 {
      assert order[|order| - 1] in order && order[0] in order;
      assert order[0] in entries.Keys;
    } else {
      assert entries == map[];
    }
  }

  /**
    A full cache can be left unpruned, in some order, exactly when it holds the empty key
    and every other entry was used strictly later.
   */
  lemma {:induction false} SparedIff(entries: map<string, Entry>)
    requires entries != map[]
    ensures (exists order :: Visits(order, entries) && Spares(entries, order)) <==>
      "" in entries && forall k :: k in entries && k != "" ==> entries[""].lastAccessedAt < entries[k].lastAccessedAt
  {
    if order :| Visits(order, entries) && Spares(entries, order) {
      var some :| some in entries;
      assert some in order;
      assert order[|order| - 1] in order;
      forall k | k in entries && k != "" ensures entries[""].lastAccessedAt < entries[k].lastAccessedAt {
        assert k in order;
      }
    }
    if "" in entries && forall k :: k in entries && k != "" ==> entries[""].lastAccessedAt < entries[k].lastAccessedAt {
      var others := Listed(entries.Keys - {""});
      var order := others + [""];
      forall i | 0 <= i < |others| ensures others[i] in entries && others[i] != "" { assert others[i] in others; }
      assert forall k :: k in order <==> k in entries;
      assert Visits(order, entries) && Spares(entries, order);
    }
  }

  lemma {:induction false} Listed(keys: set<string>) returns (order: seq<string>)
    ensures forall i, j :: 0 <= i < j < |order| ==> order[i] != order[j]
    ensures forall k :: k in order <==> k in keys
    decreases keys
  {
    if keys == {} {
      order := [];
    } else {
      var k :| k in keys;
      var rest := Listed(keys - {k});
      forall i | 0 <= i < |rest| ensures rest[i] != k { assert rest[i] in rest; }
      order := [k] + rest;
    }
  }

  /** A cache for one entry, which is that of the empty key. */
  method WithEmptyKey() returns (cache: StickyCache)
    ensures fresh(cache) && cache.Valid() && cache.maxEntries == 1 && cache.clock == 1
    ensures cache.entries.Keys == {""} && |cache.entries| == 1
  {
    cache := new StickyCache(0, 1);
    ghost var victim := cache.Set("", "a", 1, []);
    assert cache.entries.Keys == {""};
    assert |cache.entries| == |cache.entries.Keys|;
  }

  lemma {:induction false} OnlyEmptyKey(entries: map<string, Entry>)
    requires entries.Keys == {""}
    ensures Visits([""], entries) && Spares(entries, [""]) && "k" !in entries
  {
  }

  /** With the empty key in use, a cache for one entry ends up with more. */
  method EmptyKeyEscapes() returns (cache: StickyCache)
    ensures cache.Valid() && cache.maxEntries == 1 < |cache.entries|
  {
    cache := WithEmptyKey();
    OnlyEmptyKey(cache.entries);
    ghost var victim := cache.Set("k", "b", 2, [""]);
  }
}
