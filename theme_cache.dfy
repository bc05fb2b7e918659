/**
 * The theme cache: analyses keyed by wallpaper path, each stamped with the time it was
 * stored, evicted oldest first, and written to / read back from the persisted option
 * `wallpaper.theme.cache` (a plain object of path -> record).
 */
module ThemeCache {
  import opened Wrappers
  import opened OrderedMap
  import opened Sorting
  import opened WallpaperTypes

  /** The in-memory `Map<string, CachedThemeEntry>`, in insertion order. */
  type Cache = seq<Entry<CachedThemeEntry>>

  /** The cache size the settings ship with. */
  const DefaultMaxCacheSize: nat := 100

  /** What a persisted object may hold under one path. */
  datatype PersistedValue =
    | PNull                                                    // `null`: `typeof` gives "object", reading a field throws
    | PScalar                                                  // a string, number or boolean
    | PObject(props: ThemeProperties, timestamp: Option<int>)  // an object; `None`: its timestamp is missing, 0 or NaN

  /** `typeof entry === "object" && entry.timestamp` */
  predicate Truthy(v: PersistedValue) {
    v.PObject? && v.timestamp.Some? && v.timestamp.value != 0
  }

  function SortKey(e: Entry<CachedThemeEntry>): (int, int) {
    (e.value.timestamp, 0)
  }

  /** The entries sorted by `a[1].timestamp - b[1].timestamp`, ties in insertion order. */
  function OldestFirst(c: Cache): (r: Cache)
    ensures SortedBy(r, SortKey) && multiset(r) == multiset(c) && |r| == |c|
    ensures forall t :: WithKey(r, SortKey, (t, 0)) == WithKey(c, SortKey, (t, 0))
  {
    SortBy(c, SortKey)
  }

  function KeysOf(c: Cache): (ks: seq<string>)
    ensures |ks| == |c| && forall i :: 0 <= i < |c| ==> ks[i] == c[i].key
  {
    seq(|c|, i requires 0 <= i < |c| => c[i].key)
  }

  /** `themeCache.delete(k)` for each `k` of `ks`, in order. */
  function DeleteKeys(c: Cache, ks: seq<string>): (r: Cache)
    requires UniqueKeys(c)
    ensures UniqueKeys(r)
    ensures forall k :: Get(r, k) == if k in ks then None else Get(c, k)
  {
    if ks == [] then c
    else
      var r := Delete(DeleteKeys(c, ks[..|ks| - 1]), ks[|ks| - 1]);
      DeleteLaws(DeleteKeys(c, ks[..|ks| - 1]), ks[|ks| - 1]);
      assert forall k :: k in ks <==> k in ks[..|ks| - 1] || k == ks[|ks| - 1] by {
        assert ks == ks[..|ks| - 1] + [ks[|ks| - 1]];
      }
      r
  }

  /** Deleting the keys of one more entry is one more `delete`. */
  lemma DeleteKeysStep(c: Cache, entries: Cache, i: nat)
    requires UniqueKeys(c) && i < |entries|
    ensures DeleteKeys(c, KeysOf(entries[..i + 1])) == Delete(DeleteKeys(c, KeysOf(entries[..i])), entries[i].key)
  {
    var ks := KeysOf(entries[..i + 1]);
    assert ks[..i] == KeysOf(entries[..i]);
  }

  predicate Distinct(ks: seq<string>) {
    forall i, j :: 0 <= i < j < |ks| ==> ks[i] != ks[j]
  }

  /** Deleting distinct keys that are all present shrinks the cache by one per key. */
  lemma {:induction false} DeleteKeysSize(c: Cache, ks: seq<string>)
    requires UniqueKeys(c) && Distinct(ks)
    requires forall k :: k in ks ==> HasKey(c, k)
    ensures |DeleteKeys(c, ks)| == |c| - |ks|
  {
    if ks != [] {
      var init, last := ks[..|ks| - 1], ks[|ks| - 1];
      assert forall k :: k in init ==> k in ks;
      DeleteKeysSize(c, init);
      assert last !in init;
      assert Get(c, last).Some?;
      assert Get(DeleteKeys(c, init), last).Some?;
    }
  }

  /**
   * `cleanupThemeCache`: when the cache holds more than `maxSize` entries, the first
   * `size - maxSize` entries of the oldest-first order are deleted; otherwise nothing.
   */
  function Cleanup(c: Cache, maxSize: nat): (r: Cache)
    requires UniqueKeys(c)
    ensures UniqueKeys(r)
  {
    if |c| <= maxSize then c else DeleteKeys(c, KeysOf(OldestFirst(c)[..|c| - maxSize]))
  }

  lemma CleanupUnfold(c: Cache, maxSize: nat)
    requires UniqueKeys(c) && |c| > maxSize
    ensures Cleanup(c, maxSize) == DeleteKeys(c, KeysOf(OldestFirst(c)[..|c| - maxSize]))
  {
  }

  lemma CleanupNoop(c: Cache, maxSize: nat)
    requires UniqueKeys(c) && |c| <= maxSize
    ensures Cleanup(c, maxSize) == c
  {
  }

  /** The keys cleanup deletes: the first `n` of the oldest-first order. */
  function Evicted(c: Cache, n: nat): (ks: seq<string>)
    requires n <= |c|
    ensures |ks| == n
  {
    KeysOf(OldestFirst(c)[..n])
  }

  lemma EvictedKeys(c: Cache, n: nat)
    requires UniqueKeys(c) && n <= |c|
    ensures Distinct(Evicted(c, n))
    ensures forall k :: k in Evicted(c, n) ==> HasKey(c, k)
  {
    var s := OldestFirst(c);
    var ks := Evicted(c, n);
    UniqueKeysPermutation(c, s);
    forall k | k in ks ensures HasKey(c, k) {
      var i :| 0 <= i < n && ks[i] == k;
      assert s[i] in multiset(c);
    }
  }

  /** Each evicted key belongs to an entry no younger than any entry whose key is not evicted. */
  lemma EvictedAreOldest(c: Cache, n: nat, e: Entry<CachedThemeEntry>, f: Entry<CachedThemeEntry>)
    requires UniqueKeys(c) && n <= |c|
    requires e in c && e.key in Evicted(c, n)
    requires f in c && f.key !in Evicted(c, n)
    ensures e.value.timestamp <= f.value.timestamp
  {
    var s := OldestFirst(c);
    var i := EvictedAt(c, s, n, e);
    var j := KeptAt(c, s, n, f);
    assert KeyLe(SortKey(s[i]), SortKey(s[j]));
  }

  /** An evicted entry sits among the first `n` of a reordering of the cache. */
  lemma EvictedAt(c: Cache, s: Cache, n: nat, e: Entry<CachedThemeEntry>) returns (i: nat)
    requires UniqueKeys(c) && multiset(s) == multiset(c) && n <= |s|
    requires e in c && e.key in KeysOf(s[..n])
    ensures i < n && s[i] == e
  {
    var ks := KeysOf(s[..n]);
    i :| 0 <= i < n && ks[i] == e.key;
    assert s[i] in multiset(c);
    SameKeySameEntry(c, s[i], e);
  }

  /** A kept entry sits after the first `n` of a reordering of the cache. */
  lemma KeptAt(c: Cache, s: Cache, n: nat, f: Entry<CachedThemeEntry>) returns (j: nat)
    requires multiset(s) == multiset(c) && n <= |s|
    requires f in c && f.key !in KeysOf(s[..n])
    ensures n <= j < |s| && s[j] == f
  {
    assert f in multiset(s);
    j :| 0 <= j < |s| && s[j] == f;
  }

  /**
   * Over the limit, cleanup removes exactly `size - maxSize` entries, keeps the others
   * unchanged, and never removes an entry younger than one it keeps.
   */
  lemma CleanupEvictsOldest(c: Cache, maxSize: nat)
    requires UniqueKeys(c) && |c| > maxSize
    ensures |Cleanup(c, maxSize)| == maxSize
    ensures forall f :: f in Cleanup(c, maxSize) ==> f in c
    ensures forall e, f :: e in c && !HasKey(Cleanup(c, maxSize), e.key) && f in Cleanup(c, maxSize) ==>
      e.value.timestamp <= f.value.timestamp
  {
    var n := |c| - maxSize;
    var ks := Evicted(c, n);
    var r := Cleanup(c, maxSize);
    assert r == DeleteKeys(c, ks);
    EvictedKeys(c, n);
    DeleteKeysSize(c, ks);
    forall f | f in r ensures f in c && f.key !in ks {
      InIffGet(r, f);
      InIffGet(c, f);
    }
    forall e, f | e in c && !HasKey(r, e.key) && f in r
      ensures e.value.timestamp <= f.value.timestamp
    {
      InIffGet(c, e);
      EvictedAreOldest(c, n, e, f);
    }
  }

  /** What `saveThemeCache` writes: one object per entry, in cache order. */
  function Snapshot(c: Cache): (stored: seq<Entry<PersistedValue>>)
    ensures |stored| == |c|
    ensures forall i :: 0 <= i < |c| ==> stored[i] == Entry(c[i].key, PObject(Properties(c[i].value), Some(c[i].value.timestamp)))
  {
    seq(|c|, i requires 0 <= i < |c| => Entry(c[i].key, PObject(Properties(c[i].value), Some(c[i].value.timestamp))))
  }

  /**
   * The loop of `loadThemeCache` from `cache` over the remaining `stored` entries: truthy
   * objects are set, anything else is skipped, and a `null` throws, ending the loop
   * (the returned flag says so).
   */
  function Reload(cache: Cache, stored: seq<Entry<PersistedValue>>): (Cache, bool)
    decreases |stored|
  {
    if stored == [] then (cache, false)
    else if stored[0].value.PNull? then (cache, true)
    else if Truthy(stored[0].value) then
      Reload(Put(cache, stored[0].key, Revived(stored[0]).value), stored[1..])
    else Reload(cache, stored[1..])
  }

  /** The position of the first `null`, or the length when there is none. */
  function FirstNull(stored: seq<Entry<PersistedValue>>): (j: nat)
    ensures j <= |stored|
    ensures forall i :: 0 <= i < j ==> !stored[i].value.PNull?
    ensures j < |stored| ==> stored[j].value.PNull?
  {
    if stored == [] || stored[0].value.PNull? then 0 else FirstNull(stored[1..]) + 1
  }

  /** The truthy objects of `stored`, in order, as cache entries. */
  function TruthyEntries(stored: seq<Entry<PersistedValue>>): (c: Cache)
    ensures |c| <= |stored|
  {
    if stored == [] then []
    else
      var rest := TruthyEntries(stored[1..]);
      if Truthy(stored[0].value) then [Revived(stored[0])] + rest else rest
  }

  /** Every entry read back comes from a truthy stored object under the same key. */
  lemma {:induction false} TruthyEntriesFrom(stored: seq<Entry<PersistedValue>>, e: Entry<CachedThemeEntry>)
    requires e in TruthyEntries(stored)
    ensures exists i :: 0 <= i < |stored| && stored[i].key == e.key && Truthy(stored[i].value)
  {
    var rest := stored[1..];
    if Truthy(stored[0].value) && e == Revived(stored[0]) {
      assert stored[0].key == e.key;
    } else {
      TruthyEntriesFrom(rest, e);
      var i :| 0 <= i < |rest| && rest[i].key == e.key && Truthy(rest[i].value);
      assert stored[i + 1] == rest[i];
    }
  }

  /** The entry a truthy persisted object becomes. */
  function Revived(e: Entry<PersistedValue>): Entry<CachedThemeEntry>
    requires Truthy(e.value)
  {
    Entry(e.key, ToCached(e.value.props, e.value.timestamp.value))
  }

  lemma TruthyPrefixStep(stored: seq<Entry<PersistedValue>>)
    requires stored != [] && !stored[0].value.PNull?
    ensures var rest := stored[1..];
      TruthyEntries(stored[..FirstNull(stored)]) ==
        (if Truthy(stored[0].value) then [Revived(stored[0])] else []) + TruthyEntries(rest[..FirstNull(rest)])
  {
    var rest := stored[1..];
    assert stored[..FirstNull(stored)][1..] == rest[..FirstNull(rest)];
  }

  lemma FreshAfterAppend(acc: Cache, e: Entry<CachedThemeEntry>, stored: seq<Entry<PersistedValue>>)
    requires UniqueKeys(stored) && stored != [] && e.key == stored[0].key
    requires forall i :: 0 <= i < |stored| ==> !HasKey(acc, stored[i].key)
    ensures forall i :: 0 <= i < |stored| - 1 ==> !HasKey(acc + [e], stored[1..][i].key)
  {
    forall i | 0 <= i < |stored| - 1 ensures !HasKey(acc + [e], stored[1..][i].key) {
      assert stored[1..][i] == stored[i + 1];
      assert !HasKey(acc, stored[i + 1].key);
    }
  }

  lemma {:induction false} ReloadAppends(acc: Cache, stored: seq<Entry<PersistedValue>>)
    requires UniqueKeys(stored)
    requires forall i :: 0 <= i < |stored| ==> !HasKey(acc, stored[i].key)
    ensures Reload(acc, stored) == (acc + TruthyEntries(stored[..FirstNull(stored)]), FirstNull(stored) < |stored|)
    decreases |stored|
  {
    if stored != [] && !stored[0].value.PNull? {
      var rest := stored[1..];
      if Truthy(stored[0].value) {
        var e := Revived(stored[0]);
        FreshAfterAppend(acc, e, stored);
        ReloadAppends(acc + [e], rest);
      } else {
        ReloadAppends(acc, rest);
      }
      ReloadAppendsStep(acc, stored);
    } else {
      assert stored[..FirstNull(stored)] == [];
      assert acc + [] == acc;
    }
  }

  /** One entry of the loop, given what the rest of the loop does. */
  lemma ReloadAppendsStep(acc: Cache, stored: seq<Entry<PersistedValue>>)
    requires stored != [] && !stored[0].value.PNull?
    requires !HasKey(acc, stored[0].key)
    requires var rest := stored[1..];
      var acc' := if Truthy(stored[0].value) then acc + [Revived(stored[0])] else acc;
      Reload(acc', rest) == (acc' + TruthyEntries(rest[..FirstNull(rest)]), FirstNull(rest) < |rest|)
    ensures Reload(acc, stored) == (acc + TruthyEntries(stored[..FirstNull(stored)]), FirstNull(stored) < |stored|)
  {
    var rest := stored[1..];
    TruthyPrefixStep(stored);
    assert FirstNull(stored) == FirstNull(rest) + 1;
    if Truthy(stored[0].value) {
      var e := Revived(stored[0]);
      assert Put(acc, stored[0].key, e.value) == acc + [e];
      ReloadTruthyStep(acc, stored);
      var t := TruthyEntries(rest[..FirstNull(rest)]);
      assert (acc + [e]) + t == acc + ([e] + t);
    } else {
      ReloadSkipStep(acc, stored);
      var t := TruthyEntries(rest[..FirstNull(rest)]);
      assert [] + t == t;
    }
  }

  lemma ReloadTruthyStep(acc: Cache, stored: seq<Entry<PersistedValue>>)
    requires stored != [] && !stored[0].value.PNull? && Truthy(stored[0].value)
    requires Put(acc, stored[0].key, Revived(stored[0]).value) == acc + [Revived(stored[0])]
    ensures Reload(acc, stored) == Reload(acc + [Revived(stored[0])], stored[1..])
  {
  }

  lemma ReloadSkipStep(acc: Cache, stored: seq<Entry<PersistedValue>>)
    requires stored != [] && !stored[0].value.PNull? && !Truthy(stored[0].value)
    ensures Reload(acc, stored) == Reload(acc, stored[1..])
  {
  }

  /**
   * Reading back keeps exactly the truthy objects before the first `null`, in order,
   * and reports a failure exactly when there is a `null`.
   */
  lemma ReloadFilters(stored: seq<Entry<PersistedValue>>)
    requires UniqueKeys(stored)
    ensures Reload([], stored) == (TruthyEntries(stored[..FirstNull(stored)]), FirstNull(stored) < |stored|)
  {
    var empty: Cache := [];
    assert forall i :: 0 <= i < |stored| ==> !HasKey(empty, stored[i].key);
    ReloadAppends(empty, stored);
    assert empty + TruthyEntries(stored[..FirstNull(stored)]) == TruthyEntries(stored[..FirstNull(stored)]);
  }

  /** Writing the cache out and reading it back into an empty cache gives the same cache. */
  lemma ReloadSnapshot(c: Cache)
    requires UniqueKeys(c)
    requires forall i :: 0 <= i < |c| ==> c[i].value.timestamp != 0
    ensures Reload([], Snapshot(c)) == (c, false)
  {
    var stored := Snapshot(c);
    assert UniqueKeys(stored);
    ReloadFilters(stored);
    assert FirstNull(stored) == |stored|;
    assert stored[..|stored|] == stored;
    TruthyOfSnapshot(c);
  }

  lemma {:induction false} TruthyOfSnapshot(c: Cache)
    requires forall i :: 0 <= i < |c| ==> c[i].value.timestamp != 0
    ensures TruthyEntries(Snapshot(c)) == c
  {
    if c != [] {
      assert Snapshot(c)[1..] == Snapshot(c[1..]);
      TruthyOfSnapshot(c[1..]);
      CachedRoundTrip(c[0].value);
    }
  }
}
