/** The search cache: an LRU list over a map of entries that expire, with lookup by similarity. */
module SearchCache {
  import opened Text
  import opened Trigrams

  type Key = seq<Byte>

  datatype Entry<R> = Entry(query: Key, trigrams: seq<int>, results: R, createdAt: int)

  const THRESHOLD: real := 0.7
  const DEFAULT_ENTRIES := 50
  const DEFAULT_TTL := 5 * 60 * 1000

  // ----- the order list ----------------------------------------------------------------------------

  predicate NoDuplicates(order: seq<Key>) {
    forall i, j :: 0 <= i < j < |order| ==> order[i] != order[j]
  }

  function KeySet(order: seq<Key>): (r: set<Key>)
    ensures forall k :: k in r <==> k in order
  {
    set k | k in order
  }

  lemma {:induction false} KeyCount(order: seq<Key>)
    requires NoDuplicates(order)
    ensures |KeySet(order)| == |order|
  {
    if order != [] {
      var k := |order| - 1;
      KeyCount(order[..k]);
      assert order == order[..k] + [order[k]];
      assert KeySet(order) == KeySet(order[..k]) + {order[k]};
    }
  }

  /** The order without the key. */
  function Drop(order: seq<Key>, key: Key): (r: seq<Key>)
    ensures forall k :: k in r <==> k in order && k != key
    ensures NoDuplicates(order) ==> NoDuplicates(r)
  {
    if order == [] then []
    else
      var k := |order| - 1;
      assert order == order[..k] + [order[k]];
      var r := Drop(order[..k], key);
      assert forall i :: 0 <= i < |r| ==> r[i] in r;
      if order[k] == key then r else r + [order[k]]
  }

  lemma {:induction false} DropAbsent(order: seq<Key>, key: Key)
    requires key !in order
    ensures Drop(order, key) == order
  {
    if order != [] {
      assert order == order[..|order| - 1] + [order[|order| - 1]];
      DropAbsent(order[..|order| - 1], key);
    }
  }

  lemma DropMore(order: seq<Key>, last: Key, key: Key)
    ensures Drop(order + [last], key) == if last == key then Drop(order, key) else Drop(order, key) + [last]
  {
    assert (order + [last])[..|order|] == order;
  }

  lemma {:induction false} DropAt(order: seq<Key>, i: nat)
    requires NoDuplicates(order) && i < |order|
    ensures Drop(order, order[i]) == order[..i] + order[i + 1..]
  {
    hide Drop;
    var k := |order| - 1;
    var front := order[..k];
    assert order == front + [order[k]];
    DropMore(front, order[k], order[i]);
    if i == k {
      DropAbsent(front, order[i]);
      assert order[..i] + order[i + 1..] == front;
    } else {
      DropAt(front, i);
      assert order[..i] + order[i + 1..] == (front[..i] + front[i + 1..]) + [order[k]];
    }
  }

  /** The keys whose entries are kept, in order. */
  function Kept<R>(order: seq<Key>, entries: map<Key, Entry<R>>, now: int, ttl: int): (r: seq<Key>)
    ensures forall k :: k in r <==> k in order && k in entries && Fresh(entries[k], now, ttl)
    ensures NoDuplicates(order) ==> NoDuplicates(r)
  {
    if order == [] then []
    else
      var k := |order| - 1;
      assert order == order[..k] + [order[k]];
      var r := Kept(order[..k], entries, now, ttl);
      if order[k] in entries && Fresh(entries[order[k]], now, ttl) then r + [order[k]] else r
  }

  predicate Fresh<R>(entry: Entry<R>, now: int, ttl: int) {
    now - entry.createdAt < ttl
  }

  // ----- recency -------------------------------------------------------------------------------------

  /** The position of the last use of the key in the log of uses, or -1. */
  function LastUse(log: seq<Key>, key: Key): (r: int)
    ensures -1 <= r < |log|
    ensures r >= 0 ==> log[r] == key
    ensures forall i :: r < i < |log| ==> log[i] != key
  {
    if log == [] then -1
    else if log[|log| - 1] == key then |log| - 1
    else LastUse(log[..|log| - 1], key)
  }

  /** The keys used after the last use of the key. */
  function UsedSince(log: seq<Key>, key: Key): set<Key> {
    set i | LastUse(log, key) < i < |log| :: log[i]
  }

  /** The order list is sorted by last use. */
  predicate ByLastUse(order: seq<Key>, log: seq<Key>) {
    && (forall k :: k in order ==> LastUse(log, k) >= 0)
    && (forall i, j :: 0 <= i < j < |order| ==> LastUse(log, order[i]) < LastUse(log, order[j]))
  }

  lemma LastUseMore(log: seq<Key>, key: Key, k: Key)
    ensures LastUse(log + [key], k) == if k == key then |log| else LastUse(log, k)
  {
    assert (log + [key])[..|log|] == log;
  }

  /** Moving the used key to the end keeps the list sorted by last use. */
  lemma MoveToEndSorts(order: seq<Key>, log: seq<Key>, key: Key)
    requires ByLastUse(order, log) && NoDuplicates(order)
    ensures ByLastUse(Drop(order, key) + [key], log + [key]) && NoDuplicates(Drop(order, key) + [key])
  {
    hide LastUse;
    DropSorts(order, log, key);
    var r := Drop(order, key);
    forall k | k in r + [key]
      ensures LastUse(log + [key], k) == if k == key then |log| else LastUse(log, k)
    {
      LastUseMore(log, key, k);
    }
    var moved := r + [key];
    forall i, j | 0 <= i < j < |moved|
      ensures LastUse(log + [key], moved[i]) < LastUse(log + [key], moved[j])
    {
      assert moved[i] in r && moved[i] in moved && moved[j] in moved;
      if j < |r| {
        assert moved[j] in r;
      }
    }
  }

  lemma {:induction false} DropSorts(order: seq<Key>, log: seq<Key>, key: Key)
    requires ByLastUse(order, log)
    ensures ByLastUse(Drop(order, key), log)
  {
    hide LastUse;
    if order != [] {
      var k := |order| - 1;
      assert order == order[..k] + [order[k]];
      DropSorts(order[..k], log, key);
      Below(order, log);
    }
  }

  lemma {:induction false} KeptSorts<R>(order: seq<Key>, log: seq<Key>, entries: map<Key, Entry<R>>, now: int, ttl: int)
    requires ByLastUse(order, log)
    ensures ByLastUse(Kept(order, entries, now, ttl), log)
  {
    hide LastUse;
    if order != [] {
      var k := |order| - 1;
      assert order == order[..k] + [order[k]];
      KeptSorts(order[..k], log, entries, now, ttl);
      Below(order, log);
    }
  }

  lemma Below(order: seq<Key>, log: seq<Key>)
    requires ByLastUse(order, log) && order != []
    ensures forall k :: k in order[..|order| - 1] ==> LastUse(log, k) < LastUse(log, order[|order| - 1])
  {
    hide LastUse;
  }

  /** What stands behind a key in the order list has been used since: as many distinct other keys. */
  lemma BehindWasUsed(order: seq<Key>, log: seq<Key>, key: Key)
    requires order != [] && NoDuplicates(order) && ByLastUse(order, log) && key !in order
    ensures |UsedSince(log + [key], order[0])| >= |order|
  {
    var used, behind := UsedSince(log + [key], order[0]), order[1..] + [key];
    LastUseMore(log, key, order[0]);
    forall k | k in behind
      ensures k in used
    {
      if k == key {
        assert (log + [key])[|log|] == key;
      } else {
        var i :| 1 <= i < |order| && order[i] == k;
        assert (log + [key])[LastUse(log, k)] == k;
      }
    }
    KeyCount(behind);
    Subset(KeySet(behind), used);
  }

  lemma {:induction false} Subset(a: set<Key>, b: set<Key>)
    requires a <= b
    ensures |a| <= |b|
    decreases a
  {
    if a != {} {
      var x :| x in a;
      Subset(a - {x}, b - {x});
    }
  }

  // ----- the cache -------------------------------------------------------------------------------------

  function Similarity(a: Key, b: Key): real {
    Jaccard(TrigramSet(a), TrigramSet(b))
  }

  /** Entries carry the trigrams of their own key. */
  predicate WellKeyed<R>(entries: map<Key, Entry<R>>) {
    forall k :: k in entries ==>
      entries[k].query == k && Increasing(entries[k].trigrams) && Elements(entries[k].trigrams) == TrigramSet(k)
  }

  /** A fresh entry that is similar enough, and no fresh entry is more similar. */
  predicate BestMatch<R>(entries: map<Key, Entry<R>>, key: Key, k: Key, now: int, ttl: int) {
    && k in entries && Fresh(entries[k], now, ttl) && Similarity(key, k) >= THRESHOLD
    && forall k' :: k' in entries && Fresh(entries[k'], now, ttl) ==> Similarity(key, k') <= Similarity(key, k)
  }

  /** `normalize` is lower-casing and trimming of the query; `now` is the clock reading of a call. */
  class SearchCache<R> {
    var entries: map<Key, Entry<R>>
    var order: seq<Key>            // least recently used first
    const maxEntries: nat
    const ttl: int
    const normalize: Key -> Key
    ghost var log: seq<Key>        // keys in the order of their uses: puts and hits

    ghost predicate Valid()
      reads this
    {
      && maxEntries > 0 && ttl > 0
      && WellKeyed(entries)
      && NoDuplicates(order) && KeySet(order) == entries.Keys && |order| <= maxEntries
      && ByLastUse(order, log)
    }

    constructor (maxEntries: int, ttl: int, normalize: Key -> Key)
      ensures Valid() && entries == map[] && log == [] && this.normalize == normalize
      ensures this.maxEntries == if maxEntries <= 0 then DEFAULT_ENTRIES else maxEntries
      ensures this.ttl == if ttl <= 0 then DEFAULT_TTL else ttl
    {
      this.maxEntries := if maxEntries <= 0 then DEFAULT_ENTRIES else maxEntries;
      this.ttl := if ttl <= 0 then DEFAULT_TTL else ttl;
      this.normalize := normalize;
      entries, order, log := map[], [], [];
    }

    method MoveToEnd(key: Key)
      requires NoDuplicates(order)
      modifies this`order
      ensures order == Drop(old(order), key) + [key]
    {
      var i := 0;
      while i < |order|
        invariant 0 <= i <= |order| && order == old(order)
        invariant key !in order[..i]
      {
        if order[i] == key {
          DropAt(order, i);
          order := order[..i] + order[i + 1..] + [key];
          return;
        }
        i := i + 1;
      }
      assert order[..i] == order;
      DropAbsent(order, key);
      order := order + [key];
    }

    /** The most similar fresh entry, whatever the order in which the map is walked. */
    method FindSimilar(key: Key, now: int) returns (best: Option<Key>)
      requires Valid()
      ensures best.Some? ==> BestMatch(entries, key, best.value, now, ttl)
      ensures best.None? ==>
                forall k :: k in entries && Fresh(entries[k], now, ttl) ==> Similarity(key, k) < THRESHOLD
    {
      var trigrams := BuildTrigrams(key);
      var bestEntry: Option<Entry<R>> := None;
      var bestSim := 0.0;
      var todo := entries.Keys;
      while todo != {}
        invariant todo <= entries.Keys
        invariant bestEntry.Some? ==>
                    var k := bestEntry.value.query;
                    k in entries && Fresh(entries[k], now, ttl) && bestSim == Similarity(key, k)
        invariant bestEntry.None? ==> bestSim == 0.0
        invariant forall k :: k in entries && k !in todo && Fresh(entries[k], now, ttl) ==>
                    Similarity(key, k) <= bestSim
        decreases todo
      {
        var k :| k in todo;
        todo := todo - {k};
        if Fresh(entries[k], now, ttl) {
          var sim := JaccardSimilarity(trigrams, entries[k].trigrams);
          if sim > bestSim {
            bestSim, bestEntry := sim, Some(entries[k]);
          }
        }
      }
      best := if bestSim >= THRESHOLD && bestEntry.Some? then Some(bestEntry.value.query) else None;
    }

    /**
     * An exact fresh match wins. Otherwise the call hits exactly if some fresh entry is similar enough, and then
     * answers with a most similar one. `used` is the entry that was hit; it becomes the most recently used.
     */
    method Get(query: Key, now: int) returns (results: Option<R>, ghost used: Option<Key>)
      requires Valid()
      modifies this`order, this`log
      ensures Valid()
      ensures used.Some? ==> used.value in entries && Fresh(entries[used.value], now, ttl)
      ensures results == if used.Some? then Some(entries[used.value].results) else None
      ensures used.None? ==> order == old(order) && log == old(log)
      ensures used.Some? ==> order == Drop(old(order), used.value) + [used.value] && log == old(log) + [used.value]
      ensures var key := normalize(query);
              if key == [] then used == None
              else if key in entries && Fresh(entries[key], now, ttl) then used == Some(key)
              else if used.Some? then BestMatch(entries, key, used.value, now, ttl)
              else forall k :: k in entries && Fresh(entries[k], now, ttl) ==> Similarity(key, k) < THRESHOLD
    {
      var key := normalize(query);
      if key == [] {
        return None, None;
      }
      if key in entries && Fresh(entries[key], now, ttl) {
        Touch(key);
        return Some(entries[key].results), Some(key);
      }
      var best := FindSimilar(key, now);
      if best.Some? {
        Touch(best.value);
        return Some(entries[best.value].results), best;
      }
      return None, None;
    }

    method Touch(key: Key)
      requires Valid() && key in entries
      modifies this`order, this`log
      ensures Valid() && order == Drop(old(order), key) + [key] && log == old(log) + [key]
    {
      MoveToEndSorts(order, log, key);
      KeyCount(order);
      MoveToEnd(key);
      KeyCount(order);
      log := log + [key];
      assert KeySet(order) == entries.Keys;
    }

    method EvictExpired(now: int)
      requires Valid()
      modifies this`order, this`entries
      ensures Valid() && order == Kept(old(order), old(entries), now, ttl)
      ensures entries == Purged(old(entries), KeySet(old(order)), now, ttl)
    {
      hide Kept, Purged, KeySet, Fresh, NoDuplicates, WellKeyed, ByLastUse;
      ghost var was := entries;
      var newOrder: seq<Key> := [];
      PurgedNothing(entries, now, ttl);
      for i := 0 to |order|
        invariant order == old(order) && newOrder == Kept(order[..i], was, now, ttl)
        invariant entries == Purged(was, KeySet(order[..i]), now, ttl)
      {
        var key := order[i];
        PurgedMore(was, order, i, now, ttl);
        if key !in entries || !Fresh(entries[key], now, ttl) {
          entries := entries - {key};
        } else {
          newOrder := newOrder + [key];
        }
      }
      assert order[..|order|] == order;
      KeptIsValid(order, log, was, now, ttl);
      order := newOrder;
    }

    /** Make room: drop the least recently used entry if the cache is full. */
    method EvictOldest()
      requires Valid()
      modifies this`order, this`entries
      ensures Valid() && |order| < maxEntries
      ensures |old(order)| < maxEntries ==> order == old(order) && entries == old(entries)
      ensures |old(order)| == maxEntries ==>
                order == old(order)[1..] && entries == old(entries) - {old(order)[0]}
    {
      hide WellKeyed, NoDuplicates, KeySet, ByLastUse;
      KeyCount(order);
      while |entries| >= maxEntries && |order| > 0
        invariant |order| == |entries|
        invariant if |order| < |old(order)| then
                    |old(order)| == maxEntries && order == old(order)[1..] && entries == old(entries) - {old(order)[0]}
                  else order == old(order) && entries == old(entries)
        invariant Valid()
        decreases |order|
      {
        var oldest := order[0];
        TailIsValid(order, log, entries);
        order := order[1..];
        entries := entries - {oldest};
        KeyCount(order);
      }
    }

    /** A key that is in the cache gets the new entry and moves to the end of the order. */
    method Renew(key: Key, entry: Entry<R>)
      requires Valid() && key in entries && WellKeyed(map[key := entry])
      modifies this`order, this`entries, this`log
      ensures Valid() && log == old(log) + [key]
      ensures entries == old(entries)[key := entry]
    {
      hide WellKeyed, NoDuplicates, ByLastUse, Drop;
      OneMore(order, entries, key, entry);
      entries := entries[key := entry];
      assert entries.Keys == old(entries.Keys);
      Touch(key);
    }

    /** A key that is not in the cache goes to the end of the order. */
    method Insert(key: Key, entry: Entry<R>)
      requires Valid() && key !in entries && WellKeyed(map[key := entry])
      modifies this`order, this`entries, this`log
      ensures Valid() && log == old(log) + [key]
      ensures key in entries && entries[key] == entry
      ensures forall k :: k in entries && k != key ==> k in old(entries) && entries[k] == old(entries)[k]
      ensures forall k :: k in old(entries) && k !in entries ==> |UsedSince(log, k)| >= maxEntries
    {
      hide UsedSince, WellKeyed, NoDuplicates, ByLastUse, Drop;
      if |order| == maxEntries {
        BehindWasUsed(order, log, key);
      }
      EvictOldest();
      MoveToEndSorts(order, log, key);
      DropAbsent(order, key);
      OneMore(order, entries, key, entry);
      entries := entries[key := entry];
      order := order + [key];
      log := log + [key];
    }

    method Place(key: Key, entry: Entry<R>)
      requires Valid() && entry.query == key
      requires Increasing(entry.trigrams) && Elements(entry.trigrams) == TrigramSet(key)
      modifies this`order, this`entries, this`log
      ensures Valid() && log == old(log) + [key]
      ensures key in entries && entries[key] == entry
      ensures forall k :: k in entries && k != key ==> k in old(entries) && entries[k] == old(entries)[k]
      ensures forall k :: k in old(entries) && k !in entries ==> |UsedSince(log, k)| >= maxEntries
    {
      hide SearchCache.Valid, UsedSince, Increasing, Elements, TrigramSet;
      SoleEntry(entry);
      if key in entries {
        Renew(key, entry);
      } else {
        Insert(key, entry);
      }
    }

    /**
     * Store the results under the normalized query. Expired entries go; an entry that has not expired goes only if at
     * least maxEntries distinct other keys have been put or hit since its last use.
     */
    method Put(query: Key, results: R, now: int)
      requires Valid()
      modifies this`order, this`entries, this`log
      ensures Valid()
      ensures var key := normalize(query);
              if key == [] then entries == old(entries) && order == old(order) && log == old(log)
              else
                && log == old(log) + [key]
                && key in entries && entries[key].results == results && entries[key].createdAt == now
                && (forall k :: k in entries && k != key ==>
                      k in old(entries) && entries[k] == old(entries)[k] && Fresh(entries[k], now, ttl))
                && (forall k :: k in old(entries) && k != key && Fresh(old(entries)[k], now, ttl) && k !in entries ==>
                      |UsedSince(log, k)| >= maxEntries)
    {
      var key := normalize(query);
      if key != [] {
        PurgedAll(entries, order, now, ttl);
        hide SearchCache.Valid, UsedSince, Fresh, Purged, KeySet, Kept, WellKeyed, Increasing, Elements, TrigramSet;
        EvictExpired(now);
        var trigrams := BuildTrigrams(key);
        Place(key, Entry(key, trigrams, results, now));
      }
    }
  }

  lemma SoleEntry<R>(entry: Entry<R>)
    requires Increasing(entry.trigrams) && Elements(entry.trigrams) == TrigramSet(entry.query)
    ensures WellKeyed(map[entry.query := entry])
  {
  }

  lemma OneMore<R>(order: seq<Key>, entries: map<Key, Entry<R>>, key: Key, entry: Entry<R>)
    requires WellKeyed(entries) && WellKeyed(map[key := entry]) && KeySet(order) == entries.Keys
    ensures WellKeyed(entries[key := entry]) && KeySet(order + [key]) == entries[key := entry].Keys
  {
    hide Increasing, TrigramSet;
    assert key in map[key := entry];
  }

  lemma TailIsValid<R>(order: seq<Key>, log: seq<Key>, entries: map<Key, Entry<R>>)
    requires order != [] && WellKeyed(entries)
    requires NoDuplicates(order) && KeySet(order) == entries.Keys && ByLastUse(order, log)
    ensures var r, left := order[1..], entries - {order[0]};
            WellKeyed(left) && NoDuplicates(r) && KeySet(r) == left.Keys && ByLastUse(r, log)
  {
    hide LastUse, Increasing, TrigramSet;
    assert order == [order[0]] + order[1..];
  }

  /** The entries without the expired ones among the given keys. */
  function Purged<R>(entries: map<Key, Entry<R>>, keys: set<Key>, now: int, ttl: int): map<Key, Entry<R>> {
    map k | k in entries && (k in keys ==> Fresh(entries[k], now, ttl)) :: entries[k]
  }

  lemma PurgedNothing<R>(entries: map<Key, Entry<R>>, now: int, ttl: int)
    ensures Purged(entries, KeySet([]), now, ttl) == entries && Kept([], entries, now, ttl) == []
  {
  }

  lemma PurgedAll<R>(entries: map<Key, Entry<R>>, order: seq<Key>, now: int, ttl: int)
    requires KeySet(order) == entries.Keys
    ensures var left := Purged(entries, KeySet(order), now, ttl);
            && (forall k :: k in left <==> k in entries && Fresh(entries[k], now, ttl))
            && (forall k :: k in left ==> left[k] == entries[k])
  {
  }

  lemma PurgedMore<R>(entries: map<Key, Entry<R>>, order: seq<Key>, i: nat, now: int, ttl: int)
    requires NoDuplicates(order) && i < |order|
    ensures var key, before := order[i], Purged(entries, KeySet(order[..i]), now, ttl);
            && Purged(entries, KeySet(order[..i + 1]), now, ttl)
               == (if key in before && Fresh(before[key], now, ttl) then before else before - {key})
            && Kept(order[..i + 1], entries, now, ttl)
               == Kept(order[..i], entries, now, ttl)
                  + (if key in before && Fresh(before[key], now, ttl) then [key] else [])
  {
    hide NoDuplicates, Fresh;
    var key := order[i];
    FirstIsOnly(order, i);
    assert order[..i + 1] == order[..i] + [key] && order[..i + 1][..i] == order[..i];
    assert KeySet(order[..i + 1]) == KeySet(order[..i]) + {key};
  }

  lemma FirstIsOnly(order: seq<Key>, i: nat)
    requires NoDuplicates(order) && i < |order|
    ensures order[i] !in order[..i]
  {
  }

  lemma KeptIsValid<R>(order: seq<Key>, log: seq<Key>, entries: map<Key, Entry<R>>, now: int, ttl: int)
    requires WellKeyed(entries) && NoDuplicates(order) && KeySet(order) == entries.Keys && ByLastUse(order, log)
    ensures var r, left := Kept(order, entries, now, ttl), Purged(entries, KeySet(order), now, ttl);
            && NoDuplicates(r) && KeySet(r) == left.Keys && |r| <= |order|
            && WellKeyed(left) && ByLastUse(r, log)
  {
    hide LastUse;
    var r := Kept(order, entries, now, ttl);
    KeptSorts(order, log, entries, now, ttl);
    KeyCount(order);
    KeyCount(r);
    Subset(KeySet(r), KeySet(order));
    assert KeySet(r) == Purged(entries, KeySet(order), now, ttl).Keys;
  }
}
