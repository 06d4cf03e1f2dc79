/** The bounded, expiring dedupe index (core/store/dedupe/index.go). */
module Dedupe {
  import opened Prelude
  import opened Text
  import opened Sorting

  datatype Entry = Entry(expiresAt: int, lastSeen: int)
  type Entries = map<string, Entry>

  function Purged(entries: Entries, now: int): Entries {
    map k | k in entries && entries[k].expiresAt > now :: entries[k]
  }

  predicate Live(entries: Entries, key: string, now: int) {
    key in entries && entries[key].expiresAt > now
  }

  function Marked(entries: Entries, key: string, now: int, ttl: int): Entries {
    Purged(entries[key := Entry(now + ttl, now)], now)
  }

  ghost predicate Submap(small: Entries, big: Entries) {
    forall k :: k in small ==> k in big && small[k] == big[k]
  }

  /** What eviction may leave of `live`: a part of it, no larger than allowed, that keeps the most
      recently seen entries. Entries seen at the same moment may go in any order. */
  ghost predicate Evicted(live: Entries, maxSize: int, kept: Entries) {
    && Submap(kept, live)
    && |kept| == (if |live| <= maxSize then |live| else if maxSize < 0 then 0 else maxSize)
    && (forall k, e :: k in kept && e in live && e !in kept ==> live[e].lastSeen <= kept[k].lastSeen)
  }

  datatype Pair = Pair(key: string, seen: int)

  predicate SeenBefore(a: Pair, b: Pair) {
    a.seen < b.seen
  }

  /** `pairs` lists the keys of `entries` once each, with their last-seen times. */
  ghost predicate Lists(pairs: seq<Pair>, entries: Entries) {
    && |pairs| == |entries|
    && (forall p :: p in pairs ==> p.key in entries && entries[p.key].lastSeen == p.seen)
    && (forall i, j :: 0 <= i < j < |pairs| ==> pairs[i].key != pairs[j].key)
    && (forall k :: k in entries ==> Pair(k, entries[k].lastSeen) in pairs)
  }

  lemma ListsPermuted(xs: seq<Pair>, ys: seq<Pair>, entries: Entries)
    requires Lists(xs, entries) && multiset(xs) == multiset(ys)
    ensures Lists(ys, entries)
  {
    assert |xs| == |multiset(xs)| == |ys|;
    forall p | p in ys ensures p in xs { Member(p, ys, xs); }
    forall p | p in xs ensures p in ys { Member(p, xs, ys); }
    forall i, j | 0 <= i < j < |ys| && ys[i].key == ys[j].key ensures false {
      var p := ys[i];
      assert ys[j] == p;
      Twice(ys, i, j);
      assert multiset(xs)[p] >= 2;
      Once(xs, p);
    }
  }

  lemma Twice<T>(xs: seq<T>, i: nat, j: nat)
    requires i < j < |xs| && xs[i] == xs[j]
    ensures multiset(xs)[xs[i]] >= 2
  {
    assert xs == xs[..i] + [xs[i]] + xs[i + 1..j] + [xs[j]] + xs[j + 1..];
  }

  lemma {:induction false} Once(xs: seq<Pair>, p: Pair)
    requires forall i, j :: 0 <= i < j < |xs| ==> xs[i].key != xs[j].key
    ensures multiset(xs)[p] <= 1
  {
    if xs != [] {
      var init, last := xs[..|xs| - 1], xs[|xs| - 1];
      assert xs == init + [last];
      Once(init, p);
      assert forall i :: 0 <= i < |init| ==> init[i] == xs[i] && init[i].key != last.key;
      assert multiset(init)[last] == 0;
    }
  }

  class Index {
    var entries: Entries
    const ttl: int
    const maxSize: int

    /** `dedupe.New`: non-positive settings fall back to a day (in seconds) and 10000 entries. */
    constructor (ttl: int, maxSize: int)
      ensures entries == map[]
      ensures this.ttl == (if ttl <= 0 then 86400 else ttl) && this.maxSize == (if maxSize <= 0 then 10000 else maxSize)
    {
      entries := map[];
      this.ttl := if ttl <= 0 then 86400 else ttl;
      this.maxSize := if maxSize <= 0 then 10000 else maxSize;
    }

    method Purge(now: int)
      modifies this
      ensures entries == Purged(old(entries), now)
    {
      var todo := entries.Keys;
      while todo != {}
        invariant todo <= entries.Keys <= old(entries).Keys
        invariant Submap(entries, old(entries))
        invariant forall k :: k in old(entries) && k !in todo ==> (k in entries <==> old(entries)[k].expiresAt > now)
      {
        var key :| key in todo;
        todo := todo - {key};
        if entries[key].expiresAt <= now {
          entries := entries - {key};
        }
      }
    }

    method Seen(key: string, now: int) returns (seen: bool)
      modifies this
      ensures seen <==> Live(old(entries), key, now)
      ensures entries == if seen then Purged(old(entries), now)[key := old(entries)[key].(lastSeen := now)]
                         else Purged(old(entries), now)
    {
      Purge(now);
      if key !in entries {
        return false;
      }
      entries := entries[key := entries[key].(lastSeen := now)];
      return true;
    }

    method Mark(key: string, now: int)
      modifies this
      ensures Evicted(Marked(old(entries), key, now, ttl), maxSize, entries)
    {
      entries := entries[key := Entry(now + ttl, now)];
      Purge(now);
      if |entries| <= maxSize {
        return;
      }
      ghost var live := entries;
      var pairs := ListPairs();
      pairs := SortBy(SeenBefore, pairs);
      Evict(pairs, live);
    }

    /** The pairs in whatever order the map iteration yields them. */
    method ListPairs() returns (pairs: seq<Pair>)
      ensures Lists(SortBy(SeenBefore, pairs), entries) && Ascending(SeenBefore, SortBy(SeenBefore, pairs))
    {
      pairs := [];
      var todo := entries.Keys;
      while todo != {}
        invariant todo <= entries.Keys
        invariant |pairs| + |todo| == |entries|
        invariant forall p :: p in pairs ==> p.key in entries && p.key !in todo && entries[p.key].lastSeen == p.seen
        invariant forall i, j :: 0 <= i < j < |pairs| ==> pairs[i].key != pairs[j].key
        invariant forall k :: k in entries && k !in todo ==> Pair(k, entries[k].lastSeen) in pairs
      {
        var key :| key in todo;
        todo := todo - {key};
        pairs := pairs + [Pair(key, entries[key].lastSeen)];
      }
      ListsPermuted(pairs, SortBy(SeenBefore, pairs), entries);
      SortByAscending(SeenBefore, pairs);
    }

    /** Delete the least recently seen keys until the index fits. */
    method Evict(sorted: seq<Pair>, ghost live: Entries)
      requires entries == live && Lists(sorted, live) && Ascending(SeenBefore, sorted)
      modifies this
      ensures Evicted(live, maxSize, entries)
    {
      hide *;
      var pairs := sorted;
      ghost var gone := 0;
      NoneRemoved(sorted, live);
      while |entries| > maxSize && |pairs| > 0
        invariant 0 <= gone <= |sorted| && pairs == sorted[gone..]
        invariant Remaining(sorted, live, gone, entries)
        invariant |entries| >= maxSize || gone == 0
        decreases |pairs|
      {
        RemoveOldest(sorted, live, gone, entries);
        RemoveNext(sorted, gone, entries);
        entries := entries - {pairs[0].key};
        pairs := pairs[1..];
        gone := gone + 1;
      }
      EnoughRemoved(sorted, live, gone, entries, maxSize);
    }
  }

  lemma NoneRemoved(sorted: seq<Pair>, live: Entries)
    requires Lists(sorted, live)
    ensures Remaining(sorted, live, 0, live)
  {
  }

  /** What one turn of the loop takes away. */
  lemma RemoveNext(sorted: seq<Pair>, gone: nat, kept: Entries)
    requires gone < |sorted| && sorted[gone].key in kept
    ensures sorted[gone..][0] == sorted[gone] && sorted[gone..][1..] == sorted[gone + 1..]
    ensures |kept - {sorted[gone].key}| == |kept| - 1
  {
    RemoveOne(kept, sorted[gone].key);
  }

  /** When the loop ends, what remains is what eviction may leave. */
  lemma EnoughRemoved(sorted: seq<Pair>, live: Entries, gone: nat, kept: Entries, maxSize: int)
    requires gone <= |sorted| && Lists(sorted, live) && Ascending(SeenBefore, sorted) &&
             Remaining(sorted, live, gone, kept)
    requires (|kept| <= maxSize || gone == |sorted|) && (|kept| >= maxSize || gone == 0)
    ensures Evicted(live, maxSize, kept)
  {
    OldestWent(sorted, live, gone, kept);
    hide Ascending;
  }

  /** `kept` is `live` without the first `gone` listed keys. */
  ghost predicate Remaining(sorted: seq<Pair>, live: Entries, gone: int, kept: Entries) {
    && Submap(kept, live)
    && |kept| == |sorted| - gone
    && forall i :: 0 <= i < |sorted| ==> (sorted[i].key in kept <==> i >= gone)
  }

  lemma RemoveOldest(sorted: seq<Pair>, live: Entries, gone: nat, kept: Entries)
    requires gone < |sorted| && Lists(sorted, live) && Remaining(sorted, live, gone, kept)
    ensures Remaining(sorted, live, gone + 1, kept - {sorted[gone].key}) && sorted[gone].key in kept
  {
    RemoveOne(kept, sorted[gone].key);
  }

  lemma RemoveOne(entries: Entries, key: string)
    requires key in entries
    ensures |entries - {key}| == |entries| - 1
  {
    assert (entries - {key}).Keys == entries.Keys - {key};
  }

  lemma OldestWent(sorted: seq<Pair>, live: Entries, gone: nat, kept: Entries)
    requires Lists(sorted, live) && Ascending(SeenBefore, sorted) && Remaining(sorted, live, gone, kept)
    ensures forall k, e :: k in kept && e in live && e !in kept ==> live[e].lastSeen <= kept[k].lastSeen
  {
    forall k, e | k in kept && e in live && e !in kept
      ensures live[e].lastSeen <= kept[k].lastSeen
    {
      var i :| 0 <= i < |sorted| && sorted[i] == Pair(k, live[k].lastSeen);
      var j :| 0 <= j < |sorted| && sorted[j] == Pair(e, live[e].lastSeen);
      assert sorted[i].key in kept && sorted[j].key !in kept;
      assert !SeenBefore(sorted[i], sorted[j]);
    }
  }

  // ----- Which marks survive -----

  /** The live entries of other keys that were seen no earlier than `now`. */
  ghost function Rivals(before: Entries, key: string, now: int): set<string> {
    set k | k in Purged(before, now) && k != key && before[k].lastSeen >= now
  }

  lemma SubsetSize<T>(a: set<T>, b: set<T>)
    requires a <= b
    ensures |a| <= |b|
  {
    assert b == a + (b - a);
  }

  /** A marked key outlives the eviction as long as fewer than MaxSize rivals are held. */
  lemma MarkSurvives(before: Entries, key: string, now: int, ttl: int, maxSize: int, after: Entries)
    requires Evicted(Marked(before, key, now, ttl), maxSize, after) && maxSize > 0 && ttl > 0
    requires |Rivals(before, key, now)| < maxSize
    ensures key in after && after[key].expiresAt == now + ttl
  {
    var live := Marked(before, key, now, ttl);
    if key !in after {
      if |live| <= maxSize {
        SameSize(after, live);
      } else {
        forall k | k in after ensures k in Rivals(before, key, now) {
          assert live[key].lastSeen <= after[k].lastSeen;
        }
        SubsetSize(after.Keys, Rivals(before, key, now));
      }
    }
  }

  lemma SameSize(small: Entries, big: Entries)
    requires Submap(small, big) && |small| == |big|
    ensures big.Keys <= small.Keys
  {
    assert |small.Keys| == |small| && |big.Keys| == |big|;
    if k :| k in big.Keys && k !in small.Keys {
      SubsetSize(small.Keys, big.Keys - {k});
    }
  }

  ghost predicate Oldest(entries: Entries, k: string) {
    k in entries && forall j :: j in entries ==> entries[k].lastSeen <= entries[j].lastSeen
  }

  lemma OldestExists(entries: Entries)
    requires entries != map[]
    ensures exists k :: Oldest(entries, k)
  {
    var k :| k in entries;
    var rest := entries - {k};
    assert forall j :: j in entries ==> j == k || (j in rest && rest[j] == entries[j]);
    if rest == map[] {
      assert Oldest(entries, k);
    } else {
      OldestExists(rest);
      var m :| Oldest(rest, m);
      assert Oldest(entries, if entries[m].lastSeen < entries[k].lastSeen then m else k);
    }
  }

  /** A part of `live` that holds its `n` most recently seen entries. */
  ghost predicate MostRecent(live: Entries, n: nat, kept: Entries) {
    && Submap(kept, live) && |kept| == n
    && forall k, e :: k in kept && e in live && e !in kept ==> live[e].lastSeen <= kept[k].lastSeen
  }

  lemma MostRecentExists(live: Entries, n: nat)
    requires n <= |live|
    ensures exists kept :: MostRecent(live, n, kept)
    decreases |live| - n
  {
    if n == |live| {
      assert MostRecent(live, n, live);
    } else {
      MostRecentExists(live, n + 1);
      var more: Entries :| MostRecent(live, n + 1, more);
      OldestExists(more);
      var k :| Oldest(more, k);
      RemoveOne(more, k);
      assert MostRecent(live, n, more - {k});
    }
  }

  lemma EvictionExists(live: Entries, maxSize: nat)
    ensures exists kept :: Evicted(live, maxSize, kept)
  {
    MostRecentExists(live, if |live| <= maxSize then |live| else maxSize);
    var kept: Entries :| MostRecent(live, if |live| <= maxSize then |live| else maxSize, kept);
    assert Evicted(live, maxSize, kept);
  }

  /** With MaxSize rivals or more, some eviction order drops the marked key. */
  lemma MarkMayGo(before: Entries, key: string, now: int, ttl: int, maxSize: int)
    requires maxSize > 0 && ttl > 0 && |Rivals(before, key, now)| >= maxSize
    ensures exists after :: Evicted(Marked(before, key, now, ttl), maxSize, after) && key !in after
  {
    var live, rivals := Marked(before, key, now, ttl), Rivals(before, key, now);
    var others := live - {key};
    RemoveOne(live, key);
    SubsetSize(rivals, others.Keys);
    MostRecentExists(others, maxSize);
    var kept: Entries :| MostRecent(others, maxSize, kept);
    assert |kept.Keys| == maxSize;
    forall k | k in kept ensures live[key].lastSeen <= kept[k].lastSeen {
      if kept[k].lastSeen < now {
        forall e | e in rivals ensures e in kept.Keys - {k} {
          assert e in others;
        }
        SubsetSize(rivals, kept.Keys - {k});
      }
    }
    assert Evicted(live, maxSize, kept) && key !in kept;
  }

  // ----- Histories of an index -----

  datatype Op = Mark(key: string, at: int) | Seen(key: string, at: int) | Reload

  /** One operation; reloading from disk keeps the entries. */
  ghost predicate OpStep(ttl: int, maxSize: int, before: Entries, op: Op, after: Entries) {
    match op
    case Mark(k, t) => Evicted(Marked(before, k, t, ttl), maxSize, after)
    case Seen(k, t) =>
      after == if Live(before, k, t) then Purged(before, t)[k := before[k].(lastSeen := t)] else Purged(before, t)
    case Reload => after == before
  }

  ghost predicate Run(ttl: int, maxSize: int, ops: seq<Op>, states: seq<Entries>) {
    && |states| == |ops| + 1 && states[0] == map[]
    && forall i :: 0 <= i < |ops| ==> OpStep(ttl, maxSize, states[i], ops[i], states[i + 1])
  }

  /** Every entry was put there by a `Mark` whose expiry it still carries. */
  lemma {:induction false} EntriesComeFromMarks(ttl: int, maxSize: int, ops: seq<Op>, states: seq<Entries>, key: string)
    requires Run(ttl, maxSize, ops, states) && key in states[|ops|]
    ensures exists i ::
              0 <= i < |ops| && ops[i].Mark? && ops[i].key == key && states[|ops|][key].expiresAt == ops[i].at + ttl
  {
    if ops != [] {
      var n := |ops| - 1;
      var before, after, op := states[n], states[n + 1], ops[n];
      assert OpStep(ttl, maxSize, before, op, after);
      if op.Mark? && op.key == key {
        assert ops[n].at + ttl == after[key].expiresAt;
      } else {
        assert key in before && before[key].expiresAt == after[key].expiresAt;
        EntriesComeFromMarks(ttl, maxSize, ops[..n], states[..n + 1], key);
      }
    }
  }

  /** A positive answer is never invented: some earlier `Mark` of that key is still in force. */
  lemma SeenImpliesMarked(ttl: int, maxSize: int, ops: seq<Op>, states: seq<Entries>, key: string, now: int)
    requires Run(ttl, maxSize, ops, states) && Live(states[|ops|], key, now)
    ensures exists i :: 0 <= i < |ops| && ops[i].Mark? && ops[i].key == key && ops[i].at + ttl > now
  {
    EntriesComeFromMarks(ttl, maxSize, ops, states, key);
  }

  /** After a `Mark` the index is within its bound, holds no expired entry, and no evicted entry
      was seen more recently than a kept one. */
  lemma MarkBounds(before: Entries, key: string, now: int, ttl: int, maxSize: int, after: Entries)
    requires Evicted(Marked(before, key, now, ttl), maxSize, after) && maxSize > 0 && ttl > 0
    ensures 1 <= |after| <= maxSize
    ensures forall k :: k in after ==> after[k].expiresAt > now
    ensures after.Keys <= before.Keys + {key}
    ensures forall k, e :: k in after && e in before && e != key && before[e].expiresAt > now && e !in after
              ==> before[e].lastSeen <= after[k].lastSeen
  {
    var live := Marked(before, key, now, ttl);
    assert key in live;
    assert |live| >= 1 by { assert live.Keys != {}; }
    forall k, e | k in after && e in before && e != key && before[e].expiresAt > now && e !in after
      ensures before[e].lastSeen <= after[k].lastSeen
    {
      assert e in live && live[e] == before[e];
    }
  }
}
