/**
 The recency cache of vre15/oracle.py (run_lru), characterized by reuse distance: a
 page is cached exactly when fewer than `capacity` other pages were used since.
 */
module Lru {
  import opened Paging

  // ---------------------------------------------------------------- reference definition

  /** The pages used after the last use of `p`. */
  ghost function Since(keys: seq<Page>, p: Page): set<Page> {
    if keys == [] || keys[|keys| - 1] == p then {}
    else Since(keys[..|keys| - 1], p) + {keys[|keys| - 1]}
  }

  ghost predicate Recent(keys: seq<Page>, capacity: nat, p: Page) {
    p in keys && |Since(keys, p)| < capacity
  }

  /** The references that are not to a recent page. */
  ghost function LruMisses(keys: seq<Page>, capacity: nat): nat {
    if keys == [] then 0
    else
      var before, k := keys[..|keys| - 1], keys[|keys| - 1];
      LruMisses(before, capacity) + (if Recent(before, capacity, k) then 0 else 1)
  }

  // ---------------------------------------------------------------- the ordered dictionary

  predicate Distinct<T(==)>(s: seq<T>) {
    forall i, j | 0 <= i < j < |s| :: s[i] != s[j]
  }

  function IndexOf<T(==)>(s: seq<T>, x: T): (i: nat)
    requires x in s
    ensures i < |s| && s[i] == x
  {
    if s[0] == x then 0 else IndexOf(s[1..], x) + 1
  }

  function RemoveAt<T>(s: seq<T>, i: nat): seq<T>
    requires i < |s|
  {
    s[..i] + s[i + 1..]
  }

  /** The cache as an ordered dictionary, oldest page first, after one reference. */
  function LruStep(cache: seq<Page>, capacity: nat, k: Page): (c: seq<Page>)
    requires 1 <= capacity
  {
    if k in cache then RemoveAt(cache, IndexOf(cache, k)) + [k]
    else if |cache| >= capacity then cache[1..] + [k]
    else cache + [k]
  }

  ghost function LruCache(keys: seq<Page>, capacity: nat): seq<Page>
    requires 1 <= capacity
  {
    if keys == [] then []
    else LruStep(LruCache(keys[..|keys| - 1], capacity), capacity, keys[|keys| - 1])
  }

  // ---------------------------------------------------------------- characterization

  ghost function Elems<T>(s: seq<T>): set<T> {
    set x | x in s
  }

  lemma {:induction false} ElemsSize<T>(s: seq<T>)
    requires Distinct(s)
    ensures |Elems(s)| == |s|
  {
    if s != [] {
      ElemsSize(s[1..]);
      assert Elems(s) == {s[0]} + Elems(s[1..]);
    }
  }

  lemma {:induction false} ElemsConcat<T>(s: seq<T>, t: seq<T>)
    ensures Elems(s + t) == Elems(s) + Elems(t)
  {
  }

  lemma {:induction false} RemoveAtElems<T>(s: seq<T>, h: nat)
    requires h < |s| && Distinct(s)
    ensures Elems(RemoveAt(s, h)) == Elems(s) - {s[h]} && Distinct(RemoveAt(s, h) + [s[h]])
  {
    assert s == s[..h] + [s[h]] + s[h + 1..];
    assert s[h] !in s[..h] && s[h] !in s[h + 1..];
  }

  /** The pages a reference evicts. */
  ghost function Evicted(cache: seq<Page>, capacity: nat, k: Page): set<Page>
    requires 1 <= capacity
  {
    if k !in cache && |cache| >= capacity then {cache[0]} else {}
  }

  lemma {:induction false} StepElems(cache: seq<Page>, capacity: nat, k: Page)
    requires 1 <= capacity && Distinct(cache)
    ensures Elems(LruStep(cache, capacity, k)) == Elems(cache) - Evicted(cache, capacity, k) + {k}
    ensures Distinct(LruStep(cache, capacity, k))
  {
    if k in cache {
      var h := IndexOf(cache, k);
      RemoveAtElems(cache, h);
      ElemsConcat(RemoveAt(cache, h), [k]);
    } else if |cache| >= capacity {
      RemoveAtElems(cache, 0);
      assert RemoveAt(cache, 0) == cache[1..];
      ElemsConcat(cache[1..], [k]);
    } else {
      ElemsConcat(cache, [k]);
    }
  }

  /** The pages after position j of the cache are exactly those used since the page at j. */
  ghost predicate InRecencyOrder(keys: seq<Page>, cache: seq<Page>) {
    && Distinct(cache)
    && (forall p | p in cache :: p in keys)
    && forall j | 0 <= j < |cache| :: Since(keys, cache[j]) == Elems(cache[j + 1..])
  }

  ghost predicate HoldsRecent(keys: seq<Page>, cache: seq<Page>, capacity: nat) {
    && InRecencyOrder(keys, cache)
    && |cache| <= capacity
    && forall p | p in keys && p !in cache :: |Since(keys, p)| >= capacity
  }

  lemma {:induction false} SinceStep(keys: seq<Page>, k: Page, p: Page)
    ensures Since(keys + [k], p) == if p == k then {} else Since(keys, p) + {k}
    ensures |Since(keys, p)| <= |Since(keys, p) + {k}|
  {
    assert (keys + [k])[..|keys|] == keys;
    if k !in Since(keys, p) {
      assert |Since(keys, p) + {k}| == |Since(keys, p)| + 1;
    } else {
      assert Since(keys, p) + {k} == Since(keys, p);
    }
  }

  /** The pages behind position j once the page at h has moved to the end. */
  lemma {:induction false} MovedTail(cache: seq<Page>, h: nat, j: nat)
    requires h < |cache| && j < |cache| - 1 && Distinct(cache)
    ensures var cache' := RemoveAt(cache, h) + [cache[h]];
            && cache'[j] == cache[if j < h then j else j + 1]
            && Elems(cache'[j + 1..]) == Elems(cache[(if j < h then j else j + 1) + 1..]) + {cache[h]}
  {
    var k := cache[h];
    var cache' := RemoveAt(cache, h) + [k];
    if j < h {
      assert cache[j + 1..] == cache[j + 1..h] + [k] + cache[h + 1..];
      assert cache'[j + 1..] == cache[j + 1..h] + cache[h + 1..] + [k];
    } else {
      assert cache'[j + 1..] == cache[j + 2..] + [k];
    }
  }

  /** Moving a cached page to the end keeps recency order. */
  lemma {:induction false} HitKeepsOrder(keys: seq<Page>, cache: seq<Page>, h: nat)
    requires InRecencyOrder(keys, cache) && h < |cache|
    ensures InRecencyOrder(keys + [cache[h]], RemoveAt(cache, h) + [cache[h]])
  {
    var k := cache[h];
    var cache' := RemoveAt(cache, h) + [k];
    RemoveAtElems(cache, h);
    forall j | 0 <= j < |cache'|
      ensures Since(keys + [k], cache'[j]) == Elems(cache'[j + 1..])
    {
      SinceStep(keys, k, cache'[j]);
      if j < |cache| - 1 {
        MovedTail(cache, h, j);
      }
    }
  }

  /** Appending a missing page keeps recency order. */
  lemma {:induction false} MissKeepsOrder(keys: seq<Page>, cache: seq<Page>, k: Page)
    requires InRecencyOrder(keys, cache) && k !in cache
    ensures InRecencyOrder(keys + [k], cache + [k])
  {
    forall j | 0 <= j < |cache + [k]|
      ensures Since(keys + [k], (cache + [k])[j]) == Elems((cache + [k])[j + 1..])
    {
      SinceStep(keys, k, (cache + [k])[j]);
      if j < |cache| {
        assert (cache + [k])[j + 1..] == cache[j + 1..] + [k];
      }
    }
  }

  lemma {:induction false} DropOldest(keys: seq<Page>, cache: seq<Page>, capacity: nat)
    requires HoldsRecent(keys, cache, capacity) && |cache| >= 1
    ensures InRecencyOrder(keys, cache[1..])
    ensures |Since(keys, cache[0])| == |cache| - 1
  {
    ElemsSize(cache[1..]);
    forall j | 0 <= j < |cache[1..]|
      ensures Since(keys, cache[1..][j]) == Elems(cache[1..][j + 1..])
    {
      assert cache[1..][j] == cache[j + 1];
      assert cache[1..][j + 1..] == cache[j + 2..];
    }
    assert cache[0 + 1..] == cache[1..];
  }

  lemma {:induction false} StepKeepsOrder(keys: seq<Page>, cache: seq<Page>, capacity: nat, k: Page)
    requires 1 <= capacity && HoldsRecent(keys, cache, capacity)
    ensures InRecencyOrder(keys + [k], LruStep(cache, capacity, k))
  {
    if k in cache {
      HitKeepsOrder(keys, cache, IndexOf(cache, k));
    } else if |cache| >= capacity {
      DropOldest(keys, cache, capacity);
      MissKeepsOrder(keys, cache[1..], k);
    } else {
      MissKeepsOrder(keys, cache, k);
    }
  }

  /** One reference keeps the cache equal to the recent pages. */
  lemma {:induction false} StepHoldsRecent(keys: seq<Page>, cache: seq<Page>, capacity: nat, k: Page)
    requires 1 <= capacity && HoldsRecent(keys, cache, capacity)
    ensures HoldsRecent(keys + [k], LruStep(cache, capacity, k), capacity)
  {
    var cache' := LruStep(cache, capacity, k);
    StepKeepsOrder(keys, cache, capacity, k);
    StepElems(cache, capacity, k);
    forall p | p in keys + [k] && p !in cache'
      ensures |Since(keys + [k], p)| >= capacity
    {
      assert p !in Elems(cache');
      SinceStep(keys, k, p);
      if p in cache {
        // the page just evicted: the page k was not among those used since
        assert p in Elems(cache);
        DropOldest(keys, cache, capacity);
        assert Since(keys, p) == Elems(cache[0 + 1..]);
      }
    }
  }

  lemma {:induction false} RecentInCache(keys: seq<Page>, cache: seq<Page>, capacity: nat, p: Page)
    requires HoldsRecent(keys, cache, capacity)
    ensures p in cache <==> Recent(keys, capacity, p)
  {
    if p in cache {
      var j := IndexOf(cache, p);
      ElemsSize(cache[j + 1..]);
      assert Since(keys, cache[j]) == Elems(cache[j + 1..]);
    }
  }

  /** The cache holds exactly the recent pages. */
  lemma {:induction false} LruHoldsRecent(keys: seq<Page>, capacity: nat)
    requires 1 <= capacity
    ensures HoldsRecent(keys, LruCache(keys, capacity), capacity)
  {
    if keys != [] {
      var before, k := keys[..|keys| - 1], keys[|keys| - 1];
      assert before + [k] == keys;
      LruHoldsRecent(before, capacity);
      StepHoldsRecent(before, LruCache(before, capacity), capacity, k);
    }
  }

  lemma {:induction false} LruIsRecent(keys: seq<Page>, capacity: nat)
    requires 1 <= capacity
    ensures forall p :: p in LruCache(keys, capacity) <==> Recent(keys, capacity, p)
  {
    LruHoldsRecent(keys, capacity);
    forall p { RecentInCache(keys, LruCache(keys, capacity), capacity, p); }
  }

  // ---------------------------------------------------------------- inclusion

  /** LRU inclusion: a larger cache always holds everything a smaller one does. */
  lemma {:induction false} LruInclusion(keys: seq<Page>, c: nat, d: nat)
    requires 1 <= c <= d
    ensures forall p | p in LruCache(keys, c) :: p in LruCache(keys, d)
  {
    LruIsRecent(keys, c);
    LruIsRecent(keys, d);
  }

  /** So misses never increase with capacity. */
  lemma {:induction false} LruMissesAntitone(keys: seq<Page>, c: nat, d: nat)
    requires 1 <= c <= d
    ensures LruMisses(keys, d) <= LruMisses(keys, c)
  {
    if keys != [] {
      LruMissesAntitone(keys[..|keys| - 1], c, d);
    }
  }

  // ---------------------------------------------------------------- run_lru

  /** run_lru: counts exactly the references to pages that are not recent. */
  method RunLru(keys: seq<Page>, capacity: nat) returns (misses: nat)
    requires 1 <= capacity
    ensures misses == LruMisses(keys, capacity)
  {
    var cache: seq<Page> := [];
    misses := 0;
    for i := 0 to |keys|
      invariant cache == LruCache(keys[..i], capacity)
      invariant misses == LruMisses(keys[..i], capacity)
    {
      var k := keys[i];
      LruIsRecent(keys[..i], capacity);
      assert keys[..i + 1][..i] == keys[..i];
      if k in cache {
        cache := RemoveAt(cache, IndexOf(cache, k)) + [k];
        continue;
      }
      misses := misses + 1;
      if |cache| >= capacity {
        cache := cache[1..];
      }
      cache := cache + [k];
    }
    assert keys[..|keys|] == keys;
  }

  /** LRU is an on-demand schedule that reads once per miss. */
  lemma {:induction false} LruSchedule(keys: seq<Page>, capacity: nat) returns (ops: seq<Op>)
    requires 1 <= capacity
    ensures Serves(ops, keys, capacity) && OnDemand(ops)
    ensures Contents(ops) == Elems(LruCache(keys, capacity))
    ensures Loads(ops) == LruMisses(keys, capacity)
  {
    if keys == [] {
      ops := [];
    } else {
      var before, k := keys[..|keys| - 1], keys[|keys| - 1];
      ops := LruSchedule(before, capacity);
      var cache := LruCache(before, capacity);
      LruHoldsRecent(before, capacity);
      RecentInCache(before, cache, capacity, k);
      ElemsSize(cache);
      assert keys == before + [k];
      StepElems(cache, capacity, k);
      ops := Refer(ops, before, capacity, k, Evicted(cache, capacity, k));
    }
  }

  /** The ceiling applied to LRU: the fewest reads are at most the LRU misses. */
  lemma {:induction false} OptAtMostLru(keys: seq<Page>, capacity: nat, opt: nat)
    requires 1 <= capacity && IsFewestReads(keys, capacity, opt)
    ensures opt <= LruMisses(keys, capacity)
  {
    var ops := LruSchedule(keys, capacity);
  }
}
