/**
 The Belady cache of vre15/oracle.py (run_opt) and the proof that it is a ceiling:
 no policy that serves the same references with the same capacity reads fewer pages,
 whatever it knows and whether or not it prefetches.
 */
module Belady {
  import opened Paging

  // ---------------------------------------------------------------- next uses

  /** The first use of `p` at or after `i`; the length of the list stands for infinity. */
  ghost function NextUse(keys: seq<Page>, p: Page, i: nat): (n: nat)
    requires i <= |keys|
    ensures i <= n <= |keys|
    decreases |keys| - i
  {
    if i == |keys| || keys[i] == p then i else NextUse(keys, p, i + 1)
  }

  lemma {:induction false} NextUseIsFirst(keys: seq<Page>, p: Page, i: nat)
    requires i <= |keys|
    ensures var n := NextUse(keys, p, i);
            && (n < |keys| ==> keys[n] == p)
            && forall j | i <= j < n :: keys[j] != p
    decreases |keys| - i
  {
    if i < |keys| && keys[i] != p {
      NextUseIsFirst(keys, p, i + 1);
    }
  }

  // ---------------------------------------------------------------- Belady runs

  /** One reference under Belady's rule; any furthest victim will do. */
  ghost predicate BeladyStep(keys: seq<Page>, capacity: nat, i: nat, c: set<Page>, c': set<Page>)
    requires i < |keys|
  {
    if keys[i] in c then c' == c
    else if |c| < capacity then c' == c + {keys[i]}
    else exists v :: IsFurthest(keys, i, c, v) && c' == c - {v} + {keys[i]}
  }

  ghost predicate IsFurthest(keys: seq<Page>, i: nat, c: set<Page>, v: Page)
    requires i <= |keys|
  {
    v in c && forall p | p in c :: NextUse(keys, p, i) <= NextUse(keys, v, i)
  }

  /** cs[i] is the cache before reference i, starting from the empty cache. */
  ghost predicate BeladyRun(keys: seq<Page>, capacity: nat, cs: seq<set<Page>>) {
    && 0 < |cs| <= |keys| + 1
    && cs[0] == {}
    && forall i | 0 <= i < |cs| - 1 :: BeladyStep(keys, capacity, i, cs[i], cs[i + 1])
  }

  /** Misses among the first n references. */
  ghost function Misses(keys: seq<Page>, cs: seq<set<Page>>, n: nat): nat
    requires n <= |keys| && n <= |cs|
  {
    if n == 0 then 0 else Misses(keys, cs, n - 1) + (if keys[n - 1] in cs[n - 1] then 0 else 1)
  }

  lemma {:induction false} MissesPrefix(keys: seq<Page>, cs: seq<set<Page>>, c: set<Page>, n: nat)
    requires n <= |keys| && n <= |cs|
    ensures Misses(keys, cs + [c], n) == Misses(keys, cs, n)
  {
    if n > 0 {
      MissesPrefix(keys, cs, c, n - 1);
    }
  }

  /** A run extended by one reference. */
  lemma {:induction false} ExtendRun(keys: seq<Page>, capacity: nat, cs: seq<set<Page>>, c: set<Page>)
    requires BeladyRun(keys, capacity, cs) && |cs| <= |keys|
    requires BeladyStep(keys, capacity, |cs| - 1, cs[|cs| - 1], c)
    ensures BeladyRun(keys, capacity, cs + [c])
    ensures Misses(keys, cs + [c], |cs|)
         == Misses(keys, cs, |cs| - 1) + (if keys[|cs| - 1] in cs[|cs| - 1] then 0 else 1)
  {
    MissesPrefix(keys, cs, c, |cs| - 1);
    assert forall i | 0 <= i < |cs| :: (cs + [c])[i] == cs[i];
  }

  lemma {:induction false} BeladySize(keys: seq<Page>, capacity: nat, cs: seq<set<Page>>, i: nat)
    requires BeladyRun(keys, capacity, cs) && i < |cs| && 1 <= capacity
    ensures |cs[i]| <= capacity
  {
    if i > 0 {
      BeladySize(keys, capacity, cs, i - 1);
      assert BeladyStep(keys, capacity, i - 1, cs[i - 1], cs[i]);
    }
  }

  // ---------------------------------------------------------------- the potential argument

  /** The pages of `s` that are needed again before `x`, seen from reference i. */
  ghost function Near(keys: seq<Page>, s: set<Page>, i: nat, x: nat): set<Page>
    requires i <= |keys|
  {
    set p | p in s && NextUse(keys, p, i) < x
  }

  /**
   The other policy has read at least as much as Belady, and more: at every horizon x the
   pages it holds that are needed before x are paid for by its extra reads or matched by
   pages Belady holds.
   */
  ghost predicate Ahead(keys: seq<Page>, i: nat, a: set<Page>, o: set<Page>, loads: nat, misses: nat)
    requires i <= |keys|
  {
    forall x: nat :: AheadAt(keys, i, a, o, loads, misses, x)
  }

  ghost predicate AheadAt(keys: seq<Page>, i: nat, a: set<Page>, o: set<Page>, loads: nat, misses: nat, x: nat)
    requires i <= |keys|
  {
    misses + |Near(keys, a, i, x)| <= loads + |Near(keys, o, i, x)|
  }

  lemma {:induction false} SubsetSize<T>(s: set<T>, t: set<T>)
    requires s <= t
    ensures |s| <= |t|
  {
    if s != {} {
      var x :| x in s;
      SubsetSize(s - {x}, t - {x});
    }
  }

  /** Loading or evicting a page keeps the other policy's accounts in order. */
  lemma {:induction false} OtherMoves(keys: seq<Page>, i: nat, a: set<Page>, o: set<Page>, loads: nat, misses: nat,
                                      p: Page)
    requires i <= |keys| && Ahead(keys, i, a, o, loads, misses)
    ensures Ahead(keys, i, a + {p}, o, loads + 1, misses)
    ensures Ahead(keys, i, a - {p}, o, loads, misses)
  {
    var loads' := loads + 1;
    forall x: nat
      ensures AheadAt(keys, i, a + {p}, o, loads', misses, x)
      ensures AheadAt(keys, i, a - {p}, o, loads, misses, x)
    {
      assert AheadAt(keys, i, a, o, loads, misses, x);
      SubsetSize(Near(keys, a + {p}, i, x), Near(keys, a, i, x) + {p});
      SubsetSize(Near(keys, a - {p}, i, x), Near(keys, a, i, x));
    }
  }

  /** After reference i, a page other than keys[i] is as near as before; keys[i] is as near as its next use. */
  lemma {:induction false} NearAfterUse(keys: seq<Page>, s: set<Page>, i: nat, x: nat)
    requires i < |keys| && i < x
    ensures keys[i] in s && NextUse(keys, keys[i], i + 1) < x ==> Near(keys, s, i + 1, x) == Near(keys, s, i, x)
    ensures keys[i] in s && NextUse(keys, keys[i], i + 1) >= x
            ==> Near(keys, s, i + 1, x) == Near(keys, s, i, x) - {keys[i]} && keys[i] in Near(keys, s, i, x)
    ensures keys[i] !in s ==> Near(keys, s, i + 1, x) == Near(keys, s, i, x)
  {
  }

  lemma {:induction false} NearPast(keys: seq<Page>, s: set<Page>, i: nat, x: nat)
    requires i <= |keys| && x <= i
    ensures Near(keys, s, i, x) == {}
  {
  }

  /** Before reference i nothing but keys[i] is needed before i + 1. */
  lemma {:induction false} NearNow(keys: seq<Page>, s: set<Page>, i: nat)
    requires i < |keys|
    ensures Near(keys, s, i, i + 1) == if keys[i] in s then {keys[i]} else {}
  {
  }

  /** A reference that hits in Belady's cache, with the other policy holding the page too. */
  lemma {:induction false} HitStep(keys: seq<Page>, i: nat, a: set<Page>, o: set<Page>, loads: nat, misses: nat, x: nat)
    requires i < |keys| && Ahead(keys, i, a, o, loads, misses)
    requires keys[i] in a && keys[i] in o
    ensures AheadAt(keys, i + 1, a, o, loads, misses, x)
  {
    assert AheadAt(keys, i, a, o, loads, misses, x);
    if x <= i + 1 {
      NearPast(keys, a, i + 1, x);
      assert AheadAt(keys, i, a, o, loads, misses, 0);
      NearPast(keys, o, i, 0);
    } else {
      NearAfterUse(keys, a, i, x);
      NearAfterUse(keys, o, i, x);
    }
  }

  /** A Belady miss is paid for: the other policy holds a page that Belady does not. */
  lemma {:induction false} MissIsPaid(keys: seq<Page>, i: nat, a: set<Page>, o: set<Page>, loads: nat, misses: nat)
    requires i < |keys| && Ahead(keys, i, a, o, loads, misses)
    requires keys[i] in a && keys[i] !in o
    ensures misses + 1 <= loads
  {
    assert AheadAt(keys, i, a, o, loads, misses, i + 1);
    NearNow(keys, a, i);
    NearNow(keys, o, i);
  }

  lemma {:induction false} NearInsert(keys: seq<Page>, o: set<Page>, i: nat, x: nat)
    requires i < x && i < |keys| && keys[i] !in o
    ensures |Near(keys, o + {keys[i]}, i + 1, x)|
         == |Near(keys, o, i, x)| + (if NextUse(keys, keys[i], i + 1) < x then 1 else 0)
  {
    NearAfterUse(keys, o, i, x);
    var k := keys[i];
    if NextUse(keys, k, i + 1) < x {
      assert Near(keys, o + {k}, i + 1, x) == Near(keys, o, i + 1, x) + {k};
    } else {
      assert Near(keys, o + {k}, i + 1, x) == Near(keys, o, i + 1, x);
    }
  }

  /** A Belady miss with room to spare. */
  lemma {:induction false} ColdStep(keys: seq<Page>, i: nat, a: set<Page>, o: set<Page>, loads: nat, misses: nat,
                                    x: nat)
    requires i < |keys| && Ahead(keys, i, a, o, loads, misses)
    requires keys[i] in a && keys[i] !in o
    ensures AheadAt(keys, i + 1, a, o + {keys[i]}, loads, misses + 1, x)
  {
    MissIsPaid(keys, i, a, o, loads, misses);
    if x <= i + 1 {
      NearPast(keys, a, i + 1, x);
    } else {
      assert AheadAt(keys, i, a, o, loads, misses, x);
      NearAfterUse(keys, a, i, x);
      NearInsert(keys, o, i, x);
    }
  }

  /** A Belady miss in a full cache: the furthest page goes. */
  lemma {:induction false} EvictStep(keys: seq<Page>, i: nat, a: set<Page>, o: set<Page>, loads: nat, misses: nat,
                                     v: Page, x: nat)
    requires i < |keys| && Ahead(keys, i, a, o, loads, misses)
    requires keys[i] in a && keys[i] !in o && |a| <= |o|
    requires IsFurthest(keys, i, o, v)
    ensures AheadAt(keys, i + 1, a, o - {v} + {keys[i]}, loads, misses + 1, x)
  {
    var k := keys[i];
    MissIsPaid(keys, i, a, o, loads, misses);
    if x <= i + 1 {
      NearPast(keys, a, i + 1, x);
    } else {
      NearInsert(keys, o - {v}, i, x);
      NearAfterUse(keys, a, i, x);
      if x <= NextUse(keys, v, i) {
        assert Near(keys, o - {v}, i, x) == Near(keys, o, i, x);
        assert AheadAt(keys, i, a, o, loads, misses, x);
      } else {
        // every page Belady keeps is needed before x, so the other policy cannot hold more of them
        assert Near(keys, o - {v}, i, x) == o - {v};
        SubsetSize(Near(keys, a, i + 1, x), if NextUse(keys, k, i + 1) < x then a else a - {k});
      }
    }
  }

  /** One reference, served by both. */
  lemma {:induction false} UseStep(keys: seq<Page>, capacity: nat, i: nat, a: set<Page>, o: set<Page>, o': set<Page>,
                                   loads: nat, misses: nat, misses': nat)
    requires i < |keys| && Ahead(keys, i, a, o, loads, misses)
    requires keys[i] in a && |a| <= capacity && BeladyStep(keys, capacity, i, o, o')
    requires misses' == misses + if keys[i] in o then 0 else 1
    ensures Ahead(keys, i + 1, a, o', loads, misses')
  {
    var i' := i + 1;
    forall x: nat
      ensures AheadAt(keys, i', a, o', loads, misses', x)
    {
      if keys[i] in o {
        HitStep(keys, i, a, o, loads, misses, x);
      } else if |o| < capacity {
        ColdStep(keys, i, a, o, loads, misses, x);
      } else {
        var v :| IsFurthest(keys, i, o, v) && o' == o - {v} + {keys[i]};
        EvictStep(keys, i, a, o, loads, misses, v, x);
      }
    }
  }

  lemma {:induction false} AheadAtStart(keys: seq<Page>)
    ensures Ahead(keys, 0, {}, {}, 0, 0)
  {
    forall x: nat
      ensures AheadAt(keys, 0, {}, {}, 0, 0, x)
    {
      assert Near(keys, {}, 0, x) == {};
    }
  }

  ghost predicate StateAhead(keys: seq<Page>, cs: seq<set<Page>>, ops: seq<Op>) {
    var i := |Served(ops)|;
    && i <= |keys| && i < |cs|
    && Ahead(keys, i, Contents(ops), cs[i], Loads(ops), Misses(keys, cs, i))
  }

  /** Belady stays ahead of every schedule, operation by operation. */
  lemma {:induction false} StaysAhead(keys: seq<Page>, capacity: nat, cs: seq<set<Page>>, ops: seq<Op>)
    requires 1 <= capacity && BeladyRun(keys, capacity, cs) && |cs| == |keys| + 1
    requires Legal(ops, capacity) && Served(ops) <= keys
    ensures StateAhead(keys, cs, ops)
    decreases |ops|
  {
    if ops == [] {
      AheadAtStart(keys);
    } else {
      var before, op := ops[..|ops| - 1], ops[|ops| - 1];
      StaysAhead(keys, capacity, cs, before);
      var i := |Served(before)|;
      if op.Use? {
        LegalSize(before, capacity);
        assert BeladyStep(keys, capacity, i, cs[i], cs[i + 1]);
        UseStep(keys, capacity, i, Contents(before), cs[i], cs[i + 1], Loads(before), Misses(keys, cs, i),
                Misses(keys, cs, i + 1));
      } else {
        OtherMoves(keys, i, Contents(before), cs[i], Loads(before), Misses(keys, cs, i), op.p);
      }
    }
  }

  /** The ceiling: Belady's misses are at most the reads of any schedule that serves the references. */
  lemma {:induction false} BeladyIsOptimal(keys: seq<Page>, capacity: nat, cs: seq<set<Page>>, ops: seq<Op>)
    requires 1 <= capacity && BeladyRun(keys, capacity, cs) && |cs| == |keys| + 1
    requires Serves(ops, keys, capacity)
    ensures Misses(keys, cs, |keys|) <= Loads(ops)
  {
    StaysAhead(keys, capacity, cs, ops);
    assert AheadAt(keys, |keys|, Contents(ops), cs[|keys|], Loads(ops), Misses(keys, cs, |keys|), 0);
    NearPast(keys, cs[|keys|], |keys|, 0);
  }

  /** A Belady run is itself an on-demand schedule that reads once per miss. */
  lemma {:induction false} BeladySchedule(keys: seq<Page>, capacity: nat, cs: seq<set<Page>>, n: nat)
    returns (ops: seq<Op>)
    requires 1 <= capacity && BeladyRun(keys, capacity, cs) && n < |cs|
    ensures Serves(ops, keys[..n], capacity) && OnDemand(ops)
    ensures Contents(ops) == cs[n] && Loads(ops) == Misses(keys, cs, n)
  {
    if n == 0 {
      ops := [];
    } else {
      assert keys[..n] == keys[..n - 1] + [keys[n - 1]];
      ops := BeladySchedule(keys, capacity, cs, n - 1);
      var out := BeladyEvicts(keys, capacity, cs, n);
      ops := ScheduleNext(ops, keys[..n - 1], capacity, keys[n - 1], out, cs[n - 1], cs[n]);
    }
  }

  /** A cache went from c to c' by serving k, evicting `out`. */
  ghost predicate StepsBy(capacity: nat, k: Page, out: set<Page>, c: set<Page>, c': set<Page>) {
    if k in c then out == {} && c' == c
    else out <= c && |out| <= 1 && c' == c - out + {k} && |c - out| < capacity
  }

  lemma {:induction false} ScheduleNext(ops: seq<Op>, keys: seq<Page>, capacity: nat, k: Page, out: set<Page>,
                                        c: set<Page>, c': set<Page>) returns (ops': seq<Op>)
    requires Serves(ops, keys, capacity) && OnDemand(ops) && Contents(ops) == c && StepsBy(capacity, k, out, c, c')
    ensures Serves(ops', keys + [k], capacity) && OnDemand(ops') && Contents(ops') == c'
    ensures Loads(ops') == Loads(ops) + if k in c then 0 else 1
  {
    ops' := Refer(ops, keys, capacity, k, out);
  }

  /** What one step of a Belady run evicts. */
  lemma {:induction false} BeladyEvicts(keys: seq<Page>, capacity: nat, cs: seq<set<Page>>, n: nat)
    returns (out: set<Page>)
    requires 1 <= capacity && BeladyRun(keys, capacity, cs) && 0 < n < |cs|
    ensures StepsBy(capacity, keys[n - 1], out, cs[n - 1], cs[n])
  {
    var k, c := keys[n - 1], cs[n - 1];
    assert BeladyStep(keys, capacity, n - 1, c, cs[n]);
    BeladySize(keys, capacity, cs, n - 1);
    out := {};
    if k !in c && |c| >= capacity {
      var v :| IsFurthest(keys, n - 1, c, v) && cs[n] == c - {v} + {k};
      out := {v};
      assert |c - out| == |c| - 1;
    }
  }

  /** Every Belady run, however it breaks ties, has the fewest misses. */
  lemma {:induction false} BeladyFewest(keys: seq<Page>, capacity: nat, cs: seq<set<Page>>)
    requires 1 <= capacity && BeladyRun(keys, capacity, cs) && |cs| == |keys| + 1
    ensures IsFewestReads(keys, capacity, Misses(keys, cs, |keys|))
  {
    forall ops | Serves(ops, keys, capacity)
      ensures Misses(keys, cs, |keys|) <= Loads(ops)
    {
      BeladyIsOptimal(keys, capacity, cs, ops);
    }
    var ops := BeladySchedule(keys, capacity, cs, |keys|);
    assert keys[..|keys|] == keys;
  }

  // ---------------------------------------------------------------- the heap

  /** A heap entry: the negated next use, then the key, compared as a tuple. */
  datatype Entry = Entry(neg: int, key: Page)

  predicate EntryLe(a: Entry, b: Entry) {
    a.neg < b.neg ||
    (a.neg == b.neg &&
     (a.key.tenant < b.key.tenant ||
      (a.key.tenant == b.key.tenant && a.key.page <= b.key.page)))
  }

  /** heapq.heappop: removes a least entry. */
  method HeapPop(heap: seq<Entry>) returns (e: Entry, rest: seq<Entry>)
    requires heap != []
    ensures e in heap && forall x | x in heap :: EntryLe(e, x)
    ensures |rest| == |heap| - 1 && multiset(heap) == multiset(rest) + multiset{e}
  {
    var m := 0;
    for i := 1 to |heap|
      invariant m < |heap| && forall j | 0 <= j < i :: EntryLe(heap[m], heap[j])
    {
      if EntryLe(heap[i], heap[m]) {
        m := i;
      }
    }
    e, rest := heap[m], heap[..m] + heap[m + 1..];
    assert heap == heap[..m] + [heap[m]] + heap[m + 1..];
  }

  // ---------------------------------------------------------------- run_opt

  /** Every cached page has its live entry in the heap, so popping can always find a victim. */
  ghost predicate Live(cache: map<Page, int>, heap: seq<Entry>) {
    forall p | p in cache :: Entry(-cache[p], p) in heap
  }

  lemma {:induction false} LivePush(cache: map<Page, int>, heap: seq<Entry>, k: Page, next: int)
    requires Live(cache, heap)
    ensures Live(cache[k := next], heap + [Entry(-next, k)])
  {
    forall p | p in cache[k := next] && p != k ensures Entry(-cache[p], p) in heap {}
    assert (heap + [Entry(-next, k)])[|heap|] == Entry(-next, k);
  }

  ghost predicate IsNextUses(keys: seq<Page>, nxt: seq<int>) {
    |nxt| == |keys| && forall i | 0 <= i < |keys| :: nxt[i] == NextUse(keys, keys[i], i + 1)
  }

  /** The map holds the next use of every page that has one from reference i on. */
  ghost predicate Foresees(keys: seq<Page>, i: nat, last: map<Page, int>)
    requires i <= |keys|
  {
    forall p :: NextUse(keys, p, i) == if p in last then last[p] else |keys|
  }

  lemma {:induction false} ForeseesOne(keys: seq<Page>, i: nat, last: map<Page, int>)
    requires i < |keys| && Foresees(keys, i + 1, last)
    ensures Foresees(keys, i, last[keys[i] := i])
    ensures NextUse(keys, keys[i], i + 1) == if keys[i] in last then last[keys[i]] else |keys|
  {
  }

  /** The next-use array, filled from the end. */
  method NextUses(keys: seq<Page>) returns (uses: seq<int>)
    ensures IsNextUses(keys, uses)
  {
    var nxt := new int[|keys|];
    var last: map<Page, int> := map[];
    var i := |keys|;
    while i > 0
      invariant 0 <= i <= |keys|
      invariant Foresees(keys, i, last)
      invariant forall j | i <= j < |keys| :: nxt[j] == NextUse(keys, keys[j], j + 1)
    {
      i := i - 1;
      ForeseesOne(keys, i, last);
      nxt[i] := if keys[i] in last then last[keys[i]] else |keys|;
      last := last[keys[i] := i];
    }
    uses := nxt[..];
  }

  /** Evicts through the lazy-deletion heap: stale entries are dropped until a live one comes up. */
  method PopVictim(cache: map<Page, int>, heap: seq<Entry>) returns (v: Page, heap': seq<Entry>)
    requires cache != map[] && Live(cache, heap)
    ensures v in cache && forall p | p in cache :: cache[p] <= cache[v]
    ensures Live(cache - {v}, heap')
  {
    heap' := heap;
    assert exists p :: p in cache;
    ghost var p0 :| p0 in cache;
    while true
      invariant Live(cache, heap')
      decreases |heap'|
    {
      assert Entry(-cache[p0], p0) in heap';
      ghost var was := heap';
      var e: Entry;
      e, heap' := HeapPop(heap');
      forall x | x in was && x != e ensures x in heap' {
        assert x in multiset(was);
        assert x in multiset(heap');
      }
      if e.key in cache && cache[e.key] == -e.neg {
        v := e.key;
        forall p | p in cache ensures cache[p] <= cache[v] {
          assert EntryLe(e, Entry(-cache[p], p));
        }
        return;
      }
    }
  }

  /** The page that makes room, when the missing page k needs it, is a furthest one. */
  ghost predicate MakesRoom(cache: map<Page, int>, capacity: nat, k: Page, out: set<Page>) {
    if k in cache || |cache| < capacity then out == {}
    else exists v :: out == {v} && v in cache && forall p | p in cache :: cache[p] <= cache[v]
  }

  /** One reference: evict a furthest page if the page is missing and the cache is full, then record its next use. */
  method OptStep(cache: map<Page, int>, heap: seq<Entry>, capacity: nat, k: Page, next: int)
    returns (cache': map<Page, int>, heap': seq<Entry>, ghost out: set<Page>)
    requires 1 <= capacity && Live(cache, heap)
    ensures Live(cache', heap') && MakesRoom(cache, capacity, k, out)
    ensures cache' == (cache - out)[k := next]
  {
    cache', heap', out := cache, heap, {};
    if k !in cache && |cache| >= capacity {
      var v: Page;
      v, heap' := PopVictim(cache, heap);
      cache', out := cache - {v}, {v};
    }
    LivePush(cache', heap', k, next);
    cache', heap' := cache'[k := next], heap' + [Entry(-next, k)];
  }

  ghost predicate Accurate(keys: seq<Page>, cache: map<Page, int>, i: nat)
    requires i <= |keys|
  {
    forall p | p in cache :: cache[p] == NextUse(keys, p, i)
  }

  /** The recorded next uses stay accurate. */
  lemma {:induction false} AccurateAfter(keys: seq<Page>, i: nat, cache: map<Page, int>, out: set<Page>)
    requires i < |keys| && Accurate(keys, cache, i)
    ensures Accurate(keys, (cache - out)[keys[i] := NextUse(keys, keys[i], i + 1)], i + 1)
    ensures (cache - out)[keys[i] := NextUse(keys, keys[i], i + 1)].Keys == cache.Keys - out + {keys[i]}
  {
    forall p | p in cache && p != keys[i]
      ensures cache[p] == NextUse(keys, p, i + 1)
    {
    }
  }

  /** A reference moves the cached pages by one Belady step. */
  lemma {:induction false} OptStepIsBelady(keys: seq<Page>, capacity: nat, i: nat, cache: map<Page, int>,
                                           out: set<Page>)
    requires i < |keys|
    requires Accurate(keys, cache, i)
    requires MakesRoom(cache, capacity, keys[i], out)
    ensures BeladyStep(keys, capacity, i, cache.Keys, cache.Keys - out + {keys[i]})
  {
    assert |cache.Keys| == |cache|;
    if keys[i] !in cache && |cache| >= capacity {
      var v :| out == {v} && v in cache && forall p | p in cache :: cache[p] <= cache[v];
      assert IsFurthest(keys, i, cache.Keys, v);
    }
  }

  /**
   run_opt. Its result is the fewest reads with which any policy can serve the
   references, prefetching policies included.
   */
  method RunOpt(keys: seq<Page>, capacity: nat) returns (misses: nat)
    requires 1 <= capacity
    ensures IsFewestReads(keys, capacity, misses)
  {
    var nxt := NextUses(keys);
    var cache: map<Page, int>, heap: seq<Entry> := map[], [];
    misses := 0;
    ghost var cs: seq<set<Page>> := [{}];
    for i := 0 to |keys|
      invariant BeladyRun(keys, capacity, cs) && |cs| == i + 1
      invariant cache.Keys == cs[i]
      invariant Accurate(keys, cache, i)
      invariant Live(cache, heap)
      invariant misses == Misses(keys, cs, i)
    {
      if keys[i] !in cache {
        misses := misses + 1;
      }
      ghost var before, out := cache, {};
      cache, heap, out := OptStep(cache, heap, capacity, keys[i], nxt[i]);
      OptStepIsBelady(keys, capacity, i, before, out);
      AccurateAfter(keys, i, before, out);
      ExtendRun(keys, capacity, cs, cache.Keys);
      cs := cs + [cache.Keys];
    }
    BeladyFewest(keys, capacity, cs);
  }
}
