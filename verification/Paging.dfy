/**
 Pages, reference lists and schedules.

 A schedule is what any paging policy, prefetching or not, does to serve a list of
 references: it loads pages into a bounded cache, evicts pages from it, and uses the
 referenced pages while they are cached. The number of loads is its number of reads.
 */
module Paging {

  /** A cache key of vre15/oracle.py: a tenant and the index of one of its hot pages. */
  datatype Page = Page(tenant: nat, page: nat)

  datatype Op = Load(p: Page) | Evict(p: Page) | Use(p: Page)

  /** The cache contents after a schedule, starting empty. */
  ghost function Contents(ops: seq<Op>): set<Page> {
    if ops == [] then {}
    else
      var before := Contents(ops[..|ops| - 1]);
      match ops[|ops| - 1]
      case Load(p) => before + {p}
      case Evict(p) => before - {p}
      case Use(p) => before
  }

  /** The pages used by a schedule, in order. */
  ghost function Served(ops: seq<Op>): seq<Page> {
    if ops == [] then []
    else
      var before := Served(ops[..|ops| - 1]);
      if ops[|ops| - 1].Use? then before + [ops[|ops| - 1].p] else before
  }

  /** The reads a schedule performs. */
  ghost function Loads(ops: seq<Op>): nat {
    if ops == [] then 0
    else Loads(ops[..|ops| - 1]) + (if ops[|ops| - 1].Load? then 1 else 0)
  }

  /** The cache never exceeds the capacity, and only cached pages are used. */
  ghost predicate Legal(ops: seq<Op>, capacity: nat) {
    ops == [] ||
    (var before := ops[..|ops| - 1];
     && Legal(before, capacity)
     && |Contents(ops)| <= capacity
     && (ops[|ops| - 1].Use? ==> ops[|ops| - 1].p in Contents(before)))
  }

  ghost predicate Serves(ops: seq<Op>, keys: seq<Page>, capacity: nat) {
    Legal(ops, capacity) && Served(ops) == keys
  }

  /** A schedule that never prefetches: each load is followed at once by the use of the loaded page. */
  ghost predicate OnDemand(ops: seq<Op>) {
    forall i | 0 <= i < |ops| && ops[i].Load? :: i + 1 < |ops| && ops[i + 1] == Use(ops[i].p)
  }

  /**
   The fewest reads any policy can serve the references with: no schedule needs fewer,
   and some schedule that never prefetches needs no more.
   */
  ghost predicate IsFewestReads(keys: seq<Page>, capacity: nat, n: nat) {
    && (forall ops :: Serves(ops, keys, capacity) ==> n <= Loads(ops))
    && (exists ops :: Serves(ops, keys, capacity) && OnDemand(ops) && Loads(ops) == n)
  }

  lemma {:induction false} LegalSize(ops: seq<Op>, capacity: nat)
    requires Legal(ops, capacity)
    ensures |Contents(ops)| <= capacity
  {
  }

  /** What one further operation does to a schedule. */
  lemma {:induction false} Extend(ops: seq<Op>, op: Op)
    ensures Loads(ops + [op]) == Loads(ops) + (if op.Load? then 1 else 0)
    ensures Served(ops + [op]) == if op.Use? then Served(ops) + [op.p] else Served(ops)
    ensures Contents(ops + [op]) == if op.Load? then Contents(ops) + {op.p}
                                    else if op.Evict? then Contents(ops) - {op.p}
                                    else Contents(ops)
    ensures forall capacity :: Legal(ops + [op], capacity) <==>
                               && Legal(ops, capacity)
                               && |Contents(ops + [op])| <= capacity
                               && (op.Use? ==> op.p in Contents(ops))
  {
    assert (ops + [op])[..|ops + [op]| - 1] == ops;
  }

  lemma {:induction false} ExtendLoad(ops: seq<Op>, p: Page, keys: seq<Page>, capacity: nat)
    requires Serves(ops, keys, capacity)
    requires p !in Contents(ops) && |Contents(ops)| < capacity
    ensures Serves(ops + [Load(p)], keys, capacity)
    ensures Contents(ops + [Load(p)]) == Contents(ops) + {p}
    ensures Loads(ops + [Load(p)]) == Loads(ops) + 1
  {
    Extend(ops, Load(p));
  }

  lemma {:induction false} ExtendUse(ops: seq<Op>, p: Page, keys: seq<Page>, capacity: nat)
    requires Serves(ops, keys, capacity) && p in Contents(ops)
    ensures Serves(ops + [Use(p)], keys + [p], capacity)
    ensures Contents(ops + [Use(p)]) == Contents(ops)
    ensures Loads(ops + [Use(p)]) == Loads(ops)
  {
    Extend(ops, Use(p));
    LegalSize(ops, capacity);
  }

  lemma {:induction false} ExtendEvict(ops: seq<Op>, out: set<Page>, keys: seq<Page>, capacity: nat)
    returns (ops': seq<Op>)
    requires Serves(ops, keys, capacity) && out <= Contents(ops) && |out| <= 1
    ensures Serves(ops', keys, capacity) && (OnDemand(ops) ==> OnDemand(ops'))
    ensures Contents(ops') == Contents(ops) - out && Loads(ops') == Loads(ops)
  {
    LegalSize(ops, capacity);
    ops' := ops;
    if out != {} {
      var v :| v in out;
      assert out == {v} by {
        assert |out - {v}| == 0;
      }
      ops' := ops + [Evict(v)];
      Extend(ops, Evict(v));
      assert forall i | 0 <= i < |ops| :: ops'[i] == ops[i];
    }
  }

  /** One reference served on demand: `out` makes room for it if it is missing. */
  lemma {:induction false} Refer(ops: seq<Op>, keys: seq<Page>, capacity: nat, k: Page, out: set<Page>)
    returns (ops': seq<Op>)
    requires Serves(ops, keys, capacity)
    requires out <= Contents(ops) && |out| <= 1
    requires if k in Contents(ops) then out == {} else |Contents(ops) - out| < capacity
    ensures Serves(ops', keys + [k], capacity) && (OnDemand(ops) ==> OnDemand(ops'))
    ensures Contents(ops') == Contents(ops) - out + {k}
    ensures Loads(ops') == Loads(ops) + (if k in Contents(ops) then 0 else 1)
  {
    if k in Contents(ops) {
      ops' := ops + [Use(k)];
      ExtendUse(ops, k, keys, capacity);
      assert forall i | 0 <= i < |ops| :: ops'[i] == ops[i];
    } else {
      var ops1 := ExtendEvict(ops, out, keys, capacity);
      ExtendLoad(ops1, k, keys, capacity);
      ExtendUse(ops1 + [Load(k)], k, keys, capacity);
      ops' := ops1 + [Load(k)] + [Use(k)];
      assert forall i | 0 <= i < |ops1| :: ops'[i] == ops1[i];
    }
  }
}
