/** The envelope-aware page cache of vre15/oracle.py (EnvelopeCache); EnvelopeReplay replays references through it. */
module EnvelopePolicy {
  import opened Options
  import opened Paging
  import opened Traces
  import opened Lru

  const HOT_PAGES: nat := 16

  /**
   The abstract cache: pages from least to most recently used, and the tenants that ever
   had a page, in the order of their first (the iteration order of `by_tenant`).
   */
  datatype Cache = Cache(lru: seq<Page>, tenants: seq<nat>)

  ghost predicate WellFormed(c: Cache, envs: seq<Envelope>, capacity: nat) {
    && Distinct(c.lru) && Distinct(c.tenants) && |c.lru| <= capacity
    && InRange(c.tenants, envs)
    && (forall p | p in c.lru :: p.tenant in c.tenants)
  }

  predicate InRange(tenants: seq<nat>, envs: seq<Envelope>) {
    forall i | 0 <= i < |tenants| :: tenants[i] < |envs|
  }

  predicate HasPage(lru: seq<Page>, t: nat) {
    exists p | p in lru :: p.tenant == t
  }

  predicate Evictable(lru: seq<Page>, envs: seq<Envelope>, now: real, t: nat)
    requires t < |envs|
  {
    HasPage(lru, t) && !Authorized(envs[t], now)
  }

  // ---------------------------------------------------------------- victim choice

  /** The first evictable tenant whose next window opens furthest in the future. */
  function BestTenant(lru: seq<Page>, tenants: seq<nat>, envs: seq<Envelope>, now: real): (best: Option<nat>)
    requires InRange(tenants, envs)
    ensures best.None? <==> forall t | t in tenants :: !Evictable(lru, envs, now, t)
    ensures best.Some? ==> best.value in tenants && Evictable(lru, envs, now, best.value)
    ensures best.Some? ==> forall t | t in tenants && Evictable(lru, envs, now, t) ::
                             !Later(NextOpen(envs[t], now), NextOpen(envs[best.value], now))
  {
    if tenants == [] then None
    else
      var front, t := tenants[..|tenants| - 1], tenants[|tenants| - 1];
      assert tenants == front + [t];
      var best := BestTenant(lru, front, envs, now);
      if Evictable(lru, envs, now, t) &&
         (best.None? || Later(NextOpen(envs[t], now), NextOpen(envs[best.value], now)))
      then Some(t) else best
  }

  /** A tenant's least recently used page. */
  function OldestOf(lru: seq<Page>, t: nat): (p: Page)
    requires HasPage(lru, t)
    ensures p in lru && p.tenant == t
    ensures forall i | 0 <= i < IndexOf(lru, p) :: lru[i].tenant != t
  {
    if lru[0].tenant == t then lru[0] else
      assert lru == [lru[0]] + lru[1..];
      OldestOf(lru[1..], t)
  }

  function Victim(c: Cache, envs: seq<Envelope>, now: real, outsideOnly: bool): (v: Option<Page>)
    requires c.lru != []
    requires InRange(c.tenants, envs)
  {
    var best := BestTenant(c.lru, c.tenants, envs, now);
    if best.Some? then Some(OldestOf(c.lru, best.value))
    else if outsideOnly then None
    else Some(c.lru[0])
  }

  /**
   The victim is the oldest page of an unauthorized tenant that opens no earlier than any
   other unauthorized tenant with pages; only if there is none is it the oldest page of all,
   and never for a prefetch.
   */
  lemma {:induction false} VictimIsFurthestOutside(c: Cache, envs: seq<Envelope>, capacity: nat, now: real,
                                                   outsideOnly: bool)
    requires WellFormed(c, envs, capacity) && c.lru != []
    ensures var v := Victim(c, envs, now, outsideOnly);
            if exists p :: p in c.lru && !Authorized(envs[p.tenant], now) then
              && v.Some? && v.value in c.lru && !Authorized(envs[v.value.tenant], now)
              && (forall p | p in c.lru && !Authorized(envs[p.tenant], now) ::
                    !Later(NextOpen(envs[p.tenant], now), NextOpen(envs[v.value.tenant], now)))
              && (forall i | 0 <= i < IndexOf(c.lru, v.value) :: c.lru[i].tenant != v.value.tenant)
            else v == if outsideOnly then None else Some(c.lru[0])
  {
    var best := BestTenant(c.lru, c.tenants, envs, now);
    forall p | p in c.lru && !Authorized(envs[p.tenant], now)
      ensures Evictable(c.lru, envs, now, p.tenant)
    {
    }
  }

  // ---------------------------------------------------------------- insertion

  function AddTenant(tenants: seq<nat>, t: nat): seq<nat> {
    if t in tenants then tenants else tenants + [t]
  }

  function Drop(lru: seq<Page>, v: Page): seq<Page>
    requires v in lru
  {
    RemoveAt(lru, IndexOf(lru, v))
  }

  /** The page an insertion evicts. */
  ghost function Displaced(c: Cache, envs: seq<Envelope>, capacity: nat, now: real, outsideOnly: bool): (out: set<Page>)
    requires 1 <= capacity && WellFormed(c, envs, capacity)
    ensures out <= Elems(c.lru) && |out| <= 1
  {
    if |c.lru| < capacity then {}
    else
      match Victim(c, envs, now, outsideOnly)
      case None => {}
      case Some(v) => {v}
  }

  lemma {:induction false} DropSpec(c: Cache, envs: seq<Envelope>, capacity: nat, v: Page)
    requires WellFormed(c, envs, capacity) && v in c.lru
    ensures WellFormed(Cache(Drop(c.lru, v), c.tenants), envs, capacity)
    ensures Elems(Drop(c.lru, v)) == Elems(c.lru) - {v} && |Drop(c.lru, v)| == |c.lru| - 1
    ensures forall p :: p in Drop(c.lru, v) <==> p in c.lru && p != v
  {
    RemoveAtElems(c.lru, IndexOf(c.lru, v));
    forall p
      ensures p in Drop(c.lru, v) <==> p in c.lru && p != v
    {
      assert p in Drop(c.lru, v) <==> p in Elems(Drop(c.lru, v));
    }
  }

  lemma {:induction false} AddSpec(c: Cache, envs: seq<Envelope>, capacity: nat, k: Page)
    requires WellFormed(c, envs, capacity) && |c.lru| < capacity && k !in c.lru && k.tenant < |envs|
    ensures WellFormed(Cache(c.lru + [k], AddTenant(c.tenants, k.tenant)), envs, capacity)
    ensures Elems(c.lru + [k]) == Elems(c.lru) + {k}
  {
    ElemsConcat(c.lru, [k]);
  }

  /** insert: the new cache, or None when a prefetch finds nobody outside authority to evict. */
  function Inserted(c: Cache, envs: seq<Envelope>, capacity: nat, k: Page, now: real,
                    outsideOnly: bool): (r: Option<Cache>)
    requires 1 <= capacity && WellFormed(c, envs, capacity) && k !in c.lru && k.tenant < |envs|
    ensures r.Some? ==> WellFormed(r.value, envs, capacity)
    ensures r.None? ==> outsideOnly
  {
    if |c.lru| < capacity then
      AddSpec(c, envs, capacity, k);
      Some(Cache(c.lru + [k], AddTenant(c.tenants, k.tenant)))
    else
      match Victim(c, envs, now, outsideOnly)
      case None => None
      case Some(v) =>
        DropSpec(c, envs, capacity, v);
        AddSpec(Cache(Drop(c.lru, v), c.tenants), envs, capacity, k);
        Some(Cache(Drop(c.lru, v) + [k], AddTenant(c.tenants, k.tenant)))
  }

  lemma {:induction false} InsertSpec(c: Cache, envs: seq<Envelope>, capacity: nat, k: Page, now: real,
                                      outsideOnly: bool)
    requires 1 <= capacity && WellFormed(c, envs, capacity) && k !in c.lru && k.tenant < |envs|
    ensures Inserted(c, envs, capacity, k, now, outsideOnly).Some? ==>
              var c' := Inserted(c, envs, capacity, k, now, outsideOnly).value;
              var out := Displaced(c, envs, capacity, now, outsideOnly);
              && Elems(c'.lru) == Elems(c.lru) - out + {k}
              && |Elems(c.lru) - out| < capacity
  {
    if |c.lru| < capacity {
      RoomSpec(c, envs, capacity, k);
    } else if Victim(c, envs, now, outsideOnly).Some? {
      EvictSpec(c, envs, capacity, k, Victim(c, envs, now, outsideOnly).value);
    }
  }

  lemma {:induction false} RoomSpec(c: Cache, envs: seq<Envelope>, capacity: nat, k: Page)
    requires WellFormed(c, envs, capacity) && |c.lru| < capacity && k !in c.lru && k.tenant < |envs|
    ensures Elems(c.lru + [k]) == Elems(c.lru) - {} + {k} && |Elems(c.lru) - {}| < capacity
  {
    ElemsSize(c.lru);
    AddSpec(c, envs, capacity, k);
    assert Elems(c.lru) - {} == Elems(c.lru);
  }

  lemma {:induction false} EvictSpec(c: Cache, envs: seq<Envelope>, capacity: nat, k: Page, v: Page)
    requires 1 <= capacity && WellFormed(c, envs, capacity) && k !in c.lru && k.tenant < |envs| && v in c.lru
    ensures Elems(Drop(c.lru, v) + [k]) == Elems(c.lru) - {v} + {k} && |Elems(c.lru) - {v}| < capacity
  {
    ElemsSize(c.lru);
    DropSpec(c, envs, capacity, v);
    AddSpec(Cache(Drop(c.lru, v), c.tenants), envs, capacity, k);
  }

  /** `by_tenant` partitions the cached pages. */
  ghost predicate Partition(lru: seq<Page>, tenants: seq<nat>, byTenant: map<nat, set<Page>>) {
    && (forall t :: t in byTenant <==> t in tenants)
    && (forall p | p in lru :: p.tenant in byTenant)
    && (forall t, p | t in byTenant :: p in byTenant[t] <==> p in lru && p.tenant == t)
  }

  /** The class of vre15/oracle.py: the page order plus per-tenant page sets. */
  class EnvelopeCache {
    const envs: seq<Envelope>
    const capacity: nat
    var lru: seq<Page>
    var tenants: seq<nat>
    var byTenant: map<nat, set<Page>>

    ghost predicate Valid()
      reads this
    {
      && 1 <= capacity
      && WellFormed(View(), envs, capacity)
      && Partition(lru, tenants, byTenant)
    }

    ghost function View(): Cache
      reads this
    {
      Cache(lru, tenants)
    }

    constructor (envs: seq<Envelope>, capacity: nat)
      requires 1 <= capacity
      ensures Valid() && this.envs == envs && this.capacity == capacity
      ensures View() == Cache([], [])
    {
      this.envs, this.capacity := envs, capacity;
      lru, tenants, byTenant := [], [], map[];
    }

    method Touch(k: Page)
      requires Valid() && k in lru
      modifies this
      ensures Valid()
      ensures View() == Cache(Drop(old(lru), k) + [k], old(tenants))
    {
      DropSpec(View(), envs, capacity, k);
      lru := Drop(lru, k) + [k];
    }

    method ChooseVictim(now: real, outsideOnly: bool) returns (v: Option<Page>)
      requires Valid() && lru != []
      ensures v == Victim(View(), envs, now, outsideOnly)
    {
      var best: Option<nat> := None;
      for i := 0 to |tenants|
        invariant best == BestTenant(lru, tenants[..i], envs, now)
      {
        var t := tenants[i];
        assert tenants[..i + 1][..i] == tenants[..i];
        assert byTenant[t] != {} <==> HasPage(lru, t) by {
          if byTenant[t] != {} {
            var p :| p in byTenant[t];
            assert p in lru && p.tenant == t;
          }
        }
        if byTenant[t] != {} && !Authorized(envs[t], now) {
          if best.None? || Later(NextOpen(envs[t], now), NextOpen(envs[best.value], now)) {
            best := Some(t);
          }
        }
      }
      assert tenants[..|tenants|] == tenants;
      if best.Some? {
        return Some(OldestOf(lru, best.value));
      }
      if outsideOnly {
        return None;
      }
      return Some(lru[0]);
    }

    /** Removes a page from the order and from its tenant's set. */
    method Remove(v: Page)
      requires Valid() && v in lru
      modifies this
      ensures Valid() && View() == Cache(Drop(old(lru), v), old(tenants))
    {
      DropSpec(View(), envs, capacity, v);
      lru := Drop(lru, v);
      byTenant := byTenant[v.tenant := byTenant[v.tenant] - {v}];
    }

    /** Appends a page to the order and to its tenant's set. */
    method Add(k: Page)
      requires Valid() && k !in lru && k.tenant < |envs| && |lru| < capacity
      modifies this
      ensures Valid() && View() == Cache(old(lru) + [k], AddTenant(old(tenants), k.tenant))
    {
      AddSpec(View(), envs, capacity, k);
      lru := lru + [k];
      byTenant := byTenant[k.tenant := (if k.tenant in byTenant then byTenant[k.tenant] else {}) + {k}];
      tenants := AddTenant(tenants, k.tenant);
    }

    method Insert(k: Page, now: real, outsideOnly: bool) returns (ok: bool)
      requires Valid() && k !in lru && k.tenant < |envs|
      modifies this
      ensures Valid()
      ensures var r := Inserted(old(View()), envs, capacity, k, now, outsideOnly);
              ok == r.Some? && View() == if ok then r.value else old(View())
    {
      if |lru| >= capacity {
        var v := ChooseVictim(now, outsideOnly);
        if v.None? {
          return false;
        }
        DropSpec(View(), envs, capacity, v.value);
        Remove(v.value);
      }
      Add(k);
      ok := true;
    }
  }
}
