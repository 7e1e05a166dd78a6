/**
 run_envelope of vre15/oracle.py: replaying references through the envelope cache, with
 optional prefetch at window openings, and how its counts compare with LRU and Belady.
 */
module EnvelopeReplay {
  import opened Options
  import opened Paging
  import opened Traces
  import opened Lru
  import opened EnvelopePolicy
  import Sorting

  /** A served request: when, by which tenant, to which of its hot pages. */
  datatype Ref = Ref(at: real, tenant: nat, page: nat)

  datatype Open = Open(at: real, tenant: nat)

  function KeyOf(r: Ref): Page { Page(r.tenant, r.page) }

  function Keys(refs: seq<Ref>): (keys: seq<Page>)
    ensures |keys| == |refs|
  {
    seq(|refs|, i requires 0 <= i < |refs| => KeyOf(refs[i]))
  }

  // ---------------------------------------------------------------- window openings

  predicate OpenLe(a: Open, b: Open) {
    a.at < b.at || (a.at == b.at && a.tenant <= b.tenant)
  }

  function OpensOf(envs: seq<Envelope>, t: nat, windows: seq<Window>): (opens: seq<Open>)
    requires t < |envs|
    ensures forall o | o in opens :: o.tenant < |envs|
  {
    if windows == [] then [] else [Open(windows[0].start, t)] + OpensOf(envs, t, windows[1..])
  }

  function AllOpens(envs: seq<Envelope>, n: nat): (opens: seq<Open>)
    requires n <= |envs|
    ensures forall o | o in opens :: o.tenant < |envs|
  {
    if n == 0 then [] else AllOpens(envs, n - 1) + OpensOf(envs, n - 1, envs[n - 1].windows)
  }

  /** Every window opening, in time order. */
  function SortedOpens(envs: seq<Envelope>): (opens: seq<Open>)
    ensures forall i | 0 <= i < |opens| :: opens[i].tenant < |envs|
  {
    var all := AllOpens(envs, |envs|);
    Sorting.SortMembers(all, OpenLe);
    Sorting.Sort(all, OpenLe)
  }

  // ---------------------------------------------------------------- the replay as a function

  datatype Settings = Settings(envs: seq<Envelope>, capacity: nat, opens: seq<Open>, wsOnly: bool)

  /** `seen` holds, per tenant, the set of pages touched in its current window, as a list without duplicates. */
  datatype Progress = Progress(cache: Cache, misses: nat, prefetched: nat, next: nat, seen: map<nat, seq<nat>>)

  ghost predicate Sound(s: Settings) {
    1 <= s.capacity && forall i | 0 <= i < |s.opens| :: s.opens[i].tenant < |s.envs|
  }

  ghost predicate Consistent(s: Settings, g: Progress) {
    WellFormed(g.cache, s.envs, s.capacity) && g.next <= |s.opens|
  }

  /** Fetches pages of one tenant ahead of use, until one finds no victim outside authority. */
  ghost function Fetch(s: Settings, c: Cache, u: nat, pages: seq<nat>, at: real): (r: (Cache, nat))
    requires Sound(s) && WellFormed(c, s.envs, s.capacity) && u < |s.envs|
    ensures WellFormed(r.0, s.envs, s.capacity)
    decreases |pages|
  {
    if pages == [] then (c, 0)
    else
      var k := Page(u, pages[0]);
      if k in c.lru then Fetch(s, c, u, pages[1..], at)
      else
        match Inserted(c, s.envs, s.capacity, k, at, true)
        case None => (c, 0)
        case Some(c') => var r := Fetch(s, c', u, pages[1..], at); (r.0, r.1 + 1)
  }

  predicate NatLe(a: nat, b: nat) { a <= b }

  /** The pages to fetch at an opening: those of the previous window, or the whole hot set. */
  function WantedPages(wsOnly: bool, seen: map<nat, seq<nat>>, u: nat): seq<nat> {
    if wsOnly then Sorting.Sort<nat>(if u in seen then seen[u] else [], NatLe)
    else seq(HOT_PAGES, i requires 0 <= i < HOT_PAGES => i)
  }

  /** All prefetches for windows that opened by `now`. */
  ghost function Prefetches(s: Settings, g: Progress, now: real): (g': Progress)
    requires Sound(s) && Consistent(s, g)
    ensures Consistent(s, g')
    decreases |s.opens| - g.next
  {
    if g.next < |s.opens| && s.opens[g.next].at <= now then
      Prefetches(s, OneOpening(s, g), now)
    else g
  }

  ghost function OneOpening(s: Settings, g: Progress): (g': Progress)
    requires Sound(s) && Consistent(s, g) && g.next < |s.opens|
    ensures Consistent(s, g') && g'.next == g.next + 1
  {
    var o := s.opens[g.next];
    var r := Fetch(s, g.cache, o.tenant, WantedPages(s.wsOnly, g.seen, o.tenant), o.at);
    g.(cache := r.0, prefetched := g.prefetched + r.1, next := g.next + 1,
       seen := if s.wsOnly then g.seen[o.tenant := []] else g.seen)
  }

  function Mark(seen: map<nat, seq<nat>>, t: nat, p: nat): map<nat, seq<nat>> {
    var pages := if t in seen then seen[t] else [];
    seen[t := if p in pages then pages else pages + [p]]
  }

  ghost function Refer1(s: Settings, g: Progress, r: Ref): (g': Progress)
    requires Sound(s) && Consistent(s, g) && r.tenant < |s.envs|
    ensures Consistent(s, g')
  {
    var k := KeyOf(r);
    if k in g.cache.lru then
      TouchSpec(s, g.cache, k);
      g.(cache := Cache(Drop(g.cache.lru, k) + [k], g.cache.tenants), seen := Mark(g.seen, r.tenant, r.page))
    else
      g.(cache := Inserted(g.cache, s.envs, s.capacity, k, r.at, false).value, misses := g.misses + 1,
         seen := Mark(g.seen, r.tenant, r.page))
  }

  lemma {:induction false} TouchSpec(s: Settings, c: Cache, k: Page)
    requires WellFormed(c, s.envs, s.capacity) && k in c.lru
    ensures WellFormed(Cache(Drop(c.lru, k) + [k], c.tenants), s.envs, s.capacity)
    ensures Elems(Drop(c.lru, k) + [k]) == Elems(c.lru)
  {
    DropSpec(c, s.envs, s.capacity, k);
    ElemsConcat(Drop(c.lru, k), [k]);
  }

  ghost predicate KnownTenants(s: Settings, refs: seq<Ref>) {
    forall i | 0 <= i < |refs| :: refs[i].tenant < |s.envs|
  }

  const START := Progress(Cache([], []), 0, 0, 0, map[])

  ghost function Replay(s: Settings, refs: seq<Ref>): (g: Progress)
    requires Sound(s) && KnownTenants(s, refs)
    ensures Consistent(s, g)
  {
    if refs == [] then START
    else
      var r := refs[|refs| - 1];
      Refer1(s, Prefetches(s, Replay(s, refs[..|refs| - 1]), r.at), r)
  }

  // ---------------------------------------------------------------- run_envelope

  method FetchPages(s: Settings, cache: EnvelopeCache, u: nat, pages: seq<nat>, at: real) returns (n: nat)
    requires Sound(s) && cache.Valid() && cache.envs == s.envs && cache.capacity == s.capacity && u < |s.envs|
    modifies cache
    ensures cache.Valid()
    ensures (cache.View(), n) == Fetch(s, old(cache.View()), u, pages, at)
  {
    n := 0;
    ghost var goal := Fetch(s, cache.View(), u, pages, at);
    for i := 0 to |pages|
      invariant cache.Valid()
      invariant var r := Fetch(s, cache.View(), u, pages[i..], at); goal == (r.0, r.1 + n)
    {
      var k := Page(u, pages[i]);
      assert pages[i..][1..] == pages[i + 1..];
      if k in cache.lru {
        continue;
      }
      var ok := cache.Insert(k, at, true);
      if !ok {
        break;
      }
      n := n + 1;
    }
  }

  /** Handles the next window opening. */
  method PrefetchOpening(s: Settings, cache: EnvelopeCache, g: Progress) returns (g': Progress)
    requires Sound(s) && cache.Valid() && cache.envs == s.envs && cache.capacity == s.capacity
    requires Consistent(s, g) && g.cache == cache.View() && g.next < |s.opens|
    modifies cache
    ensures cache.Valid() && g'.cache == cache.View()
    ensures g' == OneOpening(s, g)
  {
    var o := s.opens[g.next];
    var pages := WantedPages(s.wsOnly, g.seen, o.tenant);
    var seen := g.seen;
    if s.wsOnly {
      seen := seen[o.tenant := []];
    }
    var n := FetchPages(s, cache, o.tenant, pages, o.at);
    g' := Progress(Cache(cache.lru, cache.tenants), g.misses, g.prefetched + n, g.next + 1, seen);
  }

  /** Handles every window that opened by `now`. */
  method PrefetchDue(s: Settings, cache: EnvelopeCache, g: Progress, now: real) returns (g': Progress)
    requires Sound(s) && cache.Valid() && cache.envs == s.envs && cache.capacity == s.capacity
    requires Consistent(s, g) && g.cache == cache.View()
    modifies cache
    ensures cache.Valid() && g'.cache == cache.View()
    ensures g' == Prefetches(s, g, now)
  {
    g' := g;
    while g'.next < |s.opens| && s.opens[g'.next].at <= now
      invariant cache.Valid() && g'.cache == cache.View() && Consistent(s, g')
      invariant Prefetches(s, g', now) == Prefetches(s, g, now)
      decreases |s.opens| - g'.next
    {
      g' := PrefetchOpening(s, cache, g');
    }
  }

  /** Serves one reference. */
  method ServeRef(s: Settings, cache: EnvelopeCache, g: Progress, r: Ref) returns (g': Progress)
    requires Sound(s) && cache.Valid() && cache.envs == s.envs && cache.capacity == s.capacity
    requires Consistent(s, g) && g.cache == cache.View() && r.tenant < |s.envs|
    modifies cache
    ensures cache.Valid() && g'.cache == cache.View()
    ensures g' == Refer1(s, g, r)
  {
    var k := KeyOf(r);
    var seen, misses := Mark(g.seen, r.tenant, r.page), g.misses;
    if k in cache.lru {
      cache.Touch(k);
    } else {
      misses := misses + 1;
      var _ := cache.Insert(k, r.at, false);
    }
    g' := Progress(Cache(cache.lru, cache.tenants), misses, g.prefetched, g.next, seen);
  }

  /** run_envelope: the misses and the prefetch reads of the replay. */
  method RunEnvelope(refs: seq<Ref>, capacity: nat, envs: seq<Envelope>, prefetch: bool, wsOnly: bool)
    returns (misses: nat, prefetched: nat)
    requires 1 <= capacity
    requires forall i | 0 <= i < |refs| :: refs[i].tenant < |envs|
    ensures var g := Replay(Settings(envs, capacity, if prefetch then SortedOpens(envs) else [], wsOnly), refs);
            misses == g.misses && prefetched == g.prefetched
  {
    var s := Settings(envs, capacity, if prefetch then SortedOpens(envs) else [], wsOnly);
    var cache := new EnvelopeCache(envs, capacity);
    var g := START;
    for j := 0 to |refs|
      invariant cache.Valid() && fresh(cache) && g.cache == cache.View()
      invariant Sound(s) && KnownTenants(s, refs[..j])
      invariant g == Replay(s, refs[..j])
    {
      assert refs[..j + 1][..j] == refs[..j];
      g := PrefetchDue(s, cache, g, refs[j].at);
      g := ServeRef(s, cache, g, refs[j]);
    }
    assert refs[..|refs|] == refs;
    return g.misses, g.prefetched;
  }

  // ---------------------------------------------------------------- the replay is a schedule

  lemma {:induction false} FetchIsSchedule(s: Settings, c: Cache, u: nat, pages: seq<nat>, at: real, ops: seq<Op>,
                                           keys: seq<Page>) returns (ops': seq<Op>)
    requires Sound(s) && WellFormed(c, s.envs, s.capacity) && u < |s.envs|
    requires Serves(ops, keys, s.capacity) && Contents(ops) == Elems(c.lru)
    ensures var r := Fetch(s, c, u, pages, at);
            && Serves(ops', keys, s.capacity) && Contents(ops') == Elems(r.0.lru)
            && Loads(ops') == Loads(ops) + r.1
    decreases |pages|
  {
    if pages == [] {
      ops' := ops;
    } else {
      var k := Page(u, pages[0]);
      if k in c.lru {
        ops' := FetchIsSchedule(s, c, u, pages[1..], at, ops, keys);
      } else {
        InsertSpec(c, s.envs, s.capacity, k, at, true);
        var c' := Inserted(c, s.envs, s.capacity, k, at, true);
        if c'.None? {
          ops' := ops;
        } else {
          ops' := ExtendEvict(ops, Displaced(c, s.envs, s.capacity, at, true), keys, s.capacity);
          ExtendLoad(ops', k, keys, s.capacity);
          ops' := FetchIsSchedule(s, c'.value, u, pages[1..], at, ops' + [Load(k)], keys);
        }
      }
    }
  }

  /** A schedule that ends in the progress made so far. */
  ghost predicate Realizes(s: Settings, g: Progress, keys: seq<Page>, ops: seq<Op>) {
    && Serves(ops, keys, s.capacity) && Contents(ops) == Elems(g.cache.lru)
    && Loads(ops) == g.misses + g.prefetched
    && (s.opens == [] ==> OnDemand(ops))
  }

  lemma {:induction false} PrefetchesRealized(s: Settings, g: Progress, now: real, keys: seq<Page>, ops: seq<Op>)
    returns (ops': seq<Op>)
    requires Sound(s) && Consistent(s, g) && Realizes(s, g, keys, ops)
    ensures Realizes(s, Prefetches(s, g, now), keys, ops')
    decreases |s.opens| - g.next
  {
    ops' := ops;
    if g.next < |s.opens| && s.opens[g.next].at <= now {
      var o := s.opens[g.next];
      ops' := FetchIsSchedule(s, g.cache, o.tenant, WantedPages(s.wsOnly, g.seen, o.tenant), o.at, ops, keys);
      ops' := PrefetchesRealized(s, OneOpening(s, g), now, keys, ops');
    }
  }

  lemma {:induction false} ReferRealized(s: Settings, g: Progress, r: Ref, keys: seq<Page>, ops: seq<Op>)
    returns (ops': seq<Op>)
    requires Sound(s) && Consistent(s, g) && r.tenant < |s.envs| && Realizes(s, g, keys, ops)
    ensures Realizes(s, Refer1(s, g, r), keys + [KeyOf(r)], ops')
  {
    var k := KeyOf(r);
    if k in g.cache.lru {
      TouchSpec(s, g.cache, k);
      ops' := Refer(ops, keys, s.capacity, k, {});
    } else {
      InsertSpec(g.cache, s.envs, s.capacity, k, r.at, false);
      ops' := Refer(ops, keys, s.capacity, k, Displaced(g.cache, s.envs, s.capacity, r.at, false));
    }
  }

  /** Every replay is a legal schedule whose reads are its misses plus its prefetches. */
  lemma {:induction false} ReplayIsSchedule(s: Settings, refs: seq<Ref>) returns (ops: seq<Op>)
    requires Sound(s) && KnownTenants(s, refs)
    ensures Realizes(s, Replay(s, refs), Keys(refs), ops)
  {
    if refs == [] {
      ops := [];
    } else {
      var before, r := refs[..|refs| - 1], refs[|refs| - 1];
      assert Keys(refs) == Keys(before) + [KeyOf(r)];
      ops := ReplayIsSchedule(s, before);
      ops := PrefetchesRealized(s, Replay(s, before), r.at, Keys(before), ops);
      ops := ReferRealized(s, Prefetches(s, Replay(s, before), r.at), r, Keys(before), ops);
    }
  }

  /**
   The ceiling on total reads: whatever is prefetched, misses plus prefetch reads are at
   least Belady's misses; without prefetch the misses alone are.
   */
  lemma {:induction false} OptAtMostEnvelope(s: Settings, refs: seq<Ref>, opt: nat)
    requires Sound(s) && KnownTenants(s, refs)
    requires IsFewestReads(Keys(refs), s.capacity, opt)
    ensures opt <= Replay(s, refs).misses + Replay(s, refs).prefetched
    ensures s.opens == [] ==> opt <= Replay(s, refs).misses
  {
    var ops := ReplayIsSchedule(s, refs);
    if s.opens == [] {
      NoPrefetch(s, refs);
    }
  }

  lemma {:induction false} NoPrefetch(s: Settings, refs: seq<Ref>)
    requires Sound(s) && KnownTenants(s, refs) && s.opens == []
    ensures Replay(s, refs).prefetched == 0
  {
    if refs != [] {
      NoPrefetch(s, refs[..|refs| - 1]);
    }
  }

  /** One tenant, one window, one reference to page 0 at its opening, and a cache of one page. */
  const OneWindow := [Envelope(Interactive, [Window(1.0, 2.0)])]
  const OneOpen := Settings(OneWindow, 1, [Open(1.0, 0)], false)
  const OneRef := [Ref(1.0, 0, 0)]

  /** One page fits, and the next finds no victim. */
  lemma {:induction false} FetchesOne(s: Settings, c: Cache, u: nat, pages: seq<nat>, at: real, c': Cache)
    requires Sound(s) && WellFormed(c, s.envs, s.capacity) && u < |s.envs| && |pages| >= 2
    requires Page(u, pages[0]) !in c.lru && Inserted(c, s.envs, s.capacity, Page(u, pages[0]), at, true) == Some(c')
    requires Page(u, pages[1]) !in c'.lru && Inserted(c', s.envs, s.capacity, Page(u, pages[1]), at, true).None?
    ensures Fetch(s, c, u, pages, at) == (c', 1)
  {
    assert pages[1..][0] == pages[1];
    assert Fetch(s, c', u, pages[1..], at) == (c', 0);
  }

  const OnePage := Cache([Page(0, 0)], [0])

  lemma {:induction false} OnePageFits()
    ensures Sound(OneOpen) && KnownTenants(OneOpen, OneRef) && WellFormed(OnePage, OneWindow, 1)
    ensures Inserted(START.cache, OneWindow, 1, Page(0, 0), 1.0, true) == Some(OnePage)
  {
    assert START.cache.lru + [Page(0, 0)] == OnePage.lru && AddTenant([], 0) == OnePage.tenants;
  }

  lemma {:induction false} OnePageStays()
    requires WellFormed(OnePage, OneWindow, 1)
    ensures Inserted(OnePage, OneWindow, 1, Page(0, 1), 1.0, true).None?
  {
    assert OneWindow[0].windows[0] == Window(1.0, 2.0);
    assert Authorized(OneWindow[0], 1.0);
    assert BestTenant(OnePage.lru, OnePage.tenants, OneWindow, 1.0).None?;
  }

  lemma {:induction false} OneOpenFetches()
    ensures Sound(OneOpen) && KnownTenants(OneOpen, OneRef)
    ensures Fetch(OneOpen, START.cache, 0, WantedPages(false, map[], 0), 1.0) == (OnePage, 1)
  {
    OnePageFits();
    OnePageStays();
    FetchesOne(OneOpen, START.cache, 0, WantedPages(false, map[], 0), 1.0, OnePage);
  }

  lemma {:induction false} OneOpenReplays()
    ensures Sound(OneOpen) && KnownTenants(OneOpen, OneRef)
    ensures Replay(OneOpen, OneRef).misses == 0 && Replay(OneOpen, OneRef).prefetched == 1
  {
    OneOpenFetches();
    assert OneOpening(OneOpen, START) == Progress(OnePage, 0, 1, 1, map[]);
    assert OneRef[..0] == [];
  }

  lemma {:induction false} OneOpenIsSorted()
    ensures OneOpen.opens == SortedOpens(OneWindow)
  {
    assert OpensOf(OneWindow, 0, OneWindow[0].windows) == [Open(1.0, 0)];
    assert AllOpens(OneWindow, 1) == [Open(1.0, 0)];
  }

  lemma {:induction false} OneRead(opt: nat)
    requires IsFewestReads([Page(0, 0)], 1, opt)
    ensures opt == 1
  {
    SomeRead([Page(0, 0)], 1, opt);
    var ops := Refer([], [], 1, Page(0, 0), {});
    assert [] + [Page(0, 0)] == [Page(0, 0)];
  }

  /** Misses alone can beat the ceiling: one prefetched page saves the only miss. */
  lemma {:induction false} PrefetchMissesBelowOpt()
    ensures Sound(OneOpen) && KnownTenants(OneOpen, OneRef) && OneOpen.opens == SortedOpens(OneWindow)
    ensures Replay(OneOpen, OneRef).misses == 0 && Replay(OneOpen, OneRef).prefetched == 1
    ensures forall opt :: IsFewestReads(Keys(OneRef), 1, opt) ==> opt == 1
  {
    OneOpenReplays();
    OneOpenIsSorted();
    assert Keys(OneRef) == [Page(0, 0)];
    forall opt | IsFewestReads(Keys(OneRef), 1, opt)
      ensures opt == 1
    {
      OneRead(opt);
    }
  }

  /** Serving anything takes at least one read. */
  lemma {:induction false} SomeRead(keys: seq<Page>, capacity: nat, opt: nat)
    requires keys != [] && IsFewestReads(keys, capacity, opt)
    ensures opt >= 1
  {
    var ops :| Serves(ops, keys, capacity) && OnDemand(ops) && Loads(ops) == opt;
    if opt == 0 {
      NoLoadNoUse(ops, capacity);
    }
  }

  lemma {:induction false} NoLoadNoUse(ops: seq<Op>, capacity: nat)
    requires Legal(ops, capacity) && Loads(ops) == 0
    ensures Contents(ops) == {} && Served(ops) == []
    decreases |ops|
  {
    if ops != [] {
      NoLoadNoUse(ops[..|ops| - 1], capacity);
    }
  }

  /** Fetching into an empty cache, or for at least one page, leaves something cached. */
  lemma {:induction false} FetchHolds(s: Settings, c: Cache, u: nat, pages: seq<nat>, at: real)
    requires Sound(s) && WellFormed(c, s.envs, s.capacity) && u < |s.envs| && (c.lru != [] || pages != [])
    ensures Fetch(s, c, u, pages, at).0.lru != []
    decreases |pages|
  {
    if pages != [] {
      var k := Page(u, pages[0]);
      if k in c.lru {
        FetchHolds(s, c, u, pages[1..], at);
      } else {
        var c' := Inserted(c, s.envs, s.capacity, k, at, true);
        if c'.Some? {
          FetchHolds(s, c'.value, u, pages[1..], at);
        }
      }
    }
  }

  /** Prefetching the whole hot set for an opening leaves something cached, and counts no miss. */
  lemma {:induction false} PrefetchesHold(s: Settings, g: Progress, now: real)
    requires Sound(s) && !s.wsOnly && Consistent(s, g)
    requires g.cache.lru != [] || (g.next < |s.opens| && s.opens[g.next].at <= now)
    ensures Prefetches(s, g, now).cache.lru != [] && Prefetches(s, g, now).misses == g.misses
    decreases |s.opens| - g.next
  {
    if g.next < |s.opens| && s.opens[g.next].at <= now {
      var o := s.opens[g.next];
      FetchHolds(s, g.cache, o.tenant, WantedPages(s.wsOnly, g.seen, o.tenant), o.at);
      PrefetchesHold(s, OneOpening(s, g), now);
    }
  }

  /** A single reference takes exactly one read. */
  lemma {:induction false} OneReadFewest(k: Page, capacity: nat)
    requires 1 <= capacity
    ensures IsFewestReads([k], capacity, 1)
  {
    var ops := Refer([], [], capacity, k, {});
    assert [] + [k] == [k];
    forall other | Serves(other, [k], capacity)
      ensures 1 <= Loads(other)
    {
      if Loads(other) == 0 {
        NoLoadNoUse(other, capacity);
      }
    }
  }

  /** Wherever a window opens, a reference to what is prefetched first is served without a miss. */
  lemma {:induction false} AnyOpeningBeats(s: Settings) returns (r: Ref)
    requires Sound(s) && !s.wsOnly && s.opens != []
    ensures KnownTenants(s, [r]) && Replay(s, [r]).misses == 0 && IsFewestReads(Keys([r]), s.capacity, 1)
  {
    var at := s.opens[0].at;
    PrefetchesHold(s, START, at);
    var g := Prefetches(s, START, at);
    var k := g.cache.lru[0];
    assert k in g.cache.lru && k.tenant in g.cache.tenants;
    r := Ref(at, k.tenant, k.page);
    assert [r][..0] == [] && Keys([r]) == [k];
    OneReadFewest(k, s.capacity);
  }

  /** Misses alone are at least the fewest reads, whatever is referenced. */
  ghost predicate MissesBound(s: Settings)
    requires Sound(s)
  {
    forall refs, opt: nat | KnownTenants(s, refs) && IsFewestReads(Keys(refs), s.capacity, opt) ::
      opt <= Replay(s, refs).misses
  }

  /** Exactly when the misses alone obey the ceiling, for the prefetch of the whole hot set: when no window opens. */
  lemma {:induction false} MissesBoundExactly(s: Settings)
    requires Sound(s) && !s.wsOnly
    ensures MissesBound(s) <==> s.opens == []
  {
    if s.opens == [] {
      forall refs, opt: nat | KnownTenants(s, refs) && IsFewestReads(Keys(refs), s.capacity, opt)
        ensures opt <= Replay(s, refs).misses
      {
        OptAtMostEnvelope(s, refs, opt);
      }
    } else {
      var r := AnyOpeningBeats(s);
      assert !(1 <= Replay(s, [r]).misses);
    }
  }

  // ---------------------------------------------------------------- no information, no difference

  ghost predicate AlwaysAuthorized(envs: seq<Envelope>, refs: seq<Ref>) {
    forall i, t | 0 <= i < |refs| && 0 <= t < |envs| :: Authorized(envs[t], refs[i].at)
  }

  /** With everyone authorized, a reference does to the page order what LRU does. */
  lemma {:induction false} ControlStep(s: Settings, g: Progress, r: Ref)
    requires Sound(s) && Consistent(s, g) && r.tenant < |s.envs|
    requires forall t | 0 <= t < |s.envs| :: Authorized(s.envs[t], r.at)
    ensures Refer1(s, g, r).cache.lru == LruStep(g.cache.lru, s.capacity, KeyOf(r))
  {
    var k := KeyOf(r);
    if k !in g.cache.lru && |g.cache.lru| >= s.capacity {
      var best := BestTenant(g.cache.lru, g.cache.tenants, s.envs, r.at);
      assert best.None?;
      var v := g.cache.lru[0];
      assert IndexOf(g.cache.lru, v) == 0;
      assert Drop(g.cache.lru, v) == g.cache.lru[1..];
    }
  }

  /**
   The control: if the envelope says nothing (everyone is authorized at every reference)
   and nothing is prefetched, the cache is the LRU cache after every list of references,
   so every eviction and every miss is the same.
   */
  lemma {:induction false} ControlEquality(s: Settings, refs: seq<Ref>)
    requires Sound(s) && KnownTenants(s, refs) && s.opens == [] && AlwaysAuthorized(s.envs, refs)
    ensures Replay(s, refs).cache.lru == LruCache(Keys(refs), s.capacity)
    ensures Replay(s, refs).misses == LruMisses(Keys(refs), s.capacity) && Replay(s, refs).prefetched == 0
  {
    NoPrefetch(s, refs);
    if refs != [] {
      var before, r := refs[..|refs| - 1], refs[|refs| - 1];
      assert Keys(refs)[..|before|] == Keys(before);
      ControlEquality(s, before);
      ControlStep(s, Replay(s, before), r);
      LruIsRecent(Keys(before), s.capacity);
    }
  }
}
