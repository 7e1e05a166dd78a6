/**
 The host of vre15/host.py under the `mapped-ckpt` policy: every tenant stays mapped over its
 image, and a checkpoint on every closing window keeps residency behind authority.
 */
module MappedHosts {
  import opened Bytes
  import opened Pages
  import opened Traces
  import opened Requests
  import opened Revocation
  import opened Evidence
  import opened Guests
  import Sorting

  // ---------------------------------------------------------------- window edges

  datatype Kind = Close | Open

  datatype Edge = Edge(time: real, tenant: nat, kind: Kind)

  /** Tuple order; "close" sorts before "open". */
  predicate EdgeLe(a: Edge, b: Edge) {
    || a.time < b.time
    || (a.time == b.time &&
        (a.tenant < b.tenant || (a.tenant == b.tenant && (a.kind.Close? || b.kind.Open?))))
  }

  lemma {:induction false} EdgeLeTotal()
    ensures Sorting.TotalOrder(EdgeLe)
  {
  }

  function EdgesOf(windows: seq<Window>, t: nat): (edges: seq<Edge>) {
    if windows == [] then []
    else [Edge(windows[0].start, t, Open), Edge(windows[0].end, t, Close)] + EdgesOf(windows[1..], t)
  }

  function AllEdges(env: seq<Envelope>): (edges: seq<Edge>) {
    if env == [] then []
    else AllEdges(env[..|env| - 1]) + EdgesOf(env[|env| - 1].windows, |env| - 1)
  }

  lemma {:induction false} EdgesOfMembers(windows: seq<Window>, t: nat, e: Edge)
    ensures e in EdgesOf(windows, t) <==>
            e.tenant == t && exists w :: w in windows && e.time == if e.kind.Open? then w.start else w.end
  {
    if windows != [] {
      EdgesOfMembers(windows[1..], t, e);
      assert windows == [windows[0]] + windows[1..];
    }
  }

  /** Edges.__init__ queues every window edge of every tenant, and nothing else. */
  lemma {:induction false} AllEdgesMembers(env: seq<Envelope>, e: Edge)
    ensures e in AllEdges(env) <==>
            e.tenant < |env| &&
            exists w :: w in env[e.tenant].windows && e.time == if e.kind.Open? then w.start else w.end
  {
    if env != [] {
      AllEdgesMembers(env[..|env| - 1], e);
      EdgesOfMembers(env[|env| - 1].windows, |env| - 1, e);
    }
  }

  /** What was popped lies at or before the horizon, what is queued lies after it. */
  ghost predicate QueueOk(env: seq<Envelope>, queue: seq<Edge>, next: nat, horizon: real) {
    && next <= |queue|
    && (forall i, j | 0 <= i < j < |queue| :: queue[i].time <= queue[j].time)
    && (forall i | 0 <= i < next :: queue[i].time <= horizon)
    && (forall i | next <= i < |queue| :: queue[i].time > horizon)
    && (forall i | 0 <= i < |queue| :: EdgeOk(env, queue[i]))
    && (forall t: nat, w | t < |env| && w in env[t].windows :: Edge(w.end, t, Close) in queue)
  }

  lemma {:induction false} QueueAdvanced(env: seq<Envelope>, queue: seq<Edge>, from: nat, horizon: real, next: nat,
                                         h: real)
    requires QueueOk(env, queue, from, horizon) && from <= next <= |queue|
    requires forall i | 0 <= i < next :: queue[i].time <= h
    requires next == |queue| || queue[next].time > h
    ensures QueueOk(env, queue, next, h)
  {
    forall i | next <= i < |queue|
      ensures queue[i].time > h
    {
      if next < i {
        assert queue[next].time <= queue[i].time;
      }
    }
  }

  ghost predicate EdgeOk(env: seq<Envelope>, e: Edge) {
    e.tenant < |env| && (e.kind.Close? ==> exists w :: w in env[e.tenant].windows && w.end == e.time)
  }

  // ---------------------------------------------------------------- residency and authority

  ghost predicate ClosedBy(e: Envelope, h: real) {
    exists w | w in e.windows :: w.end <= h
  }

  /**
   Residency follows authority: outside authority no page is held. After a warm-up, which steps every tenant whatever
   its windows are, this starts with the first window that closes.
   */
  ghost predicate Governed(warm: bool, e: Envelope, m: Mapping, h: real) {
    !Authorized(e, h) && (warm ==> ClosedBy(e, h)) ==> Dropped(m)
  }

  /** Between passes: a tenant that holds pages has a window that closes after the horizon and has opened by now. */
  ghost predicate Covered(warm: bool, e: Envelope, m: Mapping, horizon: real, latest: real) {
    !Dropped(m) && (warm ==> ClosedBy(e, horizon)) ==>
      exists w :: w in e.windows && w.end > horizon && w.start <= latest
  }

  lemma {:induction false} GovernedIsCovered(warm: bool, e: Envelope, m: Mapping, h: real)
    requires Governed(warm, e, m, h)
    ensures Covered(warm, e, m, h, h)
  {
  }

  /** A tenant that a pass must checkpoint has a window that closed since the last one. */
  lemma {:induction false} ClosedSince(warm: bool, e: Envelope, m: Mapping, horizon: real, latest: real, h: real)
    requires Covered(warm, e, m, horizon, latest) && horizon <= h && latest <= h && !Governed(warm, e, m, h)
    ensures exists w :: w in e.windows && horizon < w.end <= h
  {
    if !warm || ClosedBy(e, horizon) {
      var w :| w in e.windows && w.end > horizon && w.start <= latest;
      assert w.end <= h;
    }
  }

  /** A step under authority keeps the tenant covered. */
  lemma {:induction false} ServedIsCovered(warm: bool, e: Envelope, m: Mapping, horizon: real, at: real)
    requires Authorized(e, at) && horizon <= at
    ensures Covered(warm, e, m, horizon, at)
  {
    var w :| w in e.windows && w.start <= at < w.end;
  }

  /** The window whose end a checkpoint answers: the last one closed. */
  function LastClosed(windows: seq<Window>, h: real): (w: Window)
    requires exists w | w in windows :: w.end <= h
    ensures w in windows && w.end <= h && forall x | x in windows && x.end <= h :: x.end <= w.end
  {
    assert windows == windows[..|windows| - 1] + [windows[|windows| - 1]];
    var x, rest := windows[|windows| - 1], windows[..|windows| - 1];
    if x.end > h then LastClosed(rest, h)
    else if exists w | w in rest :: w.end <= h then
      var w := LastClosed(rest, h);
      if w.end < x.end then x else w
    else x
  }

  // ---------------------------------------------------------------- the host

  datatype Tenant = Tenant(mapping: Mapping, globals: Globals)

  function StateOf(t: Tenant): Machine
    requires |t.mapping.image| == |t.mapping.table|
  {
    Machine(Visible(t.mapping), t.globals)
  }

  /** The tenant is where its steps lead from its initial state. */
  ghost predicate Faithful(guest: Machine -> Machine, initial: Machine, t: Tenant, steps: nat) {
    && Revocation.Valid(t.mapping) && |t.mapping.table| > 0 && Blocks(initial.memory)
    && StateOf(t) == After(guest, initial, steps)
  }

  ghost predicate AllCovered(warm: bool, env: seq<Envelope>, tenants: seq<Tenant>, horizon: real, latest: real) {
    |tenants| == |env| && forall t | 0 <= t < |env| :: Covered(warm, env[t], tenants[t].mapping, horizon, latest)
  }

  ghost predicate AllFaithful(guest: Machine -> Machine, initial: seq<Machine>, tenants: seq<Tenant>, steps: seq<nat>) {
    |tenants| == |steps| == |initial| &&
    forall t | 0 <= t < |tenants| :: Faithful(guest, initial[t], tenants[t], steps[t])
  }

  lemma {:induction false} FaithfulUpdate(guest: Machine -> Machine, initial: seq<Machine>, tenants: seq<Tenant>,
                                          steps: seq<nat>, t: nat, x: Tenant, n: nat)
    requires AllFaithful(guest, initial, tenants, steps) && t < |tenants| && Faithful(guest, initial[t], x, n)
    ensures AllFaithful(guest, initial, tenants[t := x], steps[t := n])
  {
  }

  /** perf_counter: it never goes back, and passes every moment. */
  ghost predicate IsClock(clock: nat -> real) {
    && (forall i, j | i <= j :: clock(i) <= clock(j))
    && (forall x: real :: Reaches(clock, x))
  }

  ghost predicate Reaches(clock: nat -> real, x: real) {
    exists i: nat :: clock(i) >= x
  }

  /** A housekeeping pass: its horizon, and what each tenant had mapped after it. */
  datatype Pass = Pass(horizon: real, mappings: seq<Mapping>)

  ghost predicate PassOk(warm: bool, env: seq<Envelope>, p: Pass) {
    |p.mappings| == |env| && forall t | 0 <= t < |env| :: Governed(warm, env[t], p.mappings[t], p.horizon)
  }

  /** Every pass left residency behind authority, and horizons never go back. */
  ghost predicate PassesOk(warm: bool, env: seq<Envelope>, passes: seq<Pass>, horizon: real) {
    && (forall i | 0 <= i < |passes| :: PassOk(warm, env, passes[i]) && passes[i].horizon <= horizon)
    && (forall i, j | 0 <= i < j < |passes| :: passes[i].horizon <= passes[j].horizon)
  }

  /** At least one pass was taken since, with horizons between two moments. */
  ghost predicate Passed(before: seq<Pass>, after: seq<Pass>, from: real, to: real) {
    before < after && forall i | |before| <= i < |after| :: from <= after[i].horizon <= to
  }

  lemma {:induction false} PassedOn(a: seq<Pass>, b: seq<Pass>, c: seq<Pass>, from: real, mid: real, to: real)
    requires Passed(a, b, from, mid) && Passed(b, c, mid, to) && from <= mid <= to
    ensures Passed(a, c, from, to)
  {
    forall i | |a| <= i < |c|
      ensures from <= c[i].horizon <= to
    {
      if i < |b| {
        assert c[i] == b[i];
      }
    }
  }

  lemma {:induction false} PassesNext(warm: bool, env: seq<Envelope>, passes: seq<Pass>, horizon: real, p: Pass)
    requires PassesOk(warm, env, passes, horizon) && PassOk(warm, env, p) && horizon <= p.horizon
    ensures PassesOk(warm, env, passes + [p], p.horizon)
  {
  }

  /** At least k passes were taken since, with horizons between two moments. */
  ghost predicate Taken(before: seq<Pass>, after: seq<Pass>, from: real, to: real, k: nat) {
    && before <= after && |after| >= |before| + k && from <= to
    && forall i | |before| <= i < |after| :: from <= after[i].horizon <= to
  }

  lemma {:induction false} TakenNext(a: seq<Pass>, b: seq<Pass>, c: seq<Pass>, from: real, mid: real, to: real, k: nat)
    requires Taken(a, b, from, mid, k) && Passed(b, c, mid, to) && mid <= to
    ensures Taken(a, c, from, to, k + 1)
  {
    forall i | |a| <= i < |c|
      ensures from <= c[i].horizon <= to
    {
      if i < |b| {
        assert c[i] == b[i];
      }
    }
  }

  /**
   The requests answered so far: each was served exactly under authority, every served one is one step of its tenant,
   and at least one pass was taken for each, at horizons up to the last of them.
   */
  ghost predicate Done(env: seq<Envelope>, requests: seq<Request>, results: seq<bool>, steps: seq<nat>,
                       steps': seq<nat>, passes: seq<Pass>, passes': seq<Pass>, from: real, to: real) {
    && Tally(env, requests, |results|, results, steps, steps') && Taken(passes, passes', from, to, |results|)
    && to == if results == [] then from else requests[|results| - 1].at
  }

  lemma {:induction false} DoneNext(env: seq<Envelope>, requests: seq<Request>, results: seq<bool>, a: seq<nat>,
                                    b: seq<nat>, c: seq<nat>, p: seq<Pass>, q: seq<Pass>, r: seq<Pass>, from: real,
                                    mid: real, to: real)
    requires Done(env, requests, results, a, b, p, q, from, mid) && |results| < |requests|
    requires requests[|results|].tenant < |env| && mid <= to == requests[|results|].at && Passed(q, r, mid, to)
    requires c == Bump(b, requests[|results|].tenant, Authorized(env[requests[|results|].tenant], to))
    ensures Done(env, requests, results + [Authorized(env[requests[|results|].tenant], to)], a, c, p, r, from, to)
  {
    OneMoreServed(env, requests, |results|, results, a, b, c);
    TakenNext(p, q, r, from, mid, to, |results|);
  }

  /** The verifier accepts the journal with the images as they are, and it is from the past. */
  ghost predicate JournalOk(journal: seq<Record>, tenants: seq<Tenant>, now: real) {
    && InOrder(journal) && AllSound(journal)
    && (forall i | 0 <= i < |journal| ::
          journal[i].tenant < |tenants| && journal[i].completedAt <= now && journal[i].regionPages < WORD)
    && (forall t | 0 <= t < |tenants| :: ImageHolds(journal, t, Flatten(tenants[t].mapping.image)))
  }

  /** A new record about one tenant, whose image changed, leaves the others' last records and images alone. */
  lemma {:induction false} JournalGrows(journal: seq<Record>, tenants: seq<Tenant>, now: real, r: Record, x: Tenant,
                                        now': real)
    requires JournalOk(journal, tenants, now) && r.tenant < |tenants| && now <= r.completedAt <= now' && Sound(r)
    requires r.regionPages < WORD && Passes(r.receipt, x.mapping.image)
    ensures JournalOk(journal + [r], tenants[r.tenant := x], now')
  {
    var journal', tenants' := journal + [r], tenants[r.tenant := x];
    forall t | 0 <= t < |tenants|
      ensures ImageHolds(journal', t, Flatten(tenants'[t].mapping.image))
    {
      ImageStillHolds(journal, r, t, Flatten(tenants'[t].mapping.image));
      assert ImageHolds(journal, t, Flatten(tenants[t].mapping.image));
    }
    RecordsInOrder(journal, r);
  }

  lemma {:induction false} ImageStillHolds(journal: seq<Record>, r: Record, t: nat, data: seq<Byte>)
    requires r.tenant == t ==> Packable(r.receipt.runs) && r.receipt.digest == Sha256(Recomputed(data, r.receipt.runs))
    ensures r.tenant == t || ImageHolds(journal, t, data) ==> ImageHolds(journal + [r], t, data)
  {
    assert (journal + [r])[..|journal|] == journal;
  }

  lemma {:induction false} RecordsInOrder(journal: seq<Record>, r: Record)
    requires InOrder(journal) && AllSound(journal) && Sound(r)
    requires forall i | 0 <= i < |journal| :: journal[i].completedAt <= r.completedAt
    ensures InOrder(journal + [r]) && AllSound(journal + [r])
  {
  }

  /** A revocation of one tenant: its state, its receipt, and how many pages it still holds. */
  method Drop(guest: Machine -> Machine, initial: Machine, x: Tenant, steps: nat)
    returns (x': Tenant, receipt: Receipt, held: nat)
    requires Faithful(guest, initial, x, steps)
    ensures Faithful(guest, initial, x', steps) && Dropped(x'.mapping) && held == 0
    ensures Passes(receipt, x'.mapping.image) && |x'.mapping.image| == |x'.mapping.table|
  {
    var r := Revoke(x.mapping);
    var m', receipt' := r.value.0, r.value.1;
    ReceiptPasses(x.mapping, m', receipt');
    var pages := HeldPrivately(m'.table);
    x', receipt, held := x.(mapping := m'), receipt', |pages|;
  }

  function Mappings(tenants: seq<Tenant>): (ms: seq<Mapping>)
    ensures |ms| == |tenants| && forall t | 0 <= t < |ms| :: ms[t] == tenants[t].mapping
  {
    seq(|tenants|, t requires 0 <= t < |tenants| => tenants[t].mapping)
  }

  /** A closing edge of the tenant is still to be looked at. */
  ghost predicate Awaits(due: seq<Edge>, k: nat, t: nat) {
    exists j :: k <= j < |due| && due[j].tenant == t && due[j].kind.Close?
  }

  lemma {:induction false} EdgeIsDue(env: seq<Envelope>, queue: seq<Edge>, from: nat, before: real, next: nat, h: real,
                                     t: nat, w: Window)
    requires QueueOk(env, queue, from, before) && QueueOk(env, queue, next, h) && from <= next
    requires t < |env| && w in env[t].windows && before < w.end <= h
    ensures Awaits(queue[from..next], 0, t)
  {
    var i :| 0 <= i < |queue| && queue[i] == Edge(w.end, t, Close);
    assert queue[from..next][i - from] == queue[i];
  }

  /** Every tenant that breaks the rule is still to be looked at. */
  ghost predicate Owed(warm: bool, env: seq<Envelope>, tenants: seq<Tenant>, h: real, due: seq<Edge>, k: nat) {
    |tenants| == |env| &&
    forall t | 0 <= t < |env| && !Governed(warm, env[t], tenants[t].mapping, h) :: Awaits(due, k, t)
  }

  lemma {:induction false} AllAwait(warm: bool, env: seq<Envelope>, tenants: seq<Tenant>, queue: seq<Edge>, from: nat,
                                    horizon: real, latest: real, next: nat, h: real)
    requires QueueOk(env, queue, from, horizon) && QueueOk(env, queue, next, h) && from <= next
    requires AllCovered(warm, env, tenants, horizon, latest) && horizon <= latest <= h
    ensures Owed(warm, env, tenants, h, queue[from..next], 0)
  {
    forall t | 0 <= t < |env| && !Governed(warm, env[t], tenants[t].mapping, h)
      ensures Awaits(queue[from..next], 0, t)
    {
      ClosedSince(warm, env[t], tenants[t].mapping, horizon, latest, h);
      var w :| w in env[t].windows && horizon < w.end <= h;
      EdgeIsDue(env, queue, from, horizon, next, h, t, w);
    }
  }

  lemma {:induction false} OwedNext(warm: bool, env: seq<Envelope>, before: seq<Tenant>, tenants: seq<Tenant>, h: real,
                                    due: seq<Edge>, k: nat)
    requires Owed(warm, env, before, h, due, k) && k < |due| && due[k].tenant < |env| == |tenants|
    requires forall t | 0 <= t < |env| && t != due[k].tenant :: tenants[t] == before[t]
    requires due[k].kind.Close? ==> Governed(warm, env[due[k].tenant], tenants[due[k].tenant].mapping, h)
    requires due[k].kind.Open? ==> tenants == before
    ensures Owed(warm, env, tenants, h, due, k + 1)
  {
    forall t | 0 <= t < |env| && !Governed(warm, env[t], tenants[t].mapping, h)
      ensures Awaits(due, k + 1, t)
    {
      assert tenants[t] == before[t];
      var j :| k <= j < |due| && due[j].tenant == t && due[j].kind.Close?;
      assert j != k;
    }
  }

  lemma {:induction false} NothingOwed(warm: bool, env: seq<Envelope>, tenants: seq<Tenant>, h: real, due: seq<Edge>)
    requires Owed(warm, env, tenants, h, due, |due|)
    ensures forall t | 0 <= t < |env| :: Governed(warm, env[t], tenants[t].mapping, h)
  {
  }

  /** Every page that a step touches is held after it. */
  ghost predicate HoldsTouched(m: Mapping, access: nat -> Access) {
    forall i: nat | i < |m.table| && !access(i).Untouched? :: Held(m.table[i])
  }

  lemma {:induction false} TouchedIsHeld(m: Mapping, access: nat -> Access, i: nat)
    requires HoldsTouched(m, access) && i < |m.table| && !access(i).Untouched?
    ensures !Dropped(m)
  {
    assert Held(m.table[i]);
  }

  /** One guest step of a mapped tenant. */
  method StepTenant(guest: Machine -> Machine, initial: Machine, x: Tenant, steps: nat, access: nat -> Access)
    returns (x': Tenant)
    requires IsGuest(guest) && Faithful(guest, initial, x, steps)
    ensures Faithful(guest, initial, x', steps + 1) && x'.mapping.image == x.mapping.image
    ensures HoldsTouched(x'.mapping, access)
  {
    var after := guest(StateOf(x));
    AfterBlocks(guest, initial, steps + 1);
    AfterBlocks(guest, initial, steps);
    StepReads(x.mapping, after.memory, access);
    x' := Tenant(Step(x.mapping, after.memory, access), after.globals);
  }

  /** The kernel reclaims some pages of a tenant. */
  function Squeeze(x: Tenant, evict: nat -> bool): Tenant {
    x.(mapping := Reclaim(x.mapping, evict))
  }

  lemma {:induction false} SqueezeKeeps(warm: bool, guest: Machine -> Machine, initial: Machine, x: Tenant, steps: nat,
                                        evict: nat -> bool, e: Envelope, horizon: real, latest: real)
    requires Faithful(guest, initial, x, steps) && Covered(warm, e, x.mapping, horizon, latest)
    ensures Faithful(guest, initial, Squeeze(x, evict), steps)
    ensures Covered(warm, e, Squeeze(x, evict).mapping, horizon, latest)
    ensures Squeeze(x, evict).mapping.image == x.mapping.image
  {
    ReclaimReads(x.mapping, evict);
  }

  /** Nothing but a checkpoint changes an image. */
  lemma {:induction false} JournalKeeps(journal: seq<Record>, tenants: seq<Tenant>, tenants': seq<Tenant>, now: real)
    requires JournalOk(journal, tenants, now) && |tenants'| == |tenants|
    requires forall t | 0 <= t < |tenants| :: tenants'[t].mapping.image == tenants[t].mapping.image
    ensures JournalOk(journal, tenants', now)
  {
  }

  lemma {:induction false} CoveredLater(warm: bool, env: seq<Envelope>, tenants: seq<Tenant>, t: nat, x: Tenant,
                                        horizon: real, latest: real, at: real)
    requires AllCovered(warm, env, tenants, horizon, latest) && t < |env| && latest <= at
    requires Covered(warm, env[t], x.mapping, horizon, at)
    ensures AllCovered(warm, env, tenants[t := x], horizon, at)
  {
  }

  lemma {:induction false} JournalLater(journal: seq<Record>, tenants: seq<Tenant>, now: real, now': real)
    requires JournalOk(journal, tenants, now) && now <= now'
    ensures JournalOk(journal, tenants, now')
  {
  }

  function Fresh(x: Machine): Tenant {
    Tenant(Remap(x.memory), x.globals)
  }

  lemma {:induction false} FreshIsFaithful(guest: Machine -> Machine, x: Machine)
    requires Blocks(x.memory) && x.memory != []
    ensures Faithful(guest, x, Fresh(x), 0) && Dropped(Fresh(x).mapping)
  {
    assert Visible(Remap(x.memory)) == x.memory;
  }

  const RECORD_STEPS: nat := 32

  /** Every tenant is mapped fresh, and stepped if working sets are recorded. */
  method WarmUp(guest: Machine -> Machine, initial: seq<Machine>, access: (nat, nat) -> Access, recorded: bool)
    returns (xs: seq<Tenant>)
    requires IsGuest(guest) && forall t | 0 <= t < |initial| :: Blocks(initial[t].memory) && initial[t].memory != []
    ensures |xs| == |initial|
    ensures forall t | 0 <= t < |xs| :: Faithful(guest, initial[t], xs[t], if recorded then RECORD_STEPS else 0)
    ensures !recorded ==> forall t | 0 <= t < |xs| :: Dropped(xs[t].mapping)
    ensures recorded ==> forall t: nat | t < |xs| :: HoldsTouched(xs[t].mapping, (i: nat) => access(t, i))
  {
    xs := [];
    for t := 0 to |initial|
      invariant |xs| == t
      invariant forall u | 0 <= u < t :: Faithful(guest, initial[u], xs[u], if recorded then RECORD_STEPS else 0)
      invariant !recorded ==> forall u | 0 <= u < t :: Dropped(xs[u].mapping)
      invariant recorded ==> forall u: nat | u < t :: HoldsTouched(xs[u].mapping, (i: nat) => access(u, i))
    {
      FreshIsFaithful(guest, initial[t]);
      var x := Fresh(initial[t]);
      if recorded {
        for n := 0 to RECORD_STEPS
          invariant Faithful(guest, initial[t], x, n)
          invariant n > 0 ==> HoldsTouched(x.mapping, (i: nat) => access(t, i))
        {
          x := StepTenant(guest, initial[t], x, n, (i: nat) => access(t, i));
        }
      }
      xs := xs + [x];
    }
  }

  /** Before every edge no window has closed. */
  lemma {:induction false} StartsCovered(warm: bool, env: seq<Envelope>, t: nat, queue: seq<Edge>, m: Mapping,
                                         start: real)
    requires t < |env| && QueueOk(env, queue, 0, start) && (!warm ==> Dropped(m))
    ensures Covered(warm, env[t], m, start, start)
  {
    forall w | w in env[t].windows
      ensures w.end > start
    {
      var i :| 0 <= i < |queue| && queue[i] == Edge(w.end, t, Close);
    }
  }

  /** A moment before a given one and before every edge. */
  ghost function Floor(queue: seq<Edge>, x: real): (r: real)
    ensures r < x && forall i | 0 <= i < |queue| :: r < queue[i].time
  {
    if queue == [] then x - 1.0
    else
      var last := queue[|queue| - 1].time;
      Floor(queue[..|queue| - 1], if last < x then last else x)
  }

  lemma {:induction false} QueueStarts(env: seq<Envelope>, start: real)
    requires forall i | 0 <= i < |Sorting.Sort(AllEdges(env), EdgeLe)| ::
               start < Sorting.Sort(AllEdges(env), EdgeLe)[i].time
    ensures QueueOk(env, Sorting.Sort(AllEdges(env), EdgeLe), 0, start)
  {
    var edges := AllEdges(env);
    var queue := Sorting.Sort(edges, EdgeLe);
    EdgeLeTotal();
    Sorting.SortSorted(edges, EdgeLe);
    Sorting.SortMembers(edges, EdgeLe);
    forall i | 0 <= i < |queue|
      ensures EdgeOk(env, queue[i])
    {
      AllEdgesMembers(env, queue[i]);
    }
    forall t: nat, w | t < |env| && w in env[t].windows
      ensures Edge(w.end, t, Close) in queue
    {
      AllEdgesMembers(env, Edge(w.end, t, Close));
    }
  }

  class Host {
    const env: seq<Envelope>
    const guest: Machine -> Machine
    const initial: seq<Machine>
    /** The clock by reading, and what the kernel does with pages: loads and stores of a step, and reclaim. */
    const clock: nat -> real
    const access: (nat, nat) -> Access
    const pressure: (nat, nat, nat) -> bool
    /** Whether working sets were recorded in a warm-up. */
    const recorded: bool
    var ticks: nat
    var tenants: seq<Tenant>
    var steps: seq<nat>
    var queue: seq<Edge>
    var next: nat
    var journal: seq<Record>
    ghost var horizon: real
    ghost var latest: real
    ghost var passes: seq<Pass>

    /** The state of the tenants, and the evidence about it. */
    ghost predicate Consistent()
      reads this
    {
      && IsClock(clock) && IsGuest(guest)
      && |tenants| == |env| && AllFaithful(guest, initial, tenants, steps)
      && JournalOk(journal, tenants, clock(ticks))
    }

    ghost predicate Valid()
      reads this
    {
      && Consistent() && QueueOk(env, queue, next, horizon) && horizon <= latest <= clock(ticks)
      && AllCovered(recorded, env, tenants, horizon, latest)
      && PassesOk(recorded, env, passes, horizon)
    }

    /** Every tenant is mapped fresh over an image of its initial memory, maybe warmed up, and the edges are queued. */
    constructor (env: seq<Envelope>, guest: Machine -> Machine, initial: seq<Machine>, clock: nat -> real,
                 access: (nat, nat) -> Access, pressure: (nat, nat, nat) -> bool, recorded: bool, ghost first: real)
      requires IsClock(clock) && IsGuest(guest) && |initial| == |env|
      requires forall t | 0 <= t < |initial| :: Blocks(initial[t].memory) && initial[t].memory != []
      ensures Valid() && latest <= first && journal == [] && passes == []
      ensures steps == seq(|env|, _ => if recorded then RECORD_STEPS else 0)
      ensures this.env == env && this.guest == guest && this.initial == initial && this.recorded == recorded
      ensures this.clock == clock && ticks == 0 && |tenants| == |env|
      ensures recorded ==> forall t: nat | t < |env| :: HoldsTouched(tenants[t].mapping, (i: nat) => access(t, i))
    {
      this.env, this.guest, this.initial, this.recorded := env, guest, initial, recorded;
      this.clock, this.access, this.pressure := clock, access, pressure;
      ticks, journal, passes, next := 0, [], [], 0;
      var xs := WarmUp(guest, initial, access, recorded);
      tenants := xs;
      steps := seq(|env|, _ => if recorded then RECORD_STEPS else 0);
      var edges := Sorting.Sort(AllEdges(env), EdgeLe);
      queue := edges;
      ghost var start := Floor(edges, if first < clock(0) then first else clock(0));
      horizon, latest := start, start;
      QueueStarts(env, start);
      forall t | 0 <= t < |env|
        ensures Covered(recorded, env[t], xs[t].mapping, start, start)
      {
        StartsCovered(recorded, env, t, edges, xs[t].mapping, start);
      }
    }

    method Now() returns (now: real)
      modifies this`ticks
      ensures now == clock(old(ticks)) && ticks == old(ticks) + 1
    {
      now := clock(ticks);
      ticks := ticks + 1;
    }

    /** Edges.pop_due: the queued edges up to a moment. */
    method PopDue(h: real) returns (due: seq<Edge>)
      requires QueueOk(env, queue, next, horizon) && horizon <= h
      modifies this`next
      ensures QueueOk(env, queue, next, h)
      ensures old(next) <= next && due == queue[old(next)..next]
    {
      due := [];
      while next < |queue| && queue[next].time <= h
        invariant old(next) <= next <= |queue| && due == queue[old(next)..next]
        invariant forall i | 0 <= i < next :: queue[i].time <= h
      {
        due := due + [queue[next]];
        next := next + 1;
      }
      QueueAdvanced(env, queue, old(next), horizon, next, h);
    }

    /** checkpoint: revoke, measure, and journal a record. */
    method Checkpoint(t: nat, h: real)
      requires Consistent() && t < |env| && ClosedBy(env[t], h) && h <= clock(ticks)
      modifies this`ticks, this`tenants, this`journal
      ensures Consistent() && h <= clock(ticks) && ticks >= old(ticks)
      ensures |tenants| == |old(tenants)| && Dropped(tenants[t].mapping)
      ensures forall u | 0 <= u < |env| && u != t :: tenants[u] == old(tenants[u])
    {
      var started := Now();
      assert Faithful(guest, initial[t], tenants[t], steps[t]);
      var x, receipt, held := Drop(guest, initial[t], tenants[t], steps[t]);
      var done := Now();
      var window := LastClosed(env[t].windows, h);
      var record := Record(t, window.end, started, done, receipt, held, |x.mapping.table|);
      assert clock(old(ticks)) <= started <= done <= clock(ticks);
      JournalGrows(journal, tenants, clock(old(ticks)), record, x, clock(ticks));
      FaithfulUpdate(guest, initial, tenants, steps, t, x, steps[t]);
      assert steps[t := steps[t]] == steps;
      tenants, journal := tenants[t := x], journal + [record];
    }

    /** One due edge: an opening is skipped, and a closing checkpoints unless authority holds at the horizon. */
    method Look(e: Edge, h: real)
      requires Consistent() && EdgeOk(env, e) && e.time <= h <= clock(ticks)
      modifies this`ticks, this`tenants, this`journal
      ensures Consistent() && h <= clock(ticks) && ticks >= old(ticks)
      ensures forall t | 0 <= t < |env| && t != e.tenant :: tenants[t] == old(tenants[t])
      ensures e.kind.Close? ==> Governed(recorded, env[e.tenant], tenants[e.tenant].mapping, h)
      ensures e.kind.Open? ==> tenants == old(tenants)
      ensures e.kind.Close? ==> ClosedBy(env[e.tenant], h)
    {
      if e.kind.Close? && !Authorized(env[e.tenant], h) {
        Checkpoint(e.tenant, h);
      }
    }

    /** The loop of housekeeping over the due edges. */
    method CheckpointDue(due: seq<Edge>, h: real)
      requires Consistent() && h <= clock(ticks) && Owed(recorded, env, tenants, h, due, 0)
      requires forall i | 0 <= i < |due| :: EdgeOk(env, due[i]) && due[i].time <= h
      modifies this`ticks, this`tenants, this`journal
      ensures Consistent() && h <= clock(ticks) && ticks >= old(ticks)
      ensures forall t | 0 <= t < |env| :: Governed(recorded, env[t], tenants[t].mapping, h)
      ensures forall t | 0 <= t < |env| && !ClosedBy(env[t], h) :: tenants[t] == old(tenants[t])
    {
      for k := 0 to |due|
        invariant Consistent() && h <= clock(ticks) && ticks >= old(ticks)
        invariant Owed(recorded, env, tenants, h, due, k)
        invariant forall t | 0 <= t < |env| && !ClosedBy(env[t], h) :: tenants[t] == old(tenants[t])
      {
        ghost var before := tenants;
        Look(due[k], h);
        OwedNext(recorded, env, before, tenants, h, due, k);
      }
      NothingOwed(recorded, env, tenants, h, due);
    }

    /**
     housekeeping: the due edges are popped, and every tenant whose window closed is checkpointed unless it is under
     authority again. Afterwards residency follows authority for every tenant.
     */
    method Housekeeping(h: real)
      requires Valid() && latest <= h <= clock(ticks)
      modifies this
      ensures Valid() && horizon == latest == h && ticks >= old(ticks)
      ensures passes == old(passes) + [Pass(h, Mappings(tenants))]
      ensures steps == old(steps) && queue == old(queue)
      ensures |tenants| == |old(tenants)| == |env|
      ensures forall t | 0 <= t < |env| && !ClosedBy(env[t], h) :: tenants[t] == old(tenants[t])
    {
      var due := PopDue(h);
      AllAwait(recorded, env, tenants, queue, old(next), horizon, latest, next, h);
      CheckpointDue(due, h);
      forall t | 0 <= t < |env|
        ensures Covered(recorded, env[t], tenants[t].mapping, h, h)
      {
        GovernedIsCovered(recorded, env[t], tenants[t].mapping, h);
      }
      PassesNext(recorded, env, passes, horizon, Pass(h, Mappings(tenants)));
      horizon, latest := h, h;
      passes := passes + [Pass(h, Mappings(tenants))];
    }

    /** The tenants after a step of one of them under authority. */
    method Stepped(t: nat, at: real) returns (xs: seq<Tenant>)
      requires Valid() && t < |env| && latest <= at && Authorized(env[t], at)
      ensures AllFaithful(guest, initial, xs, Bump(steps, t, true)) && JournalOk(journal, xs, clock(ticks))
      ensures AllCovered(recorded, env, xs, horizon, at)
    {
      var tick, access := ticks, access;
      assert Faithful(guest, initial[t], tenants[t], steps[t]);
      var x := StepTenant(guest, initial[t], tenants[t], steps[t], (i: nat) => access(tick, i));
      xs := tenants[t := x];
      ServedIsCovered(recorded, env[t], x.mapping, horizon, at);
      JournalKeeps(journal, tenants, xs, clock(ticks));
      CoveredLater(recorded, env, tenants, t, x, horizon, latest, at);
      FaithfulUpdate(guest, initial, tenants, steps, t, x, steps[t] + 1);
    }

    /** One guest step of a tenant under authority. */
    method Serve(t: nat, at: real)
      requires Valid() && t < |env| && latest <= at <= clock(ticks) && Authorized(env[t], at)
      modifies this`tenants, this`steps, this`latest
      ensures Valid() && latest == at && steps == Bump(old(steps), t, true)
    {
      var xs := Stepped(t, at);
      tenants, steps, latest := xs, Bump(steps, t, true), at;
    }

    /** One request: denied outside authority, otherwise one guest step. */
    method Handle(r: Request) returns (served: bool)
      requires Valid() && r.tenant < |env| && latest <= r.at <= clock(ticks)
      modifies this`tenants, this`steps, this`latest
      ensures Valid() && latest == r.at
      ensures served == Authorized(env[r.tenant], r.at)
      ensures steps == Bump(old(steps), r.tenant, served)
    {
      served := Authorized(env[r.tenant], r.at);
      if served {
        Serve(r.tenant, r.at);
      } else {
        CoveredLater(recorded, env, tenants, r.tenant, tenants[r.tenant], horizon, latest, r.at);
        assert tenants[r.tenant := tenants[r.tenant]] == tenants;
        latest := r.at;
      }
    }

    /** The kernel reclaims pages of any tenants. */
    method Reclaimed()
      requires Valid()
      modifies this`tenants
      ensures Valid()
    {
      var tick, pressure, xs := ticks, pressure, tenants;
      var ys := seq(|xs|, t requires 0 <= t < |xs| => Squeeze(xs[t], (i: nat) => pressure(tick, t, i)));
      forall t | 0 <= t < |env|
        ensures Faithful(guest, initial[t], ys[t], steps[t]) && ys[t].mapping.image == xs[t].mapping.image
        ensures Covered(recorded, env[t], ys[t].mapping, horizon, latest)
      {
        SqueezeKeeps(recorded, guest, initial[t], xs[t], steps[t], (i: nat) => pressure(tick, t, i), env[t], horizon,
                     latest);
      }
      JournalKeeps(journal, xs, ys, clock(ticks));
      tenants := ys;
    }

    /** Reading the clock. */
    method Tick() returns (now: real)
      requires Valid()
      modifies this`ticks
      ensures Valid() && now == clock(old(ticks)) <= clock(ticks) && ticks == old(ticks) + 1
    {
      JournalLater(journal, tenants, clock(ticks), clock(ticks + 1));
      now := Now();
    }

    /** One round of the wait: a housekeeping pass at min(now, at). */
    method Round(at: real) returns (waiting: bool)
      requires Valid() && latest <= at
      modifies this
      ensures Valid() && old(latest) <= latest <= at && steps == old(steps) && ticks > old(ticks)
      ensures Passed(old(passes), passes, old(latest), latest)
      ensures waiting <==> clock(ticks - 1) < at
      ensures !waiting ==> at <= clock(ticks)
    {
      var now := Tick();
      Housekeeping(if now < at then now else at);
      var after := Tick();
      waiting := at - after > 0.0;
    }

    /** The wait for a request. */
    method Await(at: real)
      requires Valid() && latest <= at
      modifies this
      ensures Valid() && latest <= at <= clock(ticks) && steps == old(steps)
      ensures Passed(old(passes), passes, old(latest), latest)
    {
      assert Reaches(clock, at);
      ghost var n: nat :| clock(n) >= at;
      var waiting := Round(at);
      while waiting
        invariant Valid() && old(latest) <= latest <= at && steps == old(steps)
        invariant Passed(old(passes), passes, old(latest), latest)
        invariant ticks > 0 && (waiting <==> clock(ticks - 1) < at) && (!waiting ==> at <= clock(ticks))
        decreases waiting, if ticks <= n then n - ticks + 1 else 0
      {
        ghost var before, from := passes, latest;
        assert ticks <= n;
        waiting := Round(at);
        PassedOn(old(passes), before, passes, old(latest), from, latest);
      }
    }

    /** One round of the request loop; the kernel may reclaim afterwards. */
    method Process(r: Request) returns (served: bool)
      requires Valid() && latest <= r.at && r.tenant < |env|
      modifies this
      ensures Valid() && latest == r.at && served == Authorized(env[r.tenant], r.at)
      ensures steps == Bump(old(steps), r.tenant, served) && Passed(old(passes), passes, old(latest), r.at)
    {
      Await(r.at);
      served := Handle(r);
      Reclaimed();
    }

    /** One turn of the request loop. */
    method Turn(requests: seq<Request>, results: seq<bool>, ghost steps0: seq<nat>, ghost passes0: seq<Pass>,
                ghost from: real) returns (results': seq<bool>)
      requires Valid() && Done(env, requests, results, steps0, steps, passes0, passes, from, latest)
      requires |results| < |requests| && InTime(requests, from) && requests[|results|].tenant < |env|
      modifies this
      ensures Valid() && Done(env, requests, results', steps0, steps, passes0, passes, from, latest)
      ensures |results'| == |results| + 1
    {
      Upcoming(requests, from, |results|);
      var served := Process(requests[|results|]);
      results' := results + [served];
      DoneNext(env, requests, results, steps0, old(steps), steps, passes0, old(passes), passes, from, old(latest),
               latest);
    }

    /**
     The request loop. Requests are served exactly under authority, every tenant is stepped once per served one, and at
     least one housekeeping pass is taken for every request, at horizons up to the last request.
     */
    method Run(requests: seq<Request>) returns (results: seq<bool>)
      requires Valid() && InTime(requests, latest) && forall i | 0 <= i < |requests| :: requests[i].tenant < |env|
      modifies this
      ensures Valid() && |results| == |requests|
      ensures Done(env, requests, results, old(steps), steps, old(passes), passes, old(latest), latest)
    {
      results := [];
      NoneServed(env, requests, steps);
      while |results| < |requests|
        invariant Valid() && Done(env, requests, results, old(steps), steps, old(passes), passes, old(latest), latest)
      {
        results := Turn(requests, results, old(steps), old(passes), old(latest));
      }
    }

    /** integrity: no tenant differs from its initial state advanced by its steps. */
    method Integrity() returns (failures: nat)
      requires Valid()
      ensures failures == 0
    {
      failures := 0;
      for t := 0 to |env|
        invariant failures == 0
      {
        assert Faithful(guest, initial[t], tenants[t], steps[t]);
        var reference := initial[t];
        for n := 0 to steps[t]
          invariant reference == After(guest, initial[t], n)
        {
          reference := guest(reference);
        }
        failures := failures + if StateOf(tenants[t]) == reference then 0 else 1;
      }
    }

    /** The offline verifier accepts the host's evidence with its images, once there is any. */
    method Audit() returns (v: Verdict)
      requires Valid()
      ensures v.VALID? <==> journal != []
      ensures v.REJECTED_INCOMPLETE_BUNDLE? <==> journal == []
    {
      var xs := tenants;
      var images := seq(|xs|, t requires 0 <= t < |xs| => Flatten(xs[t].mapping.image));
      v := VerifyRecords(journal, images);
    }
  }

  // ---------------------------------------------------------------- the exception after a warm-up

  /**
   The exact rule after a warm-up. Housekeeping leaves no page of a tenant outside authority if some window of it has
   closed by the horizon; here every page was touched, and it leaves no page only then.
   */
  method WarmedExactly(env: seq<Envelope>, guest: Machine -> Machine, initial: seq<Machine>, clock: nat -> real,
                       pressure: (nat, nat, nat) -> bool, h: real) returns (host: Host)
    requires IsClock(clock) && IsGuest(guest) && |initial| == |env| && h <= clock(0)
    requires forall t | 0 <= t < |initial| :: Blocks(initial[t].memory) && initial[t].memory != []
    ensures fresh(host) && host.Valid() && host.env == env && host.recorded
    ensures host.passes == [Pass(h, Mappings(host.tenants))]
    ensures |host.tenants| == |env|
    ensures forall t | 0 <= t < |env| && !Authorized(env[t], h) ::
              Dropped(host.tenants[t].mapping) <==> ClosedBy(env[t], h)
  {
    host := new Host(env, guest, initial, clock, (_, _) => Loaded, pressure, true, h);
    ghost var before := host.tenants;
    host.Housekeeping(h);
    forall t | 0 <= t < |env| && !Authorized(env[t], h)
      ensures Dropped(host.tenants[t].mapping) <==> ClosedBy(env[t], h)
    {
      if ClosedBy(env[t], h) {
        assert PassOk(true, env, host.passes[0]);
        assert Governed(true, env[t], host.tenants[t].mapping, h);
      } else {
        TouchedIsHeld(before[t].mapping, (i: nat) => Loaded, 0);
      }
    }
  }

  const LaterWindow := Envelope(Interactive, [Window(10.0, 20.0)])

  lemma {:induction false} LaterWindowAtFive()
    ensures !Authorized(LaterWindow, 5.0) && !ClosedBy(LaterWindow, 5.0)
  {
  }

  lemma {:induction false} SecondsAreAClock()
    ensures IsClock((n: nat) => n as real + 5.0)
  {
    var clock := (n: nat) => n as real + 5.0;
    forall x: real
      ensures Reaches(clock, x)
    {
      var n: nat := if x < 0.0 then 0 else x.Floor + 1;
      assert clock(n) >= x;
    }
  }

  /** One tenant, whose only window is 10 s to 20 s: at 5 s it is outside authority and still holds pages. */
  method HeldBeforeTheWindow() returns (host: Host)
    ensures fresh(host) && host.Valid() && host.env == [LaterWindow] && host.recorded && |host.tenants| == 1
    ensures host.passes == [Pass(5.0, Mappings(host.tenants))]
    ensures !Authorized(LaterWindow, 5.0) && !Dropped(host.tenants[0].mapping)
  {
    LaterWindowAtFive();
    SecondsAreAClock();
    var page: seq<Byte> := seq(PAGE, _ => 0);
    var start := Machine([page], Globals(1, 0));
    host := WarmedExactly([LaterWindow], x => x, [start], (n: nat) => n as real + 5.0, (_, _, _) => false, 5.0);
  }
}
