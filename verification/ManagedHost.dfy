/**
 The managed policies of vre15/host.py: a bounded set of live tenants, the others demoted to
 snapshot files. Which tenants are live never shows in any tenant's state.
 */
module ManagedHosts {
  import opened Bytes
  import opened Pages
  import opened Traces
  import opened Requests
  import opened Guests
  import opened Snapshots

  datatype Policy = IdleLru | EnvelopeAware | Predictive

  // ---------------------------------------------------------------- snapshots of machines

  const BLOCKS_PER_PAGE: nat := 16

  /** The most Wasm pages a 32-bit memory can have. */
  const MAX_PAGES: nat := 65536

  /** Whole Wasm pages, at least as many as the module starts with. */
  ghost predicate Sized(x: Machine, minPages: nat) {
    && Blocks(x.memory) && |x.memory| % BLOCKS_PER_PAGE == 0
    && minPages <= |x.memory| / BLOCKS_PER_PAGE <= MAX_PAGES
  }

  /** The file is a snapshot of the machine, with any codec that can be restored. */
  ghost predicate Saves(f: Formats, moduleDigest: string, blob: seq<Byte>, x: Machine) {
    exists codec, bits, blocks ::
      && IsSnapshot(f, Flatten(x.memory), x.globals, moduleDigest, codec, bits, blocks, blob)
      && !(codec.Raw? && Flatten(x.memory) == [])
  }

  /** The formats round-trip, digests are 32 bytes long, and the headers of this module can be framed. */
  ghost predicate FormatsOk(f: Formats, moduleDigest: string) {
    && RoundTrips(f) && (forall x :: DigestFits(f, x))
    && forall h: Header :: HeaderFits(f, moduleDigest, h)
  }

  ghost predicate DigestFits(f: Formats, x: seq<Byte>) { |f.sha256(x)| == 32 }

  /** A header that a snapshot of this module can have; there are finitely many. */
  ghost predicate Arises(h: Header, moduleDigest: string) {
    && h.moduleDigest == moduleDigest && 0 <= h.pages <= MAX_PAGES
    && |h.memoryDigest| == 32 && |h.payloadDigest| == 32
  }

  ghost predicate HeaderFits(f: Formats, moduleDigest: string, h: Header) {
    Arises(h, moduleDigest) ==> |f.json(h)| < WORD
  }

  lemma {:induction false} SizedBytes(x: Machine, minPages: nat)
    requires Sized(x, minPages)
    ensures |Flatten(x.memory)| == PAGE * |x.memory| && |Flatten(x.memory)| % WASM_PAGE == 0
    ensures minPages <= |Flatten(x.memory)| / WASM_PAGE <= MAX_PAGES
    ensures Split(Flatten(x.memory)) == x.memory
  {
    FlattenLength(x.memory);
    BlocksAndPages(|x.memory|);
    SplitJoins(Flatten(x.memory));
    FlattenInjective(Split(Flatten(x.memory)), x.memory);
  }

  lemma {:induction false} BlocksAndPages(n: nat)
    requires n % BLOCKS_PER_PAGE == 0
    ensures PAGE * n % WASM_PAGE == 0 && PAGE * n / WASM_PAGE == n / BLOCKS_PER_PAGE
    ensures PAGE * n % PAGE == 0 && PAGE * n / PAGE == n
  {
    assert PAGE * n == WASM_PAGE * (n / BLOCKS_PER_PAGE);
  }

  /** materialize, from the file to the machine. */
  method Load(f: Formats, moduleDigest: string, minPages: nat, blob: seq<Byte>, ghost x: Machine) returns (y: Machine)
    requires FormatsOk(f, moduleDigest) && Sized(x, minPages) && Saves(f, moduleDigest, blob, x)
    ensures y == x
  {
    ghost var codec, bits, blocks :|
      && IsSnapshot(f, Flatten(x.memory), x.globals, moduleDigest, codec, bits, blocks, blob)
      && !(codec.Raw? && Flatten(x.memory) == []);
    SizedBytes(x, minPages);
    SnapshotAccepted(f, Flatten(x.memory), x.globals, moduleDigest, codec, bits, blocks, blob, true);
    var r, runs := Decode(f, blob, true);
    var (h, pieces) := r.value;
    SnapshotRestores(f, Flatten(x.memory), x.globals, moduleDigest, codec, bits, blocks, blob, h, runs, pieces);
    RestoresExactly(f, Flatten(x.memory), x.globals, moduleDigest, codec, bits, blocks, blob, h, runs, pieces);
    var restored := RestoreInto(h, pieces, moduleDigest, minPages);
    y := Machine(Split(restored.value.0), restored.value.1);
  }

  /** demote, from the machine to the file. */
  method Save(f: Formats, moduleDigest: string, x: Machine, ghost minPages: nat) returns (blob: seq<Byte>)
    requires FormatsOk(f, moduleDigest) && Sized(x, minPages)
    ensures Saves(f, moduleDigest, blob, x)
  {
    SizedBytes(x, minPages);
    var r, bits, blocks := Encode(f, Flatten(x.memory), x.globals, moduleDigest, Sparse);
    forall payload
      ensures |f.json(HeaderOf(f, Flatten(x.memory), x.globals, moduleDigest, Sparse, payload))| < WORD
    {
      assert DigestFits(f, Flatten(x.memory)) && DigestFits(f, payload);
      assert HeaderFits(f, moduleDigest, HeaderOf(f, Flatten(x.memory), x.globals, moduleDigest, Sparse, payload));
    }
    blob := r.value;
  }

  // ---------------------------------------------------------------- the live set, in insertion order

  ghost predicate NoDuplicates(order: seq<nat>) {
    forall i, j | 0 <= i < j < |order| :: order[i] != order[j]
  }

  ghost predicate Below(order: seq<nat>, n: nat) {
    forall i | 0 <= i < |order| :: order[i] < n
  }

  function Remove(order: seq<nat>, t: nat): (rest: seq<nat>) {
    if order == [] then []
    else if order[0] == t then order[1..]
    else [order[0]] + Remove(order[1..], t)
  }

  lemma {:induction false} RemoveRemoves(order: seq<nat>, t: nat)
    requires NoDuplicates(order) && t in order
    ensures |Remove(order, t)| == |order| - 1 && NoDuplicates(Remove(order, t))
    ensures forall u :: u in Remove(order, t) <==> u in order && u != t
  {
    assert order == [order[0]] + order[1..];
    if order[0] == t {
      assert t !in order[1..];
    } else {
      RemoveRemoves(order[1..], t);
      assert order[0] !in order[1..];
    }
  }

  /** The live machines, and the order in which they became live. */
  ghost predicate LiveOk(live: map<nat, Machine>, order: seq<nat>, n: nat) {
    NoDuplicates(order) && (forall t :: t in live <==> t in order) && (forall t | t in live :: t < n)
  }

  /** After k tenants of the sweep, those of them that were due are gone and everybody else is still live. */
  ghost predicate Swept(all: seq<nat>, k: nat, live: set<nat>, due: set<nat>) {
    NoDuplicates(all) && k <= |all| && forall t :: t in live <==> t in all && (t in due ==> t in all[k..])
  }

  lemma {:induction false} SweptNext(all: seq<nat>, k: nat, live: set<nat>, live': set<nat>, due: set<nat>)
    requires Swept(all, k, live, due) && k < |all| && (all[k] in live' <==> all[k] !in due)
    requires forall t | t != all[k] :: t in live' <==> t in live
    ensures Swept(all, k + 1, live', due)
  {
    assert all[k..] == [all[k]] + all[k + 1..];
    assert all[k] !in all[k + 1..];
  }

  lemma {:induction false} SweptAll(all: seq<nat>, live: set<nat>, due: set<nat>)
    requires Swept(all, |all|, live, due)
    ensures forall t :: t in live <==> t in all && t !in due
  {
    assert all[|all|..] == [];
  }

  lemma {:induction false} LiveBelow(live: map<nat, Machine>, order: seq<nat>, n: nat)
    requires LiveOk(live, order, n)
    ensures Below(order, n)
  {
    forall i | 0 <= i < |order|
      ensures order[i] < n
    {
      assert order[i] in order;
    }
  }

  lemma {:induction false} LiveWithout(live: map<nat, Machine>, order: seq<nat>, n: nat, t: nat)
    requires LiveOk(live, order, n) && t in live
    ensures LiveOk(live - {t}, Remove(order, t), n) && |Remove(order, t)| == |order| - 1
  {
    RemoveRemoves(order, t);
  }

  lemma {:induction false} LiveWith(live: map<nat, Machine>, order: seq<nat>, n: nat, t: nat, x: Machine)
    requires LiveOk(live, order, n) && t !in live && t < n
    ensures LiveOk(live[t := x], order + [t], n)
  {
  }

  // ---------------------------------------------------------------- victims

  /** The sort key of a tenant: outside authority first, then batch, then the longest idle. */
  datatype Rank = Rank(tier: nat, last: real)

  predicate Precedes(a: Rank, b: Rank) {
    a.tier < b.tier || (a.tier == b.tier && a.last < b.last)
  }

  function RankOf(policy: Policy, e: Envelope, last: real, now: real): Rank {
    if policy.IdleLru? then Rank(0, last)
    else Rank(if !Authorized(e, now) then 0 else if e.cls.Batch? then 1 else 2, last)
  }

  /** A tenant that no live tenant precedes. */
  ghost predicate IsVictim(policy: Policy, env: seq<Envelope>, last: seq<real>, now: real, order: seq<nat>, v: nat) {
    && |last| == |env| && v in order && Below(order, |env|)
    && forall u | u in order :: !Precedes(RankOf(policy, env[u], last[u], now), RankOf(policy, env[v], last[v], now))
  }

  /** victim: the least rank among the live tenants. */
  method Victim(policy: Policy, env: seq<Envelope>, last: seq<real>, now: real, order: seq<nat>) returns (v: nat)
    requires order != [] && |last| == |env| && Below(order, |env|)
    ensures IsVictim(policy, env, last, now, order, v)
  {
    v := order[0];
    for k := 1 to |order|
      invariant v in order && v < |env|
      invariant forall i | 0 <= i < k ::
                  !Precedes(RankOf(policy, env[order[i]], last[order[i]], now), RankOf(policy, env[v], last[v], now))
    {
      if Precedes(RankOf(policy, env[order[k]], last[order[k]], now), RankOf(policy, env[v], last[v], now)) {
        v := order[k];
      }
    }
  }

  /** The tenant u, which stays, does not precede the tenant t, which goes. */
  ghost predicate Yields(policy: Policy, env: seq<Envelope>, last: seq<real>, now: real, t: nat, u: nat) {
    && t < |env| == |last| && u < |env|
    && !Precedes(RankOf(policy, env[u], last[u], now), RankOf(policy, env[t], last[t], now))
  }

  /** Under the envelope policies a tenant under authority never goes while one outside it stays. */
  lemma {:induction false} OutsideGoesFirst(policy: Policy, env: seq<Envelope>, last: seq<real>, now: real, t: nat,
                                            u: nat)
    requires !policy.IdleLru? && Yields(policy, env, last, now, t, u) && !Authorized(env[u], now)
    ensures !Authorized(env[t], now)
  {
  }

  // ---------------------------------------------------------------- the host

  /** A live tenant is in memory, any other in its file; either way it is where it should be. */
  ghost predicate Kept(f: Formats, moduleDigest: string, live: map<nat, Machine>, blob: seq<Byte>, t: nat, x: Machine) {
    if t in live then live[t] == x else Saves(f, moduleDigest, blob, x)
  }

  ghost predicate AllKept(f: Formats, moduleDigest: string, guest: Machine -> Machine, start: seq<Machine>,
                          steps: seq<nat>, live: map<nat, Machine>, saved: seq<seq<Byte>>) {
    && |start| == |steps| == |saved|
    && forall t | 0 <= t < |start| :: Kept(f, moduleDigest, live, saved[t], t, After(guest, start[t], steps[t]))
  }

  lemma {:induction false} KeptLoaded(f: Formats, moduleDigest: string, guest: Machine -> Machine, start: seq<Machine>,
                                      steps: seq<nat>, live: map<nat, Machine>, saved: seq<seq<Byte>>, t: nat)
    requires AllKept(f, moduleDigest, guest, start, steps, live, saved) && t < |start|
    ensures AllKept(f, moduleDigest, guest, start, steps, live[t := After(guest, start[t], steps[t])], saved)
  {
    var live' := live[t := After(guest, start[t], steps[t])];
    forall u | 0 <= u < |start|
      ensures Kept(f, moduleDigest, live', saved[u], u, After(guest, start[u], steps[u]))
    {
      assert Kept(f, moduleDigest, live, saved[u], u, After(guest, start[u], steps[u]));
    }
  }

  lemma {:induction false} KeptSaved(f: Formats, moduleDigest: string, guest: Machine -> Machine, start: seq<Machine>,
                                     steps: seq<nat>, live: map<nat, Machine>, saved: seq<seq<Byte>>, t: nat,
                                     blob: seq<Byte>)
    requires AllKept(f, moduleDigest, guest, start, steps, live, saved) && t < |start|
    requires Saves(f, moduleDigest, blob, After(guest, start[t], steps[t]))
    ensures AllKept(f, moduleDigest, guest, start, steps, live - {t}, saved[t := blob])
  {
    var live', saved' := live - {t}, saved[t := blob];
    forall u | 0 <= u < |start|
      ensures Kept(f, moduleDigest, live', saved'[u], u, After(guest, start[u], steps[u]))
    {
      assert Kept(f, moduleDigest, live, saved[u], u, After(guest, start[u], steps[u]));
    }
  }

  lemma {:induction false} KeptStepped(f: Formats, moduleDigest: string, guest: Machine -> Machine, start: seq<Machine>,
                                       steps: seq<nat>, live: map<nat, Machine>, saved: seq<seq<Byte>>, t: nat)
    requires AllKept(f, moduleDigest, guest, start, steps, live, saved) && t < |start| && t in live
    ensures AllKept(f, moduleDigest, guest, start, Bump(steps, t, true), live[t := guest(live[t])], saved)
  {
    var live', steps' := live[t := guest(live[t])], Bump(steps, t, true);
    forall u | 0 <= u < |start|
      ensures Kept(f, moduleDigest, live', saved[u], u, After(guest, start[u], steps'[u]))
    {
      assert Kept(f, moduleDigest, live, saved[u], u, After(guest, start[u], steps[u]));
    }
  }

  lemma {:induction false} AfterSized(guest: Machine -> Machine, x: Machine, n: nat, minPages: nat)
    requires IsGuest(guest) && Sized(x, minPages)
    ensures Sized(After(guest, x, n), minPages)
  {
    AfterBlocks(guest, x, n);
  }

  class Host {
    const policy: Policy
    const env: seq<Envelope>
    const guest: Machine -> Machine
    const f: Formats
    const moduleDigest: string
    const minPages: nat
    const cap: nat
    const idle: real
    /** The initial snapshot files, and the machines they hold. */
    const initial: seq<seq<Byte>>
    ghost const start: seq<Machine>
    var live: map<nat, Machine>
    var order: seq<nat>
    var saved: seq<seq<Byte>>
    var last: seq<real>
    var steps: seq<nat>
    /** Window openings still to come, and openings to prefetch for. */
    var opening: seq<(real, nat)>
    var pending: seq<nat>

    ghost predicate Configured()
      reads this
    {
      && FormatsOk(f, moduleDigest) && IsGuest(guest) && cap >= 1
      && |env| == |initial| == |start| == |saved| == |last| == |steps|
      && (forall t | 0 <= t < |env| :: Sized(start[t], minPages) && Saves(f, moduleDigest, initial[t], start[t]))
      && Below(pending, |env|) && (forall i | 0 <= i < |opening| :: opening[i].1 < |env|)
    }

    /** The live set, without its bound. */
    ghost predicate Faithful()
      requires Configured()
      reads this
    {
      LiveOk(live, order, |env|) && AllKept(f, moduleDigest, guest, start, steps, live, saved)
    }

    ghost predicate Valid()
      reads this
    {
      Configured() && Faithful() && |order| <= cap
    }

    /** No tenant is live, and every tenant's file is its initial snapshot. */
    constructor (policy: Policy, env: seq<Envelope>, guest: Machine -> Machine, f: Formats, moduleDigest: string,
                 minPages: nat, cap: nat, idle: real, initial: seq<seq<Byte>>, opening: seq<(real, nat)>,
                 ghost start: seq<Machine>)
      requires FormatsOk(f, moduleDigest) && IsGuest(guest) && cap >= 1 && |env| == |initial| == |start|
      requires forall t | 0 <= t < |env| :: Sized(start[t], minPages) && Saves(f, moduleDigest, initial[t], start[t])
      requires forall i | 0 <= i < |opening| :: opening[i].1 < |env|
      ensures Valid() && order == [] && steps == seq(|env|, _ => 0)
      ensures this.env == env && this.guest == guest && this.start == start && this.policy == policy
    {
      this.policy, this.env, this.guest, this.f, this.moduleDigest := policy, env, guest, f, moduleDigest;
      this.minPages, this.cap, this.idle, this.initial, this.start := minPages, cap, idle, initial, start;
      live, order, saved, this.opening, pending := map[], [], initial, opening, [];
      last, steps := seq(|env|, _ => -1000000000.0), seq(|env|, _ => 0);
    }

    /** materialize: the machine comes back exactly as it was saved. */
    method Materialize(t: nat)
      requires Configured() && Faithful() && t < |env| && t !in live
      modifies this`live, this`order
      ensures Configured() && Faithful() && order == old(order) + [t] && t in live
    {
      ghost var x := After(guest, start[t], steps[t]);
      AfterSized(guest, start[t], steps[t], minPages);
      assert Kept(f, moduleDigest, live, saved[t], t, x);
      var y := Load(f, moduleDigest, minPages, saved[t], x);
      KeptLoaded(f, moduleDigest, guest, start, steps, live, saved, t);
      LiveWith(live, order, |env|, t, y);
      live, order := live[t := y], order + [t];
    }

    /** demote: the machine goes to its file. */
    method Demote(t: nat)
      requires Configured() && Faithful() && t in live
      modifies this`live, this`order, this`saved
      ensures Configured() && Faithful() && order == Remove(old(order), t) && |order| == |old(order)| - 1
    {
      AfterSized(guest, start[t], steps[t], minPages);
      assert Kept(f, moduleDigest, live, saved[t], t, After(guest, start[t], steps[t]));
      var blob := Save(f, moduleDigest, live[t], minPages);
      KeptSaved(f, moduleDigest, guest, start, steps, live, saved, t, blob);
      LiveWithout(live, order, |env|, t);
      live, order, saved := live - {t}, Remove(order, t), saved[t := blob];
    }

    /**
     make_room: evicts until there is room, unless the victim is the tenant to make room for. Nobody is evicted whom a
     tenant that stays precedes; so, for the envelope policies, nobody under authority while someone outside it stays.
     */
    method MakeRoom(now: real, protect: nat)
      requires Valid()
      modifies this`live, this`order, this`saved
      ensures Valid() && (forall t | t in live :: t in old(live))
      ensures protect in live || |order| < cap
      ensures |old(order)| < cap ==> order == old(order)
      ensures forall t, u | t in old(live) && t !in live && u in live :: Yields(policy, env, last, now, t, u)
      ensures !policy.IdleLru? ==>
                forall t, u | t in old(live) && t !in live && u in live && !Authorized(env[u], now) ::
                  !Authorized(env[t], now)
    {
      while |order| >= cap
        invariant Valid() && (forall t | t in live :: t in old(live))
        invariant |old(order)| < cap ==> order == old(order)
        invariant forall t, u | t in old(live) && t !in live && u in live :: Yields(policy, env, last, now, t, u)
        decreases |order|
      {
        LiveBelow(live, order, |env|);
        var v := Victim(policy, env, last, now, order);
        if v == protect {
          break;
        }
        RemoveRemoves(order, v);
        Demote(v);
      }
      forall t, u | t in old(live) && t !in live && u in live && !policy.IdleLru? && !Authorized(env[u], now)
        ensures !Authorized(env[t], now)
      {
        OutsideGoesFirst(policy, env, last, now, t, u);
      }
    }

    /** A live tenant that housekeeping demotes: idle for too long, or, for the envelope policies, outside authority. */
    predicate Due(t: nat, h: real)
      requires t < |env| == |last|
      reads this
    {
      h - last[t] > idle || (!policy.IdleLru? && !Authorized(env[t], h))
    }

    /** The demotions of housekeeping: exactly the live tenants that are idle or, for the envelope policies, expired. */
    method Sweep(h: real)
      requires Valid()
      modifies this`live, this`order, this`saved
      ensures Valid() && forall t :: t in live <==> t in old(live) && !Due(t, h)
    {
      var all := order;
      ghost var due := set t | t in live && Due(t, h);
      for k := 0 to |all|
        invariant Valid() && Swept(all, k, live.Keys, due)
      {
        assert all[k] in all && all[k] in all[k..];
        ghost var before := live.Keys;
        Dismiss(all[k], h);
        SweptNext(all, k, before, live.Keys, due);
      }
      SweptAll(all, live.Keys, due);
    }

    /** One live tenant of the sweep. */
    method Dismiss(t: nat, h: real)
      requires Valid() && t in live
      modifies this`live, this`order, this`saved
      ensures Valid() && (t in live <==> !Due(t, h)) && forall u | u != t :: u in live <==> u in old(live)
    {
      if Due(t, h) {
        RemoveRemoves(order, t);
        Demote(t);
      }
    }

    /** Openings.pop_due, into the pending prefetches. */
    method PopOpenings(h: real)
      requires Valid()
      modifies this`opening, this`pending
      ensures Valid() && (opening == [] || opening[0].0 > h)
    {
      while opening != [] && opening[0].0 <= h
        invariant Valid()
        decreases |opening|
      {
        pending, opening := pending + [opening[0].1], opening[1..];
      }
    }

    /** The speculative part of the predictive policy: at most one tenant, and only into free capacity. */
    method Prefetch(h: real)
      requires Valid()
      modifies this`live, this`order, this`opening, this`pending, this`last
      ensures Valid() && old(order) <= order && |order| <= |old(order)| + 1
    {
      PopOpenings(h);
      while pending != []
        invariant Valid() && order == old(order)
        decreases |pending|
      {
        var t := pending[0];
        pending := pending[1..];
        if t !in live && env[t].cls.Interactive? && Authorized(env[t], h) {
          if |order| < cap {
            Materialize(t);
            last := last[t := h];
          }
          break;
        }
      }
    }

    /** housekeeping for the managed policies. */
    method Housekeeping(h: real)
      requires Valid()
      modifies this
      ensures Valid() && steps == old(steps)
    {
      Sweep(h);
      if policy.Predictive? {
        Prefetch(h);
      }
    }

    /** One guest step of a live tenant. */
    method Step(t: nat, at: real)
      requires Valid() && t in live
      modifies this`live, this`steps, this`last
      ensures Valid() && steps == Bump(old(steps), t, true)
    {
      KeptStepped(f, moduleDigest, guest, start, steps, live, saved, t);
      live, steps := live[t := guest(live[t])], Bump(steps, t, true);
      last := last[t := if at > last[t] then at else last[t]];
    }

    /** One request: denied outside authority, otherwise the tenant is made live and stepped. */
    method Handle(r: Request) returns (served: bool)
      requires Valid() && r.tenant < |env|
      modifies this
      ensures Valid() && served == Authorized(env[r.tenant], r.at) && steps == Bump(old(steps), r.tenant, served)
    {
      served := Authorized(env[r.tenant], r.at);
      if served {
        if r.tenant !in live {
          MakeRoom(r.at, r.tenant);
          Materialize(r.tenant);
        }
        Step(r.tenant, r.at);
      }
    }

    /** One round of the request loop, with its housekeeping passes. */
    method Process(r: Request, passes: seq<real>) returns (served: bool)
      requires Valid() && r.tenant < |env|
      modifies this
      ensures Valid() && served == Authorized(env[r.tenant], r.at) && steps == Bump(old(steps), r.tenant, served)
    {
      for j := 0 to |passes|
        invariant Valid() && steps == old(steps)
      {
        Housekeeping(passes[j]);
      }
      served := Handle(r);
    }

    /** The request loop, with any housekeeping passes before each request. */
    method Run(requests: seq<Request>, passes: seq<seq<real>>) returns (results: seq<bool>)
      requires Valid() && |passes| == |requests| && forall i | 0 <= i < |requests| :: requests[i].tenant < |env|
      modifies this
      ensures Valid() && Tally(env, requests, |requests|, results, old(steps), steps)
    {
      results := [];
      NoneServed(env, requests, steps);
      for k := 0 to |requests|
        invariant Valid() && Tally(env, requests, k, results, old(steps), steps)
      {
        ghost var before := steps;
        var served := Process(requests[k], passes[k]);
        OneMoreServed(env, requests, k, results, old(steps), before, steps);
        results := results + [served];
      }
    }

    /** integrity: every tenant, live or read back from its file, equals its initial snapshot advanced by its steps. */
    method Integrity() returns (failures: nat)
      requires Configured() && Faithful()
      modifies this`live, this`order
      ensures failures == 0
    {
      failures := 0;
      for t := 0 to |env|
        invariant Configured() && Faithful() && failures == 0
      {
        if t !in live {
          Materialize(t);
        }
        assert Kept(f, moduleDigest, live, saved[t], t, After(guest, start[t], steps[t]));
        var reference := Load(f, moduleDigest, minPages, initial[t], start[t]);
        for n := 0 to steps[t]
          invariant reference == After(guest, start[t], n)
        {
          reference := guest(reference);
        }
        failures := failures + if live[t] == reference then 0 else 1;
      }
    }
  }
}
