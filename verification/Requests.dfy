/** The request loop's bookkeeping (vre15/host.py): what is served, and how often each tenant steps. */
module Requests {
  import opened Traces

  datatype Request = Request(at: real, tenant: nat)

  /** Requests in time order, none before a moment. */
  ghost predicate InTime(requests: seq<Request>, from: real) {
    && (forall i | 0 <= i < |requests| :: from <= requests[i].at)
    && (forall i, j | 0 <= i < j < |requests| :: requests[i].at <= requests[j].at)
  }

  lemma {:induction false} Upcoming(requests: seq<Request>, from: real, k: nat)
    requires InTime(requests, from) && k < |requests|
    ensures (if k == 0 then from else requests[k - 1].at) <= requests[k].at
  {
  }

  /** How many of the first k requests are a tenant's and arrive under authority. */
  function Served(env: seq<Envelope>, requests: seq<Request>, k: nat, t: nat): nat
    requires k <= |requests| && t < |env|
  {
    if k == 0 then 0
    else
      var r := requests[k - 1];
      Served(env, requests, k - 1, t) + if r.tenant == t && Authorized(env[t], r.at) then 1 else 0
  }

  /** Of the first k requests each is served exactly when it arrives under authority, and every served one is a step. */
  ghost predicate Tally(env: seq<Envelope>, requests: seq<Request>, k: nat, results: seq<bool>, before: seq<nat>,
                        after: seq<nat>) {
    && |results| == k <= |requests| && |before| == |after| == |env|
    && (forall i | 0 <= i < k ::
          requests[i].tenant < |env| && results[i] == Authorized(env[requests[i].tenant], requests[i].at))
    && (forall t | 0 <= t < |env| :: after[t] == before[t] + Served(env, requests, k, t))
  }

  /** One more step of a tenant, if it was served. */
  function Bump(steps: seq<nat>, t: nat, served: bool): seq<nat> {
    if served && t < |steps| then steps[t := steps[t] + 1] else steps
  }

  lemma {:induction false} NoneServed(env: seq<Envelope>, requests: seq<Request>, steps: seq<nat>)
    requires |steps| == |env|
    ensures Tally(env, requests, 0, [], steps, steps)
  {
  }

  lemma {:induction false} OneMoreServed(env: seq<Envelope>, requests: seq<Request>, k: nat, results: seq<bool>,
                                         start: seq<nat>, before: seq<nat>, after: seq<nat>)
    requires k < |requests| && Tally(env, requests, k, results, start, before) && requests[k].tenant < |env|
    requires after == Bump(before, requests[k].tenant, Authorized(env[requests[k].tenant], requests[k].at))
    ensures Tally(env, requests, k + 1, results + [Authorized(env[requests[k].tenant], requests[k].at)], start, after)
  {
  }
}
