/**
 The coordinator and the witness agree (vdb_c1/witness.py): a witness that has only seen one coordinator's journal, at
 whatever moments, refuses a later state of it exactly when a FINALIZED record it has not seen yet belongs to an intent
 whose recorded admission time is outside its authority window.
 */
module WitnessRuns {
  import opened Options
  import opened States
  import opened Canon
  import opened Journals
  import opened Protocol
  import opened Paths
  import opened Finality
  import opened Verifier
  import opened Completeness
  import opened Witnesses

  /** The PREPARED record of an intent was admitted outside the intent's window. */
  ghost predicate AdmittedLate(prepared: Record) {
    && prepared.body.PreparedBody? && prepared.body.signedIntent.payload.Intent? && prepared.body.admittedAt.Utc?
    && prepared.body.signedIntent.payload.issuedAt.Utc? && prepared.body.signedIntent.payload.expiresAt.Utc?
    && !AdmittedInWindow(prepared)
  }

  /** The n-th record finalizes an intent that was admitted outside its window. */
  ghost predicate FinalizesLate(j: seq<Record>, n: nat)
    requires n < |j|
  {
    j[n].kind.Finalized? && Binding(j, j[n].intentId) != [] && AdmittedLate(Binding(j, j[n].intentId)[0])
  }

  /** The n-th record was not there when the witness last signed. */
  ghost predicate IsNew(seen: Option<Seen>, n: nat) {
    FirstNew(seen) <= n
  }

  /** The witness has persisted nothing, or the head of an earlier state of the run. */
  ghost predicate SeenBefore(seen: Option<Seen>, ss: seq<State>, n: nat) {
    seen.None? || exists m :: 0 <= m <= n < |ss| && ss[m].journal != [] && seen == Some(HeadOf(ss[m].journal))
  }

  /** The journal up to a FINALIZED record holds all the records of its intent. */
  lemma {:induction false} UpToFinality(cfg: Config, j: seq<Record>, n: nat)
    requires JournalOk(cfg, j) && n < |j| && j[n].kind.Finalized?
    ensures JournalOk(cfg, j[..n + 1]) && IsFinalized(j[..n + 1], j[n].intentId)
    ensures Binding(j[..n + 1], j[n].intentId) == Binding(j, j[n].intentId)
    ensures Binding(j, j[n].intentId) != [] && j[n] == Binding(j, j[n].intentId)[|Binding(j, j[n].intentId)| - 1]
  {
    var front, rest, id := j[..n + 1], j[n + 1..], j[n].intentId;
    assert front + rest == j && front[|front| - 1] == j[n];
    NothingAfterFinality(cfg, front, rest, id);
    assert Binding(front, id) == Binding(front[..n], id) + [j[n]];
  }

  /** Every FINALIZED record of the coordinator passes the witness unless its intent was admitted late. */
  lemma {:induction false} FinalityExactly(cfg: Config, trust: Trust, j: seq<Record>, n: nat)
    requires JournalOk(cfg, j) && n < |j| && Trusts(trust, cfg)
    ensures FinalityOk(trust, j, n) <==> !FinalizesLate(j, n)
  {
    if j[n].kind.Finalized? {
      UpToFinality(cfg, j, n);
      FinalizedHasBody(cfg, j[..n + 1], j[n].intentId);
      FinalVerdict(cfg, trust, BundleAt(j, n));
    }
  }

  /** A later state of the run continues the head seen before. */
  lemma {:induction false} RunContinues(cfg: Config, ss: seq<State>, es: seq<Event>, n: nat, seen: Option<Seen>)
    requires Trace(cfg, ss, es) && n < |ss| && ss[n].journal != [] && SeenBefore(seen, ss, n)
    ensures Discontinuity(seen, ss[n].journal).None?
  {
    if seen.Some? {
      var m :| 0 <= m <= n < |ss| && ss[m].journal != [] && seen == Some(HeadOf(ss[m].journal));
      RunExtends(cfg, ss, es, m, n);
    }
  }

  /** Everything the witness signed was the journal of one run, at moments not after the n-th state. */
  ghost predicate SignedFromRun(attempts: seq<Attempt>, ss: seq<State>, n: nat) {
    forall i | 0 <= i < |attempts| :: FromRun(attempts[i].recs, ss, n)
  }

  ghost predicate FromRun(recs: seq<Record>, ss: seq<State>, n: nat) {
    recs != [] && exists m :: 0 <= m <= n < |ss| && recs == ss[m].journal
  }

  /** What such a witness has persisted is a head of the run, whichever of its calls died. */
  lemma {:induction false} PersistedFromRun(attempts: seq<Attempt>, ss: seq<State>, n: nat)
    requires SignedFromRun(attempts, ss, n)
    ensures SeenBefore(StateAfterAttempts(attempts), ss, n)
  {
    PersistedIsState(attempts);
    if Persisted(attempts).Some? {
      var i :| 0 <= i < |attempts| && attempts[i] == Attempt(Persisted(attempts).value, true);
      assert FromRun(attempts[i].recs, ss, n);
    }
  }

  /**
   Witness completeness, over every run and whatever the store returned: an observation of the coordinator's journal is
   countersigned unless a newly finalized intent was admitted outside its window, and then that is the reason.
   */
  lemma {:induction false} RefusesExactly(cfg: Config, ss: seq<State>, es: seq<Event>, n: nat, trust: Trust,
                                          seen: Option<Seen>)
    requires Configured(cfg) && Trace(cfg, ss, es) && n < |ss| && ss[n].journal != [] && Trusts(trust, cfg)
    requires SeenBefore(seen, ss, n)
    ensures Refuses(trust, seen, ss[n].journal) ==
            if exists i :: 0 <= i < |ss[n].journal| && IsNew(seen, i) && FinalizesLate(ss[n].journal, i)
            then Some(E_INVALID_FINALITY) else None
  {
    var j := ss[n].journal;
    RunKeepsInv(cfg, ss, es, n);
    RunContinues(cfg, ss, es, n, seen);
    forall i | 0 <= i < |j|
      ensures FinalityOk(trust, j, i) <==> !FinalizesLate(j, i)
    {
      FinalityExactly(cfg, trust, j, i);
    }
    assert forall i: nat :: IsNew(seen, i) <==> FirstNew(seen) <= i;
  }
}
