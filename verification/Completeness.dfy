/**
 The coordinator and the offline verifier agree: every FINALIZED intent of every reachable
 journal exports a bundle that the verifier accepts, exactly when its recorded admission
 time lies inside the intent's authority window.
 */
module Completeness {
  import opened Options
  import opened States
  import opened Canon
  import opened Journals
  import opened Stores
  import opened Protocol
  import opened Paths
  import opened Finality
  import opened Verifier

  // ---------------------------------------------------------------- export_bundle

  /** The FINALIZED records of an intent. */
  function FinalizedOf(j: seq<Record>, id: string): seq<Record> {
    if j == [] then []
    else
      var r := j[|j| - 1];
      FinalizedOf(j[..|j| - 1], id) + (if r.intentId == id && r.kind.Finalized? then [r] else [])
  }

  /** export_bundle, or None where it raises. */
  function Export(j: seq<Record>, id: string, checkpoint: Option<Signed<Checkpoint>>): Option<Bundle> {
    var fin := FinalizedOf(j, id);
    if |fin| != 1 || !fin[0].body.FinalizedBody? || !(0 <= fin[0].seqno < |j|) then None
    else
      var n, cert := fin[0].seqno, fin[0].body.certificate;
      var receipt := Receipt(cert, Digest(CertificateObject(cert)));
      if checkpoint.None? then Some(Bundle(BundleV1, id, j[..n + 1], receipt, None))
      else
        var cp := checkpoint.value.payload.seqno;
        if !(n <= cp < |j|) then None
        else Some(Bundle(BundleV1, id, j[..n + 1], receipt, Some(Witnessing(checkpoint.value, j[n + 1..cp + 1]))))
  }

  // ---------------------------------------------------------------- what is exported

  ghost predicate IsFinalized(j: seq<Record>, id: string) {
    Binding(j, id) != [] && LastKind(j, id).Finalized?
  }

  /** A finalized intent has exactly one FINALIZED record, any other has none. */
  lemma {:induction false} OneFinality(cfg: Config, j: seq<Record>, id: string)
    requires JournalOk(cfg, j)
    ensures FinalizedOf(j, id) == if IsFinalized(j, id) then [Binding(j, id)[|Binding(j, id)| - 1]] else []
  {
    if j != [] {
      var before, r := j[..|j| - 1], j[|j| - 1];
      OneFinality(cfg, before, id);
      if Binds(r, id) && IsFinalized(before, id) {
        NothingFollows(Kinds(Binding(before, id)), r.kind);
      } else if !Binds(r, id) {
        assert Binding(j, id) == Binding(before, id);
      }
    }
  }

  lemma {:induction false} LocateFinality(cfg: Config, j: seq<Record>, id: string) returns (n: nat)
    requires JournalOk(cfg, j) && IsFinalized(j, id)
    ensures n < |j| && FinalizedOf(j, id) == [j[n]] && j[n].seqno == n && Binds(j[n], id) && j[n].kind.Finalized?
    ensures j[n] == Binding(j, id)[|Binding(j, id)| - 1]
  {
    OneFinality(cfg, j, id);
    BindingMembers(j, id);
    var last := Binding(j, id)[|Binding(j, id)| - 1];
    assert last in Binding(j, id);
    n :| 0 <= n < |j| && j[n] == last;
    JournalIsChain(cfg, j);
    assert Linked(j[n], n, HeadHash(j[..n]));
  }

  /** A journal that goes on after a FINALIZED record adds nothing for that intent. */
  lemma {:induction false} NothingAfterFinality(cfg: Config, front: seq<Record>, rest: seq<Record>, id: string)
    requires JournalOk(cfg, front + rest) && front != []
    requires Binds(front[|front| - 1], id) && front[|front| - 1].kind.Finalized?
    ensures JournalOk(cfg, front) && Binding(front, id) == Binding(front + rest, id) && Binding(rest, id) == []
  {
    var j := front + rest;
    JournalPrefix(cfg, j, |front|);
    assert j[..|front|] == front;
    assert LastKind(front, id).Finalized?;
    TerminalInJournal(cfg, front, j, id);
    BindingConcat(front, rest, id);
  }

  // ---------------------------------------------------------------- the checks pass

  lemma {:induction false} CountLegal(kinds: seq<Label>)
    requires LegalFinalPath(kinds)
    ensures Count(kinds, Finalized) == Count(kinds, Committed) == Count(kinds, Prepared) == 1
  {
    CountCons(Committed, [Finalized]);
    CountCons(CommitUncertain, [Committed, Finalized]);
    CountCons(Committing, [Committed, Finalized]);
    CountCons(Committing, [CommitUncertain, Committed, Finalized]);
    CountCons(Prepared, [Committing, Committed, Finalized]);
    CountCons(Prepared, [Committing, CommitUncertain, Committed, Finalized]);
    CountCons(Finalized, []);
    assert [Finalized] + [] == [Finalized] && [Committed] + [Finalized] == [Committed, Finalized];
    assert [CommitUncertain] + [Committed, Finalized] == [CommitUncertain, Committed, Finalized];
    assert [Committing] + [Committed, Finalized] == [Committing, Committed, Finalized];
    assert [Committing] + [CommitUncertain, Committed, Finalized] ==
           [Committing, CommitUncertain, Committed, Finalized];
    assert [Prepared] + [Committing, Committed, Finalized] == [Prepared, Committing, Committed, Finalized];
    assert [Prepared] + [Committing, CommitUncertain, Committed, Finalized]
        == [Prepared, Committing, CommitUncertain, Committed, Finalized];
  }

  lemma {:induction false} CountCons(kind: Label, kinds: seq<Label>)
    ensures forall k :: Count([kind] + kinds, k) == (if k == kind then 1 else 0) + Count(kinds, k)
  {
    assert ([kind] + kinds)[1..] == kinds;
  }

  /** Every binding record carries the hash of the prepared intent. */
  lemma {:induction false} SameHash(cfg: Config, id: string, recs: seq<Record>)
    requires IntentOk(cfg, id, recs)
    ensures forall r | r in recs :: r.body.hash == recs[0].body.hash
  {
    if recs != [] {
      var before, r := recs[..|recs| - 1], recs[|recs| - 1];
      SameHash(cfg, id, before);
      assert recs == before + [r];
      if before != [] {
        FollowerHash(cfg, id, before, r);
      }
    }
  }

  lemma {:induction false} FollowerHash(cfg: Config, id: string, recs: seq<Record>, r: Record)
    requires Follows(cfg, id, recs, r) && recs != []
    ensures r.body.hash == recs[0].body.hash
  {
  }

  /** The records of a finalized intent. */
  lemma {:induction false} FinalRecords(cfg: Config, id: string, recs: seq<Record>)
    requires IntentOk(cfg, id, recs) && recs != [] && recs[|recs| - 1].kind.Finalized?
    ensures LegalFinalPath(Kinds(recs)) && PreparedOk(cfg, id, recs[0])
    ensures CommittedOk(cfg, recs[0], recs[|recs| - 2])
    ensures recs[|recs| - 1].body == FinalizedBody(recs[0].body.hash, MakeCertificate(cfg, recs[0], recs[|recs| - 2]))
  {
    FinalizedPath(cfg, id, recs, |recs| - 1);
    FirstIsPrepared(cfg, id, recs);
    var before := recs[..|recs| - 1];
    LastFollows(cfg, id, recs);
    assert before[|before| - 1].kind == Kinds(recs)[|recs| - 2];
    LastFollows(cfg, id, before);
  }

  lemma {:induction false} LastFollows(cfg: Config, id: string, recs: seq<Record>)
    requires IntentOk(cfg, id, recs) && |recs| > 1
    ensures IntentOk(cfg, id, recs[..|recs| - 1])
    ensures recs[|recs| - 1].kind.Committed? ==> CommittedOk(cfg, recs[0], recs[|recs| - 1])
    ensures recs[|recs| - 1].kind.Finalized? ==>
              && CanCertify(recs[0], recs[|recs| - 2])
              && recs[|recs| - 1].body ==
                 FinalizedBody(recs[0].body.hash, MakeCertificate(cfg, recs[0], recs[|recs| - 2]))
  {
    var before, r := recs[..|recs| - 1], recs[|recs| - 1];
    assert Follows(cfg, id, before, r);
  }

  /** The trust store that init_home publishes for a coordinator. */
  ghost predicate Trusts(trust: Trust, cfg: Config) {
    && trust.authority == cfg.authority
    && KidOf(cfg.finalizer) in trust.finalizers && trust.finalizers[KidOf(cfg.finalizer)] == cfg.finalizer
  }

  ghost predicate AdmittedInWindow(prepared: Record)
    requires prepared.body.PreparedBody? && prepared.body.signedIntent.payload.Intent? && prepared.body.admittedAt.Utc?
    requires prepared.body.signedIntent.payload.issuedAt.Utc? && prepared.body.signedIntent.payload.expiresAt.Utc?
  {
    InWindow(prepared.body.admittedAt, prepared.body.signedIntent.payload)
  }

  lemma {:induction false} IntentChecksPass(cfg: Config, trust: Trust, id: string, recs: seq<Record>)
    requires IntentOk(cfg, id, recs) && recs != [] && recs[|recs| - 1].kind.Finalized? && Trusts(trust, cfg)
    ensures PreparedOk(cfg, id, recs[0]) && CanCertify(recs[0], recs[|recs| - 2])
    ensures CheckIntent(trust, id, recs, MakeCertificate(cfg, recs[0], recs[|recs| - 2])) ==
            if AdmittedInWindow(recs[0]) then None else Some(REJECTED_OUTSIDE_AUTHORITY_WINDOW)
  {
    FinalRecords(cfg, id, recs);
    SameHash(cfg, id, recs);
  }

  lemma {:induction false} StateChecksPass(cfg: Config, id: string, prepared: Record, committed: Record)
    requires PreparedOk(cfg, id, prepared) && CommittedOk(cfg, prepared, committed)
    ensures CheckState(id, prepared.body, committed.body).None?
    ensures MakeCertificate(cfg, prepared, committed).payload == Wanted(id, prepared, committed, KidOf(cfg.finalizer))
  {
  }

  /** The verdict on an exported journal prefix. */
  lemma {:induction false} FinalVerdict(cfg: Config, trust: Trust, b: Bundle)
    requires JournalOk(cfg, b.journal) && IsFinalized(b.journal, b.intentId) && Trusts(trust, cfg)
    requires b.protocol == BundleV1 && Binds(b.journal[|b.journal| - 1], b.intentId)
    requires var fin := Binding(b.journal, b.intentId)[|Binding(b.journal, b.intentId)| - 1];
             fin.body.FinalizedBody? &&
             b.receipt == Receipt(fin.body.certificate, Digest(CertificateObject(fin.body.certificate)))
    ensures PreparedOk(cfg, b.intentId, Binding(b.journal, b.intentId)[0])
    ensures Failure(b, trust) == if AdmittedInWindow(Binding(b.journal, b.intentId)[0]) then None
                                 else Some(REJECTED_OUTSIDE_AUTHORITY_WINDOW)
  {
    var id, recs := b.intentId, Binding(b.journal, b.intentId);
    JournalIsChain(cfg, b.journal);
    IntentsOk(cfg, b.journal, id);
    FinalRecords(cfg, id, recs);
    CountLegal(Kinds(recs));
    IntentChecksPass(cfg, trust, id, recs);
    StateChecksPass(cfg, id, recs[0], recs[|recs| - 2]);
  }

  /**
   Verifier completeness, in every reachable state and whatever the store returned: the
   exported bundle of a FINALIZED intent is valid if and only if its recorded admission
   time is inside the intent's window; otherwise exactly that check rejects it.
   */
  lemma {:induction false} FinalizedVerifies(cfg: Config, ss: seq<State>, es: seq<Event>, n: nat, id: string,
                                             trust: Trust)
    requires Configured(cfg) && Trace(cfg, ss, es) && n < |ss| && IsFinalized(ss[n].journal, id) && Trusts(trust, cfg)
    ensures Export(ss[n].journal, id, None).Some?
    ensures PreparedOk(cfg, id, Binding(ss[n].journal, id)[0])
    ensures VerdictOf(Export(ss[n].journal, id, None).value, trust, false) ==
            if AdmittedInWindow(Binding(ss[n].journal, id)[0]) then Valid(L1)
            else Rejected(REJECTED_OUTSIDE_AUTHORITY_WINDOW)
  {
    RunKeepsInv(cfg, ss, es, n);
    ExportVerdict(cfg, ss[n].journal, id, None, trust);
  }

  /** A checkpoint of this very history by a trusted witness. */
  ghost predicate Countersigns(trust: Trust, j: seq<Record>, cp: Signed<Checkpoint>) {
    && VerifySigned(cp, trust.witnesses)
    && cp.payload.protocol == CheckpointV1
    && 0 <= cp.payload.seqno < |j|
    && cp.payload.headHash == j[cp.payload.seqno].hash && cp.payload.genesisHash == j[0].hash
  }

  /** The bundle that is exported: the journal up to the FINALIZED record, and the rest up to the checkpoint. */
  ghost predicate ExportOf(b: Bundle, j: seq<Record>, id: string, cp: Option<Signed<Checkpoint>>, suffix: seq<Record>,
                           rest: seq<Record>) {
    && j == b.journal + (suffix + rest) && b.journal != []
    && b.protocol == BundleV1 && b.intentId == id
    && Binds(b.journal[|b.journal| - 1], id) && b.journal[|b.journal| - 1].kind.Finalized?
    && (if cp.None? then suffix == [] && b.witnessing.None?
        else |b.journal + suffix| == cp.value.payload.seqno + 1 && b.witnessing == Some(Witnessing(cp.value, suffix)))
  }

  lemma {:induction false} ExportShape(cfg: Config, j: seq<Record>, id: string, cp: Option<Signed<Checkpoint>>)
    returns (b: Bundle, suffix: seq<Record>, rest: seq<Record>)
    requires JournalOk(cfg, j) && IsFinalized(j, id)
    requires cp.Some? ==> cp.value.payload.seqno < |j|
    requires cp.Some? ==> forall r | r in FinalizedOf(j, id) :: r.seqno <= cp.value.payload.seqno
    ensures Export(j, id, cp) == Some(b) && ExportOf(b, j, id, cp, suffix, rest)
    ensures var fin := Binding(j, id)[|Binding(j, id)| - 1];
            fin.body.FinalizedBody? &&
            b.receipt == Receipt(fin.body.certificate, Digest(CertificateObject(fin.body.certificate)))
  {
    var n := LocateFinality(cfg, j, id);
    FinalizedHasBody(cfg, j, id);
    assert FinalizedOf(j, id)[0] == j[n] && j[n] in FinalizedOf(j, id);
    b, suffix, rest := ExportAt(j, id, cp, n);
  }

  /** The same, once the FINALIZED record is located. */
  lemma {:induction false} ExportAt(j: seq<Record>, id: string, cp: Option<Signed<Checkpoint>>, n: nat)
    returns (b: Bundle, suffix: seq<Record>, rest: seq<Record>)
    requires n < |j| && FinalizedOf(j, id) == [j[n]] && j[n].seqno == n && Binds(j[n], id) && j[n].kind.Finalized?
    requires j[n].body.FinalizedBody? && (cp.Some? ==> n <= cp.value.payload.seqno < |j|)
    ensures Export(j, id, cp) == Some(b) && ExportOf(b, j, id, cp, suffix, rest)
    ensures b.receipt == Receipt(j[n].body.certificate, Digest(CertificateObject(j[n].body.certificate)))
  {
    var m := if cp.None? then n + 1 else cp.value.payload.seqno + 1;
    CutInThree(j, n + 1, m);
    assert j[..n + 1][n] == j[n];
    suffix, rest := j[n + 1..m], j[m..];
    b := Export(j, id, cp).value;
  }

  lemma {:induction false} CutInThree(j: seq<Record>, n: nat, m: nat)
    requires n <= m <= |j|
    ensures j == j[..n] + (j[n..m] + j[m..])
  {
  }

  lemma {:induction false} FinalizedHasBody(cfg: Config, j: seq<Record>, id: string)
    requires JournalOk(cfg, j) && IsFinalized(j, id)
    ensures Binding(j, id)[|Binding(j, id)| - 1].body.FinalizedBody?
  {
    IntentsOk(cfg, j, id);
    FinalRecords(cfg, id, Binding(j, id));
  }

  lemma {:induction false} ExportVerdict(cfg: Config, j: seq<Record>, id: string, cp: Option<Signed<Checkpoint>>,
                                         trust: Trust)
    requires JournalOk(cfg, j) && IsFinalized(j, id) && Trusts(trust, cfg)
    requires cp.Some? ==> Countersigns(trust, j, cp.value)
    requires cp.Some? ==> forall r | r in FinalizedOf(j, id) :: r.seqno <= cp.value.payload.seqno
    ensures Export(j, id, cp).Some? && PreparedOk(cfg, id, Binding(j, id)[0])
    ensures VerdictOf(Export(j, id, cp).value, trust, cp.Some?) ==
            if AdmittedInWindow(Binding(j, id)[0]) then Valid(if cp.Some? then W1 else L1)
            else Rejected(REJECTED_OUTSIDE_AUTHORITY_WINDOW)
  {
    var b, suffix, rest := ExportShape(cfg, j, id, cp);
    NothingAfterFinality(cfg, b.journal, suffix + rest, id);
    FinalVerdict(cfg, trust, b);
    if cp.Some? {
      JournalIsChain(cfg, j);
      SuffixVerdict(b, suffix, rest, cp.value, trust);
    }
  }

  lemma {:induction false} SuffixChains(a: seq<Record>, suffix: seq<Record>, rest: seq<Record>)
    requires Chain(a + (suffix + rest))
    ensures ChainsOn(suffix, |a|, HeadHash(a))
  {
    var j := a + (suffix + rest);
    ChainPrefix(j, |a|);
    assert j[..|a|] == a;
    ChainConcat(a, suffix + rest);
    forall i | 0 <= i < |suffix|
      ensures LinkedAt(suffix, |a|, HeadHash(a), i)
    {
      assert LinkedAt(suffix + rest, |a|, HeadHash(a), i);
    }
  }

  lemma {:induction false} SuffixVerdict(b: Bundle, suffix: seq<Record>, rest: seq<Record>, cp: Signed<Checkpoint>,
                                         trust: Trust)
    requires b.journal != [] && Chain(b.journal + (suffix + rest)) && Binding(suffix + rest, b.intentId) == []
    requires Countersigns(trust, b.journal + (suffix + rest), cp) && |b.journal + suffix| == cp.payload.seqno + 1
    requires b.witnessing == Some(Witnessing(cp, suffix))
    ensures WitnessFailure(b, b.witnessing.value, trust).None?
  {
    SuffixChains(b.journal, suffix, rest);
    BindingConcat(suffix, rest, b.intentId);
    var j, full := b.journal + (suffix + rest), b.journal + suffix;
    assert j[|full| - 1] == full[|full| - 1] && j[0] == full[0];
  }

  /** The same with a witness: a later countersigned head makes the bundle W1. */
  lemma {:induction false} WitnessedVerifies(cfg: Config, ss: seq<State>, es: seq<Event>, n: nat, id: string,
                                             trust: Trust, cp: Signed<Checkpoint>)
    requires Configured(cfg) && Trace(cfg, ss, es) && n < |ss| && IsFinalized(ss[n].journal, id) && Trusts(trust, cfg)
    requires Countersigns(trust, ss[n].journal, cp)
    requires forall r | r in FinalizedOf(ss[n].journal, id) :: r.seqno <= cp.payload.seqno
    ensures Export(ss[n].journal, id, Some(cp)).Some?
    ensures PreparedOk(cfg, id, Binding(ss[n].journal, id)[0])
    ensures VerdictOf(Export(ss[n].journal, id, Some(cp)).value, trust, true) ==
            if AdmittedInWindow(Binding(ss[n].journal, id)[0]) then Valid(W1)
            else Rejected(REJECTED_OUTSIDE_AUTHORITY_WINDOW)
  {
    RunKeepsInv(cfg, ss, es, n);
    OneFinality(cfg, ss[n].journal, id);
    ExportVerdict(cfg, ss[n].journal, id, Some(cp), trust);
  }

  // ---------------------------------------------------------------- soundness

  /** The coordinator a verified bundle speaks of. */
  function ConfigOf(b: Bundle, trust: Trust, namespace: string): Config
    requires b.receipt.certificate.kid in trust.finalizers
  {
    Config(namespace, trust.authority, trust.finalizers[b.receipt.certificate.kid], _ => true)
  }

  /** What a valid verdict establishes, on any bundle from anyone. */
  ghost predicate Justified(b: Bundle, trust: Trust) {
    var recs, cert := Binding(b.journal, b.intentId), b.receipt.certificate;
    && Chain(b.journal) && |recs| >= 2 && StateAfter(Kinds(recs)) == Some(Finalized)
    && CanCertify(recs[0], recs[|recs| - 2])
    && var pb, cb := recs[0].body, recs[|recs| - 2].body;
    && var p := pb.signedIntent.payload;
    && p.intentId == b.intentId && p.op == UPSERT
    // a trusted authority signed this intent, and it was admitted in its window
    && pb.signedIntent.kid in trust.authority
    && pb.signedIntent.sig == Ed25519(trust.authority[pb.signedIntent.kid], p)
    && pb.admittedAt.Utc? && p.issuedAt.Utc? && p.expiresAt.Utc? && InWindow(pb.admittedAt, p)
    // the committed state is the signed UPSERT on the state the intent named
    && cb.postGeneration == p.expectedGeneration + 1
    && p.expectedRoot == StateRoot(p.namespace, p.expectedGeneration, pb.preEntries)
    && cb.postRoot == StateRoot(p.namespace, cb.postGeneration, cb.postEntries)
    && (DistinctKeys(pb.preEntries) ==> View(cb.postEntries) == View(pb.preEntries)[p.key := p.value])
    // the certificate is the one the coordinator derives from these very records
    && cert.kid in trust.finalizers
    && cert == MakeCertificate(ConfigOf(b, trust, p.namespace), recs[0], recs[|recs| - 2])
  }

  lemma {:induction false} IntentVerified(trust: Trust, id: string, recs: seq<Record>, cert: Signed<Certificate>)
    requires recs != [] && recs[0].body.PreparedBody? && CheckIntent(trust, id, recs, cert).None?
    ensures var pb := recs[0].body;
            && pb.signedIntent.payload.Intent? && pb.signedIntent.payload.intentId == id
            && pb.signedIntent.kid in trust.authority
            && pb.signedIntent.sig == Ed25519(trust.authority[pb.signedIntent.kid], pb.signedIntent.payload)
            && pb.hash == Some(Digest(IntentObject(pb.signedIntent.payload)))
            && VerifySigned(cert, trust.finalizers)
            && pb.admittedAt.Utc? && pb.signedIntent.payload.issuedAt.Utc? && pb.signedIntent.payload.expiresAt.Utc?
            && InWindow(pb.admittedAt, pb.signedIntent.payload)
  {
    assert recs[0] in recs;
  }

  lemma {:induction false} StateVerified(id: string, pb: Body, cb: Body)
    requires pb.PreparedBody? && pb.signedIntent.payload.Intent? && cb.CommittedBody? && CheckState(id, pb, cb).None?
    ensures var p := pb.signedIntent.payload;
            && p.op == UPSERT && pb.payloadCommitment == Commitment(p.op, p.key, p.value)
            && cb.postGeneration == p.expectedGeneration + 1 && pb.preRoot == p.expectedRoot
            && p.expectedRoot == StateRoot(p.namespace, p.expectedGeneration, pb.preEntries)
            && cb.postRoot == StateRoot(p.namespace, cb.postGeneration, cb.postEntries)
            && (DistinctKeys(pb.preEntries) ==> View(cb.postEntries) == View(pb.preEntries)[p.key := p.value])
  {
    var p := pb.signedIntent.payload;
    if DistinctKeys(pb.preEntries) {
      PostView(pb.preEntries, cb.postEntries, p.key, p.value);
    }
  }

  /** The parts of a verification without failure. */
  lemma {:induction false} PartsVerified(b: Bundle, trust: Trust)
    requires Failure(b, trust).None?
    ensures Chain(b.journal) && LegalFinalPath(Kinds(Binding(b.journal, b.intentId)))
    ensures var recs, cert := Binding(b.journal, b.intentId), b.receipt.certificate;
            && recs[0].body.PreparedBody? && recs[|recs| - 2].body.CommittedBody?
            && CheckIntent(trust, b.intentId, recs, cert).None? && recs[0].body.signedIntent.payload.Intent?
            && CheckState(b.intentId, recs[0].body, recs[|recs| - 2].body).None?
            && cert.payload == Wanted(b.intentId, recs[0], recs[|recs| - 2], cert.kid)
  {
  }

  lemma {:induction false} CertificateVerified(b: Bundle, trust: Trust, prepared: Record, committed: Record)
    requires CanCertify(prepared, committed) && prepared.intentId == b.intentId
    requires VerifySigned(b.receipt.certificate, trust.finalizers)
    requires var p := prepared.body.signedIntent.payload;
             prepared.body.hash == Some(Digest(IntentObject(p)))
             && prepared.body.payloadCommitment == Commitment(p.op, p.key, p.value)
    requires b.receipt.certificate.payload == Wanted(b.intentId, prepared, committed, b.receipt.certificate.kid)
    ensures b.receipt.certificate ==
            MakeCertificate(ConfigOf(b, trust, prepared.body.signedIntent.payload.namespace), prepared, committed)
  {
  }

  lemma {:induction false} FinalPathIsFinal(kinds: seq<Label>)
    requires LegalFinalPath(kinds)
    ensures StateAfter(kinds) == Some(Finalized) && |kinds| >= 4
  {
    FinalStanding();
  }

  /** The verifier is sound: an accepted bundle is justified. */
  lemma {:induction false} AcceptedIsJustified(b: Bundle, trust: Trust, requireWitness: bool)
    requires VerdictOf(b, trust, requireWitness).Valid?
    ensures Justified(b, trust)
  {
    assert Failure(b, trust).None?;
    FailureFreeIsJustified(b, trust);
  }

  lemma {:induction false} FailureFreeIsJustified(b: Bundle, trust: Trust)
    requires Failure(b, trust).None?
    ensures Justified(b, trust)
  {
    PartsVerified(b, trust);
    PartsJustify(b, trust, Binding(b.journal, b.intentId));
  }

  lemma {:induction false} PartsJustify(b: Bundle, trust: Trust, recs: seq<Record>)
    requires recs == Binding(b.journal, b.intentId) && Chain(b.journal) && LegalFinalPath(Kinds(recs))
    requires recs[0].body.PreparedBody? && recs[|recs| - 2].body.CommittedBody?
    requires CheckIntent(trust, b.intentId, recs, b.receipt.certificate).None?
    requires recs[0].body.signedIntent.payload.Intent?
    requires CheckState(b.intentId, recs[0].body, recs[|recs| - 2].body).None?
    requires b.receipt.certificate.payload == Wanted(b.intentId, recs[0], recs[|recs| - 2], b.receipt.certificate.kid)
    ensures Justified(b, trust)
  {
    FinalPathIsFinal(Kinds(recs));
    IntentVerified(trust, b.intentId, recs, b.receipt.certificate);
    StateVerified(b.intentId, recs[0].body, recs[|recs| - 2].body);
    BindingMembers(b.journal, b.intentId);
    assert recs[0] in recs;
    CertificateVerified(b, trust, recs[0], recs[|recs| - 2]);
  }
}
