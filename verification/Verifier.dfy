/**
 The offline verifier (vdb_c1/verify.py): ten checks on a bundle, and the witness check.
 Nothing here uses the coordinator's own bookkeeping; the two are related in Completeness.
 */
module Verifier {
  import opened Options
  import opened States
  import opened Canon
  import opened Journals

  datatype Checkpoint = Checkpoint(protocol: Tag, genesisHash: Hash, seqno: int, headHash: Hash, witnessedAt: Stamp,
                                   witnessKid: Kid)

  datatype Receipt = Receipt(certificate: Signed<Certificate>, digest: Hash)

  datatype Witnessing = Witnessing(checkpoint: Signed<Checkpoint>, suffix: seq<Record>)

  datatype Bundle = Bundle(protocol: Tag, intentId: string, journal: seq<Record>, receipt: Receipt,
                           witnessing: Option<Witnessing>)

  datatype Trust = Trust(authority: map<Kid, Key>, finalizers: map<Kid, Key>, witnesses: map<Kid, Key>)

  datatype Code =
    | REJECTED_INCOMPLETE_BUNDLE | REJECTED_JOURNAL_INCONSISTENT | REJECTED_UNTRUSTED_KEY | REJECTED_BAD_SIGNATURE
    | REJECTED_OUTSIDE_AUTHORITY_WINDOW | REJECTED_ROOT_MISMATCH | REJECTED_GENERATION_MISMATCH
    | REJECTED_PAYLOAD_SUBSTITUTION | REJECTED_DUPLICATE_FINALITY | REJECTED_RECEIPT_MISMATCH | REJECTED_FORK
    | REJECTED_NOT_WITNESSED

  datatype EvidenceProfile = L1 | W1

  datatype Verdict = Valid(profile: EvidenceProfile) | Rejected(code: Code)

  // ---------------------------------------------------------------- the single checks

  /** LEGAL_FINAL_PATHS. */
  predicate LegalFinalPath(kinds: seq<Label>) {
    || kinds == [Prepared, Committing, Committed, Finalized]
    || kinds == [Prepared, Committing, CommitUncertain, Committed, Finalized]
  }

  function Count(kinds: seq<Label>, kind: Label): nat {
    if kinds == [] then 0 else (if kinds[0] == kind then 1 else 0) + Count(kinds[1..], kind)
  }

  /** The i-th record links to the one before it, or to the head the records start from. */
  predicate LinkedAt(recs: seq<Record>, start: nat, head: Hash, i: nat)
    requires i < |recs|
  {
    Linked(recs[i], start + i, if i == 0 then head else recs[i - 1].hash)
  }

  /** Records that chain on from a head. */
  predicate ChainsOn(recs: seq<Record>, start: nat, head: Hash) {
    forall i | 0 <= i < |recs| :: LinkedAt(recs, start, head, i)
  }

  /** check_signed: the rejection, or None. */
  function CheckSigned<P(==)>(s: Signed<P>, trusted: map<Kid, Key>, canonical: bool): Option<Code> {
    if s.kid !in trusted then Some(REJECTED_UNTRUSTED_KEY)
    else if !canonical || !VerifySigned(s, trusted) then Some(REJECTED_BAD_SIGNATURE)
    else None
  }

  /** Check 3: one finality, a legal path, and the bundle ends at it. */
  function CheckPath(journal: seq<Record>, id: string): Option<Code>
    requires journal != []
  {
    var kinds := Kinds(Binding(journal, id));
    if Count(kinds, Finalized) > 1 || Count(kinds, Committed) > 1 || Count(kinds, Prepared) > 1 then
      Some(REJECTED_DUPLICATE_FINALITY)
    else if !LegalFinalPath(kinds) then Some(REJECTED_JOURNAL_INCONSISTENT)
    else if !Binds(journal[|journal| - 1], id) then Some(REJECTED_JOURNAL_INCONSISTENT)
    else None
  }

  /** Checks 4 to 6: signatures, intent binding and the authority window. */
  function CheckIntent(trust: Trust, id: string, recs: seq<Record>, cert: Signed<Certificate>): Option<Code>
    requires recs != [] && recs[0].body.PreparedBody?
  {
    var pb := recs[0].body;
    var signed := pb.signedIntent;
    var authority := CheckSigned(signed, trust.authority, Canonical(signed.payload));
    if authority.Some? then authority
    else if !signed.payload.Intent? then Some(REJECTED_INCOMPLETE_BUNDLE)
    else
      var p := signed.payload;
      var finalizer := CheckSigned(cert, trust.finalizers, true);
      if p.authorityKid != signed.kid || p.protocol != IntentV1 then Some(REJECTED_BAD_SIGNATURE)
      else if finalizer.Some? then finalizer
      else if p.intentId != id || exists r | r in recs :: r.body.hash != Some(Digest(IntentObject(p))) then
        Some(REJECTED_JOURNAL_INCONSISTENT)
      else if !pb.admittedAt.Utc? || !p.issuedAt.Utc? || !p.expiresAt.Utc? then Some(REJECTED_INCOMPLETE_BUNDLE)
      else if !InWindow(pb.admittedAt, p) then Some(REJECTED_OUTSIDE_AUTHORITY_WINDOW)
      else None
  }

  predicate InWindow(admittedAt: Stamp, p: Payload)
    requires p.Intent? && admittedAt.Utc? && p.issuedAt.Utc? && p.expiresAt.Utc?
  {
    p.issuedAt.at - CLOCK_SKEW <= admittedAt.at < p.expiresAt.at
  }

  /** Checks 7 to 9: roots, generations, and the committed state as the signed payload applied once. */
  function CheckState(id: string, pb: Body, cb: Body): Option<Code>
    requires pb.PreparedBody? && pb.signedIntent.payload.Intent? && cb.CommittedBody?
  {
    var p := pb.signedIntent.payload;
    if StateRoot(p.namespace, pb.preGeneration, pb.preEntries) != pb.preRoot then Some(REJECTED_ROOT_MISMATCH)
    else if pb.preRoot != p.expectedRoot then Some(REJECTED_ROOT_MISMATCH)
    else if StateRoot(p.namespace, cb.postGeneration, cb.postEntries) != cb.postRoot then Some(REJECTED_ROOT_MISMATCH)
    else if pb.preGeneration != p.expectedGeneration || cb.postGeneration != pb.preGeneration + 1 then
      Some(REJECTED_GENERATION_MISMATCH)
    else if || p.op != UPSERT || pb.payloadCommitment != Commitment(p.op, p.key, p.value)
            || SortEntries(cb.postEntries) != PostEntries(pb.preEntries, p.key, p.value)
            || cb.appliedRow != Row(id, Digest(IntentObject(p)), cb.postGeneration, cb.postRoot) then
      Some(REJECTED_PAYLOAD_SUBSTITUTION)
    else None
  }

  /** The certificate payload re-derived from the journal. */
  function Wanted(id: string, prepared: Record, committed: Record, finalizer: Kid): Certificate
    requires prepared.body.PreparedBody? && prepared.body.signedIntent.payload.Intent? && committed.body.CommittedBody?
  {
    var pb, cb := prepared.body, committed.body;
    var p := pb.signedIntent.payload;
    Certificate(FinalityV1, id, Digest(IntentObject(p)), p.namespace, p.authorityKid, p.expectedGeneration, pb.preRoot,
                Commitment(p.op, p.key, p.value), cb.postGeneration, cb.postRoot, cb.physical, cb.appliedRow,
                prepared.seqno, prepared.hash, committed.seqno, committed.hash, committed.at, finalizer)
  }

  /** Check 10: the receipt is the certificate in the journal, and both are what the journal yields. */
  function CheckReceipt(b: Bundle, prepared: Record, committed: Record, finalized: Record): Option<Code>
    requires prepared.body.PreparedBody? && prepared.body.signedIntent.payload.Intent? && committed.body.CommittedBody?
  {
    var cert := b.receipt.certificate;
    if !finalized.body.FinalizedBody? then Some(REJECTED_INCOMPLETE_BUNDLE)
    else if || finalized.body.certificate != cert || b.receipt.digest != Digest(CertificateObject(cert))
            || cert.payload != Wanted(b.intentId, prepared, committed, cert.kid) then
      Some(REJECTED_RECEIPT_MISMATCH)
    else None
  }

  // ---------------------------------------------------------------- the whole verification

  /** The record before the last of a legal final path is its COMMITTED record. */
  function CommittedOfPath(recs: seq<Record>): Record
    requires LegalFinalPath(Kinds(recs))
  {
    recs[|recs| - 2]
  }

  /** _verify: the first failing check, or None. */
  function Failure(b: Bundle, trust: Trust): Option<Code> {
    if b.protocol != BundleV1 || b.journal == [] then Some(REJECTED_INCOMPLETE_BUNDLE)
    else if !Chain(b.journal) then Some(REJECTED_JOURNAL_INCONSISTENT)
    else
      var path := CheckPath(b.journal, b.intentId);
      if path.Some? then path
      else
        var recs := Binding(b.journal, b.intentId);
        var prepared, committed, finalized := recs[0], CommittedOfPath(recs), recs[|recs| - 1];
        var cert := b.receipt.certificate;
        if !prepared.body.PreparedBody? || !committed.body.CommittedBody? then Some(REJECTED_INCOMPLETE_BUNDLE)
        else
          var intent := CheckIntent(trust, b.intentId, recs, cert);
          if intent.Some? then intent
          else
            var state := CheckState(b.intentId, prepared.body, committed.body);
            if state.Some? then state else CheckReceipt(b, prepared, committed, finalized)
  }

  /** _verify_witness: the first failing check of the witness part, or None. */
  function WitnessFailure(b: Bundle, w: Witnessing, trust: Trust): Option<Code>
    requires b.journal != []
  {
    var signed := CheckSigned(w.checkpoint, trust.witnesses, true);
    var full, p := b.journal + w.suffix, w.checkpoint.payload;
    if signed.Some? then signed
    else if !ChainsOn(w.suffix, |b.journal|, HeadHash(b.journal)) then Some(REJECTED_JOURNAL_INCONSISTENT)
    else if Binding(w.suffix, b.intentId) != [] then Some(REJECTED_DUPLICATE_FINALITY)
    else if || p.protocol != CheckpointV1 || p.seqno != |full| - 1 || p.headHash != full[|full| - 1].hash
            || p.genesisHash != full[0].hash then Some(REJECTED_FORK)
    else None
  }

  function VerdictOf(b: Bundle, trust: Trust, requireWitness: bool): Verdict {
    var failure := Failure(b, trust);
    if failure.Some? then Rejected(failure.value)
    else if b.witnessing.None? then if requireWitness then Rejected(REJECTED_NOT_WITNESSED) else Valid(L1)
    else
      var w := WitnessFailure(b, b.witnessing.value, trust);
      if w.Some? then Rejected(w.value) else Valid(W1)
  }

  // ---------------------------------------------------------------- the loops

  /** The chain loop: a running hash from `prev`. */
  method CheckChain(recs: seq<Record>, start: nat, head: Hash) returns (ok: bool)
    ensures ok == ChainsOn(recs, start, head)
  {
    var prev := head;
    for i := 0 to |recs|
      invariant prev == if i == 0 then head else recs[i - 1].hash
      invariant forall k | 0 <= k < i :: LinkedAt(recs, start, head, k)
    {
      assert LinkedAt(recs, start, head, i) == Linked(recs[i], start + i, prev);
      if !Linked(recs[i], start + i, prev) {
        return false;
      }
      prev := recs[i].hash;
    }
    return true;
  }

  /** A chain, with `a` in front, is a chain that goes on from the head of `a`. */
  lemma {:induction false} ChainConcat(a: seq<Record>, b: seq<Record>)
    requires Chain(a)
    ensures ChainsOn(b, |a|, HeadHash(a)) == Chain(a + b)
  {
    forall i | 0 <= i < |b|
      ensures LinkedAt(b, |a|, HeadHash(a), i) == Linked((a + b)[|a| + i], |a| + i, HeadHash((a + b)[..|a| + i]))
    {
      assert (a + b)[..|a| + i] == a + b[..i];
    }
    if ChainsOn(b, |a|, HeadHash(a)) {
      forall i | 0 <= i < |a + b|
        ensures Linked((a + b)[i], i, HeadHash((a + b)[..i]))
      {
        if i < |a| {
          assert (a + b)[..i] == a[..i];
        } else {
          assert LinkedAt(b, |a|, HeadHash(a), i - |a|);
        }
      }
    }
    if Chain(a + b) {
      forall i | 0 <= i < |b|
        ensures LinkedAt(b, |a|, HeadHash(a), i)
      {
        assert Linked((a + b)[|a| + i], |a| + i, HeadHash((a + b)[..|a| + i]));
      }
    }
  }

  datatype Stage = CoreStage | WitnessStage

  /** _verify, check by check. */
  method VerifyCore(b: Bundle, trust: Trust) returns (failure: Option<Code>)
    ensures failure == Failure(b, trust)
  {
    if b.protocol != BundleV1 || b.journal == [] {
      return Some(REJECTED_INCOMPLETE_BUNDLE);
    }
    var chained := CheckChain(b.journal, 0, GENESIS);
    ChainConcat([], b.journal);
    assert [] + b.journal == b.journal;
    if !chained {
      return Some(REJECTED_JOURNAL_INCONSISTENT);
    }
    failure := CheckPath(b.journal, b.intentId);
    if failure.Some? {
      return;
    }
    var recs := Binding(b.journal, b.intentId);
    var prepared, committed, finalized := recs[0], CommittedOfPath(recs), recs[|recs| - 1];
    if !prepared.body.PreparedBody? || !committed.body.CommittedBody? {
      return Some(REJECTED_INCOMPLETE_BUNDLE);
    }
    failure := CheckIntent(trust, b.intentId, recs, b.receipt.certificate);
    if failure.Some? {
      return;
    }
    failure := CheckState(b.intentId, prepared.body, committed.body);
    if failure.Some? {
      return;
    }
    return CheckReceipt(b, prepared, committed, finalized);
  }

  /** _verify_witness, check by check. */
  method VerifyWitness(b: Bundle, w: Witnessing, trust: Trust) returns (failure: Option<Code>)
    requires b.journal != []
    ensures failure == WitnessFailure(b, w, trust)
  {
    failure := CheckSigned(w.checkpoint, trust.witnesses, true);
    if failure.Some? {
      return;
    }
    var chained := CheckChain(w.suffix, |b.journal|, b.journal[|b.journal| - 1].hash);
    if !chained {
      return Some(REJECTED_JOURNAL_INCONSISTENT);
    }
    if Binding(w.suffix, b.intentId) != [] {
      return Some(REJECTED_DUPLICATE_FINALITY);
    }
    var full, p := b.journal + w.suffix, w.checkpoint.payload;
    if || p.protocol != CheckpointV1 || p.seqno != |full| - 1 || p.headHash != full[|full| - 1].hash
       || p.genesisHash != full[0].hash {
      return Some(REJECTED_FORK);
    }
    return None;
  }

  /** verify_bundle: the verdict, and the stages passed on the way to it. */
  method VerifyBundle(b: Bundle, trust: Trust, requireWitness: bool) returns (verdict: Verdict, passed: seq<Stage>)
    ensures verdict == VerdictOf(b, trust, requireWitness)
    ensures CoreStage in passed <==> Failure(b, trust).None?
    ensures WitnessStage in passed <==> verdict == Valid(W1)
  {
    passed := [];
    var failure := VerifyCore(b, trust);
    if failure.Some? {
      return Rejected(failure.value), passed;
    }
    passed := passed + [CoreStage];
    if b.witnessing.None? {
      return if requireWitness then Rejected(REJECTED_NOT_WITNESSED) else Valid(L1), passed;
    }
    failure := VerifyWitness(b, b.witnessing.value, trust);
    if failure.Some? {
      return Rejected(failure.value), passed;
    }
    passed := passed + [WitnessStage];
    return Valid(W1), passed;
  }
}
