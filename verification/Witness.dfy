/**
 The witness (vdb_c1/witness.py): countersigns journal heads, only forward. What it signs
 decides which history, and which certificate, a W1 bundle can carry.
 */
module Witnesses {
  import opened Bytes
  import opened Options
  import opened States
  import opened Canon
  import opened Journals
  import opened JournalFile
  import opened Verifier

  /** The durable state: the last head signed. */
  datatype Seen = Seen(genesisHash: Hash, seqno: int, headHash: Hash)

  datatype Refusal =
    | E_TORN_JOURNAL
    /** A line that is not JSON, or E_CHAIN. */
    | E_BAD_RECORD
    | E_EMPTY | E_DIFFERENT_JOURNAL | E_ROLLBACK | E_FORK | E_INVALID_FINALITY

  // ---------------------------------------------------------------- observe on records

  function HeadOf(recs: seq<Record>): Seen
    requires recs != []
  {
    Seen(recs[0].hash, |recs| - 1, recs[|recs| - 1].hash)
  }

  /** The bundle the witness makes for a FINALIZED record. */
  function BundleAt(recs: seq<Record>, n: nat): Bundle
    requires n < |recs| && recs[n].body.FinalizedBody?
  {
    var cert := recs[n].body.certificate;
    Bundle(BundleV1, recs[n].intentId, recs[..n + 1], Receipt(cert, Digest(CertificateObject(cert))), None)
  }

  predicate FinalityOk(trust: Trust, recs: seq<Record>, n: nat)
    requires n < |recs|
  {
    recs[n].kind.Finalized? ==>
      recs[n].body.FinalizedBody? && VerdictOf(BundleAt(recs, n), trust, false).Valid?
  }

  /** The checks that the journal continues the one seen before. */
  function Discontinuity(seen: Option<Seen>, recs: seq<Record>): Option<Refusal>
    requires recs != []
  {
    if seen.None? then None
    else if recs[0].hash != seen.value.genesisHash then Some(E_DIFFERENT_JOURNAL)
    else if |recs| <= seen.value.seqno then Some(E_ROLLBACK)
    else if seen.value.seqno < 0 || recs[seen.value.seqno].hash != seen.value.headHash then Some(E_FORK)
    else None
  }

  function FirstNew(seen: Option<Seen>): int {
    if seen.None? then 0 else seen.value.seqno + 1
  }

  /** Why a readable journal is not signed, or None. */
  function Refuses(trust: Trust, seen: Option<Seen>, recs: seq<Record>): Option<Refusal> {
    if recs == [] then Some(E_EMPTY)
    else
      var d := Discontinuity(seen, recs);
      if d.Some? then d
      else if exists n | 0 <= n < |recs| :: FirstNew(seen) <= n && !FinalityOk(trust, recs, n) then
        Some(E_INVALID_FINALITY)
      else None
  }

  function CheckpointOf(recs: seq<Record>, at: Stamp, key: Key): Signed<Checkpoint>
    requires recs != []
  {
    Sign(Checkpoint(CheckpointV1, recs[0].hash, |recs| - 1, recs[|recs| - 1].hash, at, KidOf(key)), key)
  }

  // ---------------------------------------------------------------- what was signed

  /** One checkpoint the witness signed; the call may have died before the state was persisted. */
  datatype Attempt = Attempt(recs: seq<Record>, completed: bool)

  /** The persisted state after a list of attempts. */
  ghost function StateAfterAttempts(attempts: seq<Attempt>): Option<Seen>
    requires forall i | 0 <= i < |attempts| :: attempts[i].recs != []
  {
    if attempts == [] then None
    else
      var before, last := attempts[..|attempts| - 1], attempts[|attempts| - 1];
      if last.completed then Some(HeadOf(last.recs)) else StateAfterAttempts(before)
  }

  /** Every attempt read a chain and passed all checks against the state persisted before it. */
  ghost predicate Signing(trust: Trust, attempts: seq<Attempt>) {
    && (forall i | 0 <= i < |attempts| :: attempts[i].recs != [] && Chain(attempts[i].recs))
    && forall i | 0 <= i < |attempts| :: Refuses(trust, StateAfterAttempts(attempts[..i]), attempts[i].recs).None?
  }

  // ---------------------------------------------------------------- the witness object

  datatype Answer = Countersigned(checkpoint: Signed<Checkpoint>) | Refused(reason: Refusal)

  /** _read_journal: strict about the tail, and about the chain. */
  function ReadJournal(c: Codec, data: seq<Byte>): Option<seq<Record>> {
    if Complete(data) != |data| then None else ParseLines(c, Splitlines(data), false)
  }

  class Witness {
    const key: Key
    const trust: Trust
    const codec: Codec
    var state: Option<Seen>
    var checkpoints: seq<Signed<Checkpoint>>
    /** Signed fork evidence, by the reason it was written for. */
    var forks: seq<Refusal>
    /** The journals signed so far. */
    ghost var attempts: seq<Attempt>

    /** The checkpoints are those of journals that passed every check, and the state is the last persisted one. */
    ghost predicate Valid()
      reads this
    {
      && Signing(trust, attempts)
      && state == StateAfterAttempts(attempts)
      && |checkpoints| == |attempts|
      && forall i | 0 <= i < |attempts| ::
           checkpoints[i] == CheckpointOf(attempts[i].recs, checkpoints[i].payload.witnessedAt, key)
    }

    constructor (key: Key, trust: Trust, codec: Codec)
      ensures Valid() && this.key == key && this.trust == trust && this.codec == codec
      ensures state.None? && checkpoints == [] && forks == []
    {
      this.key, this.trust, this.codec := key, trust, codec;
      state, checkpoints, forks, attempts := None, [], [], [];
    }

    /** observe. A call that does not complete dies after the checkpoint is written and before the state is. */
    method Observe(data: seq<Byte>, at: Stamp, completes: bool) returns (answer: Answer)
      requires Valid()
      modifies this
      ensures Valid()
      ensures answer.Countersigned? <==>
              var recs := ReadJournal(codec, data);
              recs.Some? && Refuses(trust, old(state), recs.value).None?
      ensures answer.Countersigned? ==>
                var recs := ReadJournal(codec, data).value;
                && answer.checkpoint == CheckpointOf(recs, at, key)
                && attempts == old(attempts) + [Attempt(recs, completes)]
                && state == (if completes then Some(HeadOf(recs)) else old(state))
                && checkpoints == old(checkpoints) + [answer.checkpoint] && forks == old(forks)
      ensures answer.Refused? ==>
                && state == old(state) && checkpoints == old(checkpoints) && attempts == old(attempts)
                && forks == old(forks) +
                            if answer.reason in {E_DIFFERENT_JOURNAL, E_ROLLBACK, E_FORK} then [answer.reason] else []
    {
      if Complete(data) != |data| {
        return Refused(E_TORN_JOURNAL);
      }
      var read := ParseAll(codec, Splitlines(data), false);
      if read.None? {
        return Refused(E_BAD_RECORD);
      }
      var recs := read.value;
      ParsedIsChain(codec, Splitlines(data), false);
      var refusal := Examine(trust, state, recs);
      if refusal.Some? {
        if refusal.value in {E_DIFFERENT_JOURNAL, E_ROLLBACK, E_FORK} {
          forks := forks + [refusal.value];
        }
        return Refused(refusal.value);
      }
      var checkpoint := CheckpointOf(recs, at, key);
      Record(recs, checkpoint, completes);
      return Countersigned(checkpoint);
    }

    /** Appends a checkpoint and, if the call completes, persists the new state. */
    method Record(recs: seq<Record>, checkpoint: Signed<Checkpoint>, completes: bool)
      requires Valid() && recs != [] && Chain(recs) && Refuses(trust, state, recs).None?
      requires checkpoint == CheckpointOf(recs, checkpoint.payload.witnessedAt, key)
      modifies this
      ensures Valid() && forks == old(forks)
      ensures attempts == old(attempts) + [Attempt(recs, completes)]
      ensures state == if completes then Some(HeadOf(recs)) else old(state)
      ensures checkpoints == old(checkpoints) + [checkpoint]
    {
      var a := Attempt(recs, completes);
      SigningSnoc(trust, attempts, a);
      checkpoints, attempts := checkpoints + [checkpoint], attempts + [a];
      if completes {
        state := Some(HeadOf(recs));
      }
    }

    /** covering: the earliest checkpoint whose head is at or after `seqno`. */
    method Covering(seqno: int) returns (r: Option<Signed<Checkpoint>>)
      ensures r.None? ==> forall c | c in checkpoints :: c.payload.seqno < seqno
      ensures r.Some? ==> exists i :: 0 <= i < |checkpoints| && checkpoints[i] == r.value
                                      && r.value.payload.seqno >= seqno
                                      && forall k | 0 <= k < i :: checkpoints[k].payload.seqno < seqno
    {
      for i := 0 to |checkpoints|
        invariant forall k | 0 <= k < i :: checkpoints[k].payload.seqno < seqno
      {
        if checkpoints[i].payload.seqno >= seqno {
          return Some(checkpoints[i]);
        }
      }
      return None;
    }
  }

  /** Re-verifies every FINALIZED record from `start` on. */
  method FinalitiesOk(trust: Trust, recs: seq<Record>, start: int) returns (ok: bool)
    requires start <= |recs|
    ensures ok <==> forall n | 0 <= n < |recs| :: start <= n ==> FinalityOk(trust, recs, n)
  {
    for n := if start < 0 then 0 else start to |recs|
      invariant forall k | 0 <= k < n :: start <= k ==> FinalityOk(trust, recs, k)
    {
      if !FinalityOk(trust, recs, n) {
        return false;
      }
    }
    return true;
  }

  /** The checks on a readable journal, in order. */
  method Examine(trust: Trust, seen: Option<Seen>, recs: seq<Record>) returns (r: Option<Refusal>)
    ensures r == Refuses(trust, seen, recs)
  {
    if recs == [] {
      return Some(E_EMPTY);
    }
    var d := Discontinuity(seen, recs);
    if d.Some? {
      return d;
    }
    var ok := FinalitiesOk(trust, recs, FirstNew(seen));
    return if ok then None else Some(E_INVALID_FINALITY);
  }

  lemma {:induction false} SigningSnoc(trust: Trust, attempts: seq<Attempt>, a: Attempt)
    requires Signing(trust, attempts) && a.recs != [] && Chain(a.recs)
    requires Refuses(trust, StateAfterAttempts(attempts), a.recs).None?
    ensures Signing(trust, attempts + [a])
    ensures StateAfterAttempts(attempts + [a]) ==
            if a.completed then Some(HeadOf(a.recs)) else StateAfterAttempts(attempts)
  {
    var all := attempts + [a];
    assert all[..|attempts|] == attempts;
    forall i | 0 <= i < |all|
      ensures Refuses(trust, StateAfterAttempts(all[..i]), all[i].recs).None?
    {
      assert all[..i] == attempts[..i];
    }
  }

  // ---------------------------------------------------------------- only forward

  /** A journal that continues a seen head carries the whole history behind it. */
  lemma {:induction false} ContinuesHistory(old_: seq<Record>, recs: seq<Record>)
    requires Chain(old_) && Chain(recs) && old_ != [] && recs != []
    requires Discontinuity(Some(HeadOf(old_)), recs).None?
    ensures old_ <= recs
  {
    HeadCommits(old_, recs, |old_| - 1);
    assert old_[..|old_|] == old_;
  }

  /** The genesis check adds nothing: a journal with the witnessed head has the witnessed genesis. */
  lemma {:induction false} GenesisFollowsFromHead(old_: seq<Record>, recs: seq<Record>)
    requires Chain(old_) && Chain(recs) && old_ != []
    requires |recs| > HeadOf(old_).seqno && recs[HeadOf(old_).seqno].hash == HeadOf(old_).headHash
    ensures recs[0].hash == HeadOf(old_).genesisHash
  {
    HeadCommits(old_, recs, |old_| - 1);
    assert recs[..|old_|][0] == old_[..|old_|][0];
  }

  /** The witness only moves forward: what it signs extends everything it has persisted. */
  lemma {:induction false} OnlyForward(trust: Trust, attempts: seq<Attempt>, i: nat, k: nat)
    requires Signing(trust, attempts) && i <= k < |attempts| && attempts[i].completed
    ensures attempts[i].recs <= attempts[k].recs
    decreases k
  {
    if i < k {
      var m := LastCompleted(attempts, i, k);
      OnlyForward(trust, attempts, i, m);
      assert Refuses(trust, StateAfterAttempts(attempts[..k]), attempts[k].recs).None?;
      ContinuesHistory(attempts[m].recs, attempts[k].recs);
    }
  }

  /** The persisted state before attempt k comes from the last completed attempt before it. */
  lemma {:induction false} LastCompleted(attempts: seq<Attempt>, i: nat, k: nat) returns (m: nat)
    requires forall n | 0 <= n < |attempts| :: attempts[n].recs != []
    requires i < k <= |attempts| && attempts[i].completed
    ensures i <= m < k && attempts[m].completed
    ensures StateAfterAttempts(attempts[..k]) == Some(HeadOf(attempts[m].recs))
    decreases k
  {
    assert attempts[..k][..k - 1] == attempts[..k - 1];
    if attempts[k - 1].completed {
      m := k - 1;
    } else {
      m := LastCompleted(attempts, i, k - 1);
    }
  }

  /** A journal of one refusal. */
  function OneRefusal(reason: Reason): (j: seq<Record>)
    ensures j != [] && Chain(j)
  {
    AppendKeepsChain([], AdmissionRejected, "unknown", Rejection(None, reason), Utc(0));
    Append([], AdmissionRejected, "unknown", Rejection(None, reason), Utc(0))
  }

  lemma {:induction false} NothingToVerify(trust: Trust, recs: seq<Record>)
    requires recs != [] && forall i | 0 <= i < |recs| :: !recs[i].kind.Finalized?
    ensures Refuses(trust, None, recs).None?
  {
  }

  /** The journal of the last completed call. */
  ghost function Persisted(attempts: seq<Attempt>): Option<seq<Record>> {
    if attempts == [] then None
    else if attempts[|attempts| - 1].completed then Some(attempts[|attempts| - 1].recs)
    else Persisted(attempts[..|attempts| - 1])
  }

  lemma {:induction false} PersistedIsState(attempts: seq<Attempt>)
    requires forall n | 0 <= n < |attempts| :: attempts[n].recs != []
    ensures Persisted(attempts).None? ==> StateAfterAttempts(attempts).None?
    ensures Persisted(attempts).Some? ==>
              && Persisted(attempts).value != []
              && StateAfterAttempts(attempts) == Some(HeadOf(Persisted(attempts).value))
              && exists m :: 0 <= m < |attempts| && attempts[m] == Attempt(Persisted(attempts).value, true)
  {
    if attempts != [] && !attempts[|attempts| - 1].completed {
      var before := attempts[..|attempts| - 1];
      PersistedIsState(before);
      if Persisted(before).Some? {
        var m :| 0 <= m < |before| && before[m] == Attempt(Persisted(before).value, true);
        assert attempts[m] == before[m];
      }
    }
  }

  /** Whatever is signed from now on extends a journal. */
  ghost predicate HeldTo(trust: Trust, attempts: seq<Attempt>, recs: seq<Record>) {
    forall more: seq<Attempt> | Signing(trust, attempts + more) :: AllExtend(more, recs)
  }

  ghost predicate AllExtend(more: seq<Attempt>, recs: seq<Record>) {
    forall k | 0 <= k < |more| :: recs <= more[k].recs
  }

  /** The persisted journal can be signed again. */
  lemma {:induction false} SignsAgain(trust: Trust, recs: seq<Record>)
    requires recs != [] && Chain(recs)
    ensures Refuses(trust, Some(HeadOf(recs)), recs).None?
  {
  }

  /** With nothing persisted, some journal that does not extend a given one can be signed. */
  lemma {:induction false} SignsAnother(trust: Trust, recs: seq<Record>) returns (other: seq<Record>)
    requires recs != []
    ensures other != [] && Chain(other) && Refuses(trust, None, other).None? && !(recs <= other)
  {
    var a, b := OneRefusal(E_SCHEMA), OneRefusal(E_TTL);
    assert a[0].body == Rejection(None, E_SCHEMA) && b[0].body == Rejection(None, E_TTL);
    NothingToVerify(trust, a);
    NothingToVerify(trust, b);
    other := if recs[0] == a[0] then b else a;
  }

  lemma {:induction false} PersistedBinds(trust: Trust, attempts: seq<Attempt>, more: seq<Attempt>, k: nat)
    requires Signing(trust, attempts) && Signing(trust, attempts + more) && Persisted(attempts).Some? && k < |more|
    ensures Persisted(attempts).value <= more[k].recs
  {
    PersistedIsState(attempts);
    var m :| 0 <= m < |attempts| && attempts[m] == Attempt(Persisted(attempts).value, true);
    assert (attempts + more)[m] == attempts[m] && (attempts + more)[|attempts| + k] == more[k];
    OnlyForward(trust, attempts + more, m, |attempts| + k);
  }

  /** A journal that nothing persisted extends can be contradicted by the next completed call. */
  lemma {:induction false} MayFork(trust: Trust, attempts: seq<Attempt>, recs: seq<Record>) returns (other: seq<Record>)
    requires Signing(trust, attempts) && recs != []
    requires Persisted(attempts).None? || !(recs <= Persisted(attempts).value)
    ensures Signing(trust, attempts + [Attempt(other, true)]) && !(recs <= other)
  {
    PersistedIsState(attempts);
    if Persisted(attempts).None? {
      other := SignsAnother(trust, recs);
    } else {
      other := Persisted(attempts).value;
      var m :| 0 <= m < |attempts| && attempts[m] == Attempt(other, true);
      assert Chain(attempts[m].recs);
      SignsAgain(trust, other);
    }
    SigningSnoc(trust, attempts, Attempt(other, true));
  }

  /**
   Exactly what the witness holds its future to: whatever it signs from now on extends a journal if and only if the
   journal of the last completed call does. A head whose call died before persisting binds nothing by itself.
   */
  lemma {:induction false} BindsExactly(trust: Trust, attempts: seq<Attempt>, recs: seq<Record>)
    requires Signing(trust, attempts) && recs != []
    ensures HeldTo(trust, attempts, recs) <==> Persisted(attempts).Some? && recs <= Persisted(attempts).value
  {
    if Persisted(attempts).Some? && recs <= Persisted(attempts).value {
      forall more: seq<Attempt> | Signing(trust, attempts + more)
        ensures AllExtend(more, recs)
      {
        forall k | 0 <= k < |more|
          ensures recs <= more[k].recs
        {
          PersistedBinds(trust, attempts, more, k);
        }
      }
    } else {
      var other := MayFork(trust, attempts, recs);
      var more := [Attempt(other, true)];
      assert more[0].recs == other;
      assert !AllExtend(more, recs);
    }
  }

  /** A call just made binds the future exactly when it completed or signed the persisted journal once more. */
  lemma {:induction false} CompletionDecides(trust: Trust, attempts: seq<Attempt>, a: Attempt)
    requires Signing(trust, attempts) && Signing(trust, attempts + [a])
    ensures HeldTo(trust, attempts + [a], a.recs) <==> a.completed || Persisted(attempts) == Some(a.recs)
  {
    var all := attempts + [a];
    assert all[..|attempts|] == attempts && all[|attempts|] == a;
    BindsExactly(trust, all, a.recs);
    if !a.completed && Persisted(attempts).Some? {
      PersistedBinds(trust, attempts, [a], 0);
      var p := Persisted(attempts).value;
      assert a.recs <= p ==> a.recs == p;
    }
  }

  // ---------------------------------------------------------------- one witnessed history

  /** The whole history a W1 bundle shows. */
  function FullHistory(b: Bundle): seq<Record> {
    b.journal + if b.witnessing.Some? then b.witnessing.value.suffix else []
  }

  /** What the verifier establishes about the records of a W1 bundle. */
  ghost predicate Witnessed(b: Bundle) {
    && b.witnessing.Some? && b.journal != [] && Chain(b.journal)
    && LegalFinalPath(Kinds(Binding(b.journal, b.intentId)))
    && ChainsOn(b.witnessing.value.suffix, |b.journal|, HeadHash(b.journal))
    && Binding(b.witnessing.value.suffix, b.intentId) == []
    && b.witnessing.value.checkpoint.payload.seqno == |FullHistory(b)| - 1
    && b.witnessing.value.checkpoint.payload.headHash == FullHistory(b)[|FullHistory(b)| - 1].hash
  }

  lemma {:induction false} ValidIsWitnessed(b: Bundle, trust: Trust)
    requires VerdictOf(b, trust, true) == Valid(W1)
    ensures Witnessed(b)
  {
    assert Failure(b, trust).None? && WitnessFailure(b, b.witnessing.value, trust).None?;
  }

  /** A W1 bundle shows one chain, and nothing more for its intent after the finality. */
  lemma {:induction false} WitnessedShape(b: Bundle)
    requires Witnessed(b)
    ensures Chain(FullHistory(b)) && Binding(FullHistory(b), b.intentId) == Binding(b.journal, b.intentId)
  {
    ChainConcat(b.journal, b.witnessing.value.suffix);
    BindingConcat(b.journal, b.witnessing.value.suffix, b.intentId);
  }

  /** The receipt of a valid bundle is the certificate in the intent's last binding record, with its digest. */
  ghost predicate ReceiptInJournal(b: Bundle) {
    var recs := Binding(b.journal, b.intentId);
    && recs != [] && recs[|recs| - 1].body.FinalizedBody?
    && b.receipt == Receipt(recs[|recs| - 1].body.certificate,
                            Digest(CertificateObject(recs[|recs| - 1].body.certificate)))
  }

  lemma {:induction false} CertificateInJournal(b: Bundle, trust: Trust, requireWitness: bool)
    requires VerdictOf(b, trust, requireWitness).Valid?
    ensures ReceiptInJournal(b)
  {
    assert Failure(b, trust).None?;
  }

  /** One witnessed history: bundles valid against one head show the same records, and one receipt for one intent. */
  lemma {:induction false} SameHeadSameHistory(a: Bundle, b: Bundle, trust: Trust)
    requires VerdictOf(a, trust, true) == Valid(W1) && VerdictOf(b, trust, true) == Valid(W1)
    requires a.witnessing.Some? && b.witnessing.Some?
    requires a.witnessing.value.checkpoint.payload.seqno == b.witnessing.value.checkpoint.payload.seqno
    requires a.witnessing.value.checkpoint.payload.headHash == b.witnessing.value.checkpoint.payload.headHash
    ensures FullHistory(a) == FullHistory(b)
    ensures a.intentId == b.intentId ==> a.receipt == b.receipt
  {
    ValidIsWitnessed(a, trust);
    ValidIsWitnessed(b, trust);
    SameWitnessedHead(a, b);
    if a.intentId == b.intentId {
      CertificateInJournal(a, trust, true);
      CertificateInJournal(b, trust, true);
      SameOutcome(a, b);
    }
  }

  lemma {:induction false} SameWitnessedHead(a: Bundle, b: Bundle)
    requires Witnessed(a) && Witnessed(b)
    requires a.witnessing.value.checkpoint.payload.seqno == b.witnessing.value.checkpoint.payload.seqno
    requires a.witnessing.value.checkpoint.payload.headHash == b.witnessing.value.checkpoint.payload.headHash
    ensures FullHistory(a) == FullHistory(b)
  {
    WitnessedShape(a);
    WitnessedShape(b);
    SameHead(FullHistory(a), FullHistory(b));
  }

  lemma {:induction false} SameHead(a: seq<Record>, b: seq<Record>)
    requires Chain(a) && Chain(b) && |a| == |b| > 0 && a[|a| - 1].hash == b[|b| - 1].hash
    ensures a == b
  {
    HeadCommits(a, b, |a| - 1);
    assert a[..|a|] == a && b[..|b|] == b;
  }

  /** A legal final path has no longer legal final path. */
  lemma {:induction false} FinalPathsMaximal(a: seq<Record>, b: seq<Record>)
    requires a <= b && LegalFinalPath(Kinds(a)) && LegalFinalPath(Kinds(b))
    ensures a == b
  {
    assert Kinds(a) <= Kinds(b);
    assert Kinds(b)[|a| - 1] == Kinds(a)[|a| - 1] == Finalized;
  }

  /** The history of a bundle countersigned at an attempt is the journal of that attempt. */
  lemma {:induction false} WitnessedAttempt(b: Bundle, recs: seq<Record>, at: Stamp, key: Key)
    requires Witnessed(b) && recs != [] && Chain(recs)
    requires b.witnessing.value.checkpoint == CheckpointOf(recs, at, key)
    ensures FullHistory(b) == recs
  {
    WitnessedShape(b);
    SameHead(FullHistory(b), recs);
  }

  /**
   One outcome per intent: any two parties that hold W1 bundles for the same intent, under
   checkpoints of one witness of which the earlier call completed, hold the same receipt.
   */
  lemma {:induction false} OneWitnessedOutcome(wtrust: Trust, attempts: seq<Attempt>, i: nat, k: nat, trust: Trust,
                                               key: Key, a: Bundle, b: Bundle, at: Stamp, bt: Stamp)
    requires Signing(wtrust, attempts) && i <= k < |attempts| && attempts[i].completed
    requires VerdictOf(a, trust, true) == Valid(W1) && VerdictOf(b, trust, true) == Valid(W1)
    requires a.witnessing.Some? && a.witnessing.value.checkpoint == CheckpointOf(attempts[i].recs, at, key)
    requires b.witnessing.Some? && b.witnessing.value.checkpoint == CheckpointOf(attempts[k].recs, bt, key)
    requires a.intentId == b.intentId
    ensures FullHistory(a) <= FullHistory(b) && a.receipt == b.receipt
  {
    ValidIsWitnessed(a, trust);
    ValidIsWitnessed(b, trust);
    CertificateInJournal(a, trust, true);
    CertificateInJournal(b, trust, true);
    OnlyForward(wtrust, attempts, i, k);
    WitnessedAttempt(a, attempts[i].recs, at, key);
    WitnessedAttempt(b, attempts[k].recs, bt, key);
    SameOutcome(a, b);
  }

  lemma {:induction false} SameOutcome(a: Bundle, b: Bundle)
    requires Witnessed(a) && Witnessed(b) && ReceiptInJournal(a) && ReceiptInJournal(b)
    requires a.intentId == b.intentId && FullHistory(a) <= FullHistory(b)
    ensures a.receipt == b.receipt
  {
    WitnessedShape(a);
    WitnessedShape(b);
    SamePath(FullHistory(a), FullHistory(b), a.intentId);
  }

  lemma {:induction false} SamePath(fa: seq<Record>, fb: seq<Record>, id: string)
    requires fa <= fb && LegalFinalPath(Kinds(Binding(fa, id))) && LegalFinalPath(Kinds(Binding(fb, id)))
    ensures Binding(fa, id) == Binding(fb, id)
  {
    assert fb == fa + fb[|fa|..];
    BindingConcat(fa, fb[|fa|..], id);
    FinalPathsMaximal(Binding(fa, id), Binding(fb, id));
  }
}
