/**
 What every run of the protocol keeps in the journal, whatever the store returns: one hash
 chain in which every record may follow the earlier records of its intent.
 */
module Paths {
  import opened Options
  import opened States
  import opened Canon
  import opened Journals
  import opened Stores
  import opened Protocol
  import Verifier

  // ---------------------------------------------------------------- the invariant

  /** The admission binding: a well-formed intent under a trusted key, matching the pre-state it names. */
  ghost predicate PreparedOk(cfg: Config, id: string, r: Record) {
    var b := r.body;
    && r.intentId == id && b.PreparedBody? && b.signedIntent.payload.Intent? && b.admittedAt.Utc?
    && var p := b.signedIntent.payload;
    && p.intentId == id && id != "unknown"
    && Canonical(p) && b.hash == IntentHash(p)
    && VerifySigned(b.signedIntent, cfg.authority) && b.signedIntent.kid == p.authorityKid
    && p.protocol == IntentV1 && p.op == UPSERT && p.namespace == cfg.namespace
    && p.issuedAt.Utc? && p.expiresAt.Utc?
    && b.preGeneration == p.expectedGeneration && b.preRoot == p.expectedRoot
    && b.preRoot == StateRoot(cfg.namespace, b.preGeneration, b.preEntries)
    && b.payloadCommitment == Commitment(p.op, p.key, p.value)
  }

  /** The confirmed outcome: exactly the signed UPSERT, once, on top of the pre-state. */
  ghost predicate CommittedOk(cfg: Config, prepared: Record, r: Record) {
    var pb, cb := prepared.body, r.body;
    && CanCertify(prepared, r)
    && cb.hash == pb.hash
    && cb.postGeneration == pb.preGeneration + 1
    && cb.postRoot == StateRoot(cfg.namespace, cb.postGeneration, cb.postEntries)
    && cb.postEntries == PostEntries(pb.preEntries, pb.signedIntent.payload.key, pb.signedIntent.payload.value)
    && SortEntries(cb.postEntries) == cb.postEntries
    && cb.appliedRow == Row(prepared.intentId, pb.hash.value, cb.postGeneration, cb.postRoot)
    && cb.physical == Physical(WalFull, pb.storeId)
  }

  predicate AtPrepared(kinds: seq<Label>) { kinds == [Prepared] }

  predicate AtCommitting(kinds: seq<Label>) { kinds == [Prepared, Committing] }

  predicate AtUncertain(kinds: seq<Label>) { kinds == [Prepared, Committing, CommitUncertain] }

  predicate AtCommitted(kinds: seq<Label>) {
    kinds == [Prepared, Committing, Committed] || kinds == [Prepared, Committing, CommitUncertain, Committed]
  }

  /** The record kinds that may follow a path. */
  predicate MayFollow(kinds: seq<Label>, kind: Label) {
    match kind
    case Prepared => kinds == []
    case Committing => AtPrepared(kinds)
    case CommitUncertain => AtCommitting(kinds)
    case Committed => AtCommitting(kinds) || AtUncertain(kinds)
    case Finalized => AtCommitted(kinds)
    case Aborted => AtPrepared(kinds) || AtUncertain(kinds)
    case _ => false
  }

  /** When a binding record may follow the earlier ones of its intent, and what it must bind. */
  ghost predicate Follows(cfg: Config, id: string, recs: seq<Record>, r: Record) {
    && MayFollow(Kinds(recs), r.kind)
    && match r.kind
       case Prepared => PreparedOk(cfg, id, r)
       case Committed => CommittedOk(cfg, recs[0], r)
       case Finalized =>
         && CanCertify(recs[0], recs[|recs| - 1])
         && r.body == FinalizedBody(recs[0].body.hash, MakeCertificate(cfg, recs[0], recs[|recs| - 1]))
       case Committing => r.body.hash == recs[0].body.hash
       case CommitUncertain => r.body.hash == recs[0].body.hash
       case Aborted => r.body.hash == recs[0].body.hash
       case _ => false
  }

  /** The binding records of one intent. */
  ghost predicate IntentOk(cfg: Config, id: string, recs: seq<Record>) {
    recs == [] ||
    (IntentOk(cfg, id, recs[..|recs| - 1]) && Follows(cfg, id, recs[..|recs| - 1], recs[|recs| - 1]))
  }

  lemma {:induction false} IntentSnoc(cfg: Config, id: string, recs: seq<Record>, r: Record)
    ensures IntentOk(cfg, id, recs + [r]) <==> IntentOk(cfg, id, recs) && Follows(cfg, id, recs, r)
  {
    assert (recs + [r])[..|recs|] == recs;
  }

  ghost predicate JournalOk(cfg: Config, j: seq<Record>) {
    j == [] ||
    (var before, r := j[..|j| - 1], j[|j| - 1];
     && JournalOk(cfg, before)
     && Linked(r, |before|, HeadHash(before))
     && (IsBinding(r.kind) ==> Follows(cfg, r.intentId, Binding(before, r.intentId), r))
     && (r.kind.PreconditionRejected? ==> r.body.PreconditionRejection? && r.body.signedIntent.payload.Intent?))
  }

  ghost predicate PhaseOk(s: State) {
    match s.phase
    case Idle => true
    case Recovering(_) => true
    case Aborting(id, _) => AtUncertain(Kinds(Binding(s.journal, id)))
    case Confirming(id, _, true) => AtUncertain(Kinds(Binding(s.journal, id)))
    case Confirming(id, _, false) => AtCommitting(Kinds(Binding(s.journal, id)))
    case Finishing(id, _) => AtCommitted(Kinds(Binding(s.journal, id)))
    case Opened(id) => AtPrepared(Kinds(Binding(s.journal, id)))
    case InTransaction(id, _) => AtCommitting(Kinds(Binding(s.journal, id)))
  }

  ghost predicate Inv(cfg: Config, s: State) {
    JournalOk(cfg, s.journal) && PhaseOk(s)
  }

  /** uuid.UUID refuses the placeholder for a missing id. */
  ghost predicate Configured(cfg: Config) {
    !cfg.isUuid("unknown")
  }

  // ---------------------------------------------------------------- consequences

  lemma {:induction false} JournalIsChain(cfg: Config, j: seq<Record>)
    requires JournalOk(cfg, j)
    ensures Chain(j)
  {
    if j != [] {
      var before := j[..|j| - 1];
      JournalIsChain(cfg, before);
      forall i | 0 <= i < |j|
        ensures Linked(j[i], i, HeadHash(j[..i]))
      {
        if i < |before| {
          assert before[..i] == j[..i];
          assert Linked(before[i], i, HeadHash(before[..i]));
        }
      }
    }
  }

  lemma {:induction false} JournalPrefix(cfg: Config, j: seq<Record>, n: nat)
    requires JournalOk(cfg, j) && n <= |j|
    ensures JournalOk(cfg, j[..n])
  {
    if n < |j| {
      JournalPrefix(cfg, j[..|j| - 1], n);
      assert j[..|j| - 1][..n] == j[..n];
    } else {
      assert j[..n] == j;
    }
  }

  lemma {:induction false} IntentsOk(cfg: Config, j: seq<Record>, id: string)
    requires JournalOk(cfg, j)
    ensures IntentOk(cfg, id, Binding(j, id))
  {
    if j != [] {
      var before, r := j[..|j| - 1], j[|j| - 1];
      IntentsOk(cfg, before, id);
      if Binds(r, id) {
        IntentSnoc(cfg, id, Binding(before, id), r);
      } else {
        assert Binding(j, id) == Binding(before, id);
      }
    }
  }

  /** What the last record of an intent says about the path so far. */
  lemma {:induction false} LastKindIs(cfg: Config, id: string, recs: seq<Record>)
    requires IntentOk(cfg, id, recs) && recs != []
    ensures var kinds, last := Kinds(recs), recs[|recs| - 1].kind;
            && (last.Prepared? ==> AtPrepared(kinds))
            && (last.Committing? ==> AtCommitting(kinds))
            && (last.CommitUncertain? ==> AtUncertain(kinds))
            && (last.Committed? ==> AtCommitted(kinds))
            && IsBinding(last)
  {
    var before, r := recs[..|recs| - 1], recs[|recs| - 1];
    assert recs == before + [r];
    KindsSnoc(before, r);
  }

  lemma {:induction false} LastIsBinding(j: seq<Record>, id: string)
    requires Binding(j, id) != []
    ensures IsBinding(LastKind(j, id))
  {
    BindingMembers(j, id);
    assert Binding(j, id)[|Binding(j, id)| - 1] in Binding(j, id);
  }

  /** The first binding record is the admission binding. */
  lemma {:induction false} FirstIsPrepared(cfg: Config, id: string, recs: seq<Record>)
    requires IntentOk(cfg, id, recs) && recs != []
    ensures PreparedOk(cfg, id, recs[0]) && recs[0].kind.Prepared?
  {
    if |recs| > 1 {
      FirstIsPrepared(cfg, id, recs[..|recs| - 1]);
    }
  }

  // ---------------------------------------------------------------- appending a record

  lemma {:induction false} AppendOk(cfg: Config, j: seq<Record>, kind: Label, id: string, body: Body, at: Stamp)
    requires JournalOk(cfg, j)
    requires IsBinding(kind) ==> Follows(cfg, id, Binding(j, id), NextRecord(j, kind, id, body, at))
    requires kind.PreconditionRejected? ==> body.PreconditionRejection? && body.signedIntent.payload.Intent?
    ensures JournalOk(cfg, Append(j, kind, id, body, at))
  {
    var j' := Append(j, kind, id, body, at);
    assert j'[..|j'| - 1] == j && j'[|j'| - 1] == NextRecord(j, kind, id, body, at);
    assert Linked(NextRecord(j, kind, id, body, at), |j|, HeadHash(j));
  }

  lemma {:induction false} AppendBinding(j: seq<Record>, kind: Label, id: string, body: Body, at: Stamp, other: string)
    ensures Binding(Append(j, kind, id, body, at), other) ==
            if IsBinding(kind) && other == id then Binding(j, id) + [NextRecord(j, kind, id, body, at)]
            else Binding(j, other)
    ensures IsBinding(kind) ==> Kinds(Binding(Append(j, kind, id, body, at), id)) == Kinds(Binding(j, id)) + [kind]
  {
    BindingSnoc(j, NextRecord(j, kind, id, body, at), other);
    BindingSnoc(j, NextRecord(j, kind, id, body, at), id);
    KindsSnoc(Binding(j, id), NextRecord(j, kind, id, body, at));
  }

  lemma {:induction false} PathSteps(kinds: seq<Label>)
    ensures AtPrepared([Prepared])
    ensures AtPrepared(kinds) ==> AtCommitting(kinds + [Committing])
    ensures AtCommitting(kinds) ==> AtUncertain(kinds + [CommitUncertain]) && AtCommitted(kinds + [Committed])
    ensures AtUncertain(kinds) ==> AtCommitted(kinds + [Committed])
  {
  }

  // ---------------------------------------------------------------- steps keep the invariant

  /** Recovery marks an intent whose outcome is unknown. */
  lemma {:induction false} InspectCommitting(cfg: Config, s: State, row: Option<Row>, at: Stamp)
    requires Inv(cfg, s) && Enabled(cfg, s, Inspect(row, at)) && LastKind(s.journal, s.phase.todo[0]).Committing?
    ensures Inv(cfg, InspectStep(s, row, at))
  {
    var id, j := s.phase.todo[0], s.journal;
    IntentsOk(cfg, j, id);
    LastKindIs(cfg, id, Binding(j, id));
    var body := ReasonBody(PreparedBodyOf(j, id).hash, E_OUTCOME_UNKNOWN_AFTER_CRASH);
    AppendOk(cfg, j, CommitUncertain, id, body, at);
    BecomesUncertain(j, id, body, at);
  }

  lemma {:induction false} BecomesUncertain(j: seq<Record>, id: string, body: Body, at: Stamp)
    requires AtCommitting(Kinds(Binding(j, id)))
    ensures AtUncertain(Kinds(Binding(Append(j, CommitUncertain, id, body, at), id)))
  {
    AppendBinding(j, CommitUncertain, id, body, at, id);
    PathSteps(Kinds(Binding(j, id)));
  }

  lemma {:induction false} InspectKeepsInv(cfg: Config, s: State, row: Option<Row>, at: Stamp)
    requires Inv(cfg, s) && Enabled(cfg, s, Inspect(row, at))
    ensures Inv(cfg, InspectStep(s, row, at))
  {
    var id, j := s.phase.todo[0], s.journal;
    if LastKind(j, id).Committing? {
      InspectCommitting(cfg, s, row, at);
    } else {
      IntentsOk(cfg, j, id);
      LastKindIs(cfg, id, Binding(j, id));
      if LastKind(j, id).Prepared? {
        AppendOk(cfg, j, Aborted, id,
                 ReasonBody(PreparedBodyOf(j, id).hash, E_CRASH_BEFORE_STORAGE_TRANSACTION), at);
      }
    }
  }

  /** A fresh read without problems is the signed UPSERT applied once. */
  lemma {:induction false} ConfirmedIsOk(cfg: Config, id: string, prepared: Record, row: Row, post: Snapshot,
                                         recovered: bool, r: Record)
    requires PreparedOk(cfg, id, prepared) && row.intentId == id && GoodRead(cfg, post)
    requires Problems(prepared.body, Some(row), post) == []
    requires r.body == CommittedOf(prepared.body, row, post, recovered)
    ensures CommittedOk(cfg, prepared, r)
  {
  }

  lemma {:induction false} CommittedFollows(cfg: Config, j: seq<Record>, id: string, row: Row, post: Snapshot,
                                            recovered: bool, at: Stamp)
    requires JournalOk(cfg, j) && Prepares(j, id) && row.intentId == id && GoodRead(cfg, post)
    requires MayFollow(Kinds(Binding(j, id)), Committed)
    requires Problems(PreparedBodyOf(j, id), Some(row), post) == []
    ensures var body := CommittedOf(PreparedBodyOf(j, id), row, post, recovered);
            Follows(cfg, id, Binding(j, id), NextRecord(j, Committed, id, body, at))
  {
    var recs := Binding(j, id);
    IntentsOk(cfg, j, id);
    FirstIsPrepared(cfg, id, recs);
    var body := CommittedOf(PreparedBodyOf(j, id), row, post, recovered);
    ConfirmedIsOk(cfg, id, recs[0], row, post, recovered, NextRecord(j, Committed, id, body, at));
  }

  lemma {:induction false} ConfirmedKeepsInv(cfg: Config, s: State, row: Row, post: Snapshot, at: Stamp)
    requires Inv(cfg, s) && Enabled(cfg, s, Confirm(Some(row), post, at))
    requires Problems(PreparedBodyOf(s.journal, s.phase.id), Some(row), post) == []
    ensures Inv(cfg, ConfirmStep(s, Some(row), post, at))
  {
    var id, j := s.phase.id, s.journal;
    var body := CommittedOf(PreparedBodyOf(j, id), row, post, s.phase.recovered);
    CommittedFollows(cfg, j, id, row, post, s.phase.recovered, at);
    AppendOk(cfg, j, Committed, id, body, at);
    AppendBinding(j, Committed, id, body, at, id);
    PathSteps(Kinds(Binding(j, id)));
  }

  lemma {:induction false} ConfirmKeepsInv(cfg: Config, s: State, row: Option<Row>, post: Snapshot, at: Stamp)
    requires Inv(cfg, s) && Enabled(cfg, s, Confirm(row, post, at))
    ensures Inv(cfg, ConfirmStep(s, row, post, at))
  {
    var id, j := s.phase.id, s.journal;
    var b := PreparedBodyOf(j, id);
    var problems := Problems(b, row, post);
    if problems == [] {
      ConfirmedKeepsInv(cfg, s, row.value, post, at);
    } else if LastKind(j, id) != CommitUncertain {
      LastOfKinds(Binding(j, id));
      AppendOk(cfg, j, CommitUncertain, id, ReasonBody(b.hash, E_FRESH_READ_MISMATCH(problems)), at);
    }
  }

  lemma {:induction false} LastOfKinds(recs: seq<Record>)
    requires recs != []
    ensures recs[|recs| - 1].kind == Kinds(recs)[|recs| - 1]
  {
  }

  lemma {:induction false} FindLast(recs: seq<Record>)
    requires AtCommitted(Kinds(recs))
    ensures FindCommitted(recs) == Some(recs[|recs| - 1])
  {
    var kinds := Kinds(recs);
    assert kinds[0] == recs[0].kind && kinds[1] == recs[1].kind && kinds[2] == recs[2].kind;
    assert FindCommitted(recs) == FindCommitted(recs[1..]);
    assert recs[1..][0] == recs[1] && recs[1..][1..] == recs[2..];
    assert FindCommitted(recs[1..]) == FindCommitted(recs[2..]);
    if |recs| == 4 {
      assert kinds[3] == recs[3].kind;
      assert recs[2..][0] == recs[2] && recs[2..][1..] == recs[3..];
      assert FindCommitted(recs[2..]) == FindCommitted(recs[3..]);
    }
  }

  lemma {:induction false} FinalizeKeepsInv(cfg: Config, s: State, at: Stamp)
    requires Inv(cfg, s) && Enabled(cfg, s, Finalize(at))
    ensures Inv(cfg, Step(cfg, s, Finalize(at)))
  {
    var recs := Binding(s.journal, s.phase.id);
    FindLast(recs);
    AppendOk(cfg, s.journal, Finalized, s.phase.id,
             FinalizedBody(recs[0].body.hash, MakeCertificate(cfg, recs[0], recs[|recs| - 1])), at);
  }

  /** What an accepted submission guarantees about its PREPARED record. */
  lemma {:induction false} AcceptedIsOk(cfg: Config, j: seq<Record>, sub: Submission, now: real, pre: Snapshot,
                                        admittedAt: Stamp, r: Record)
    requires Configured(cfg) && Decide(cfg, j, sub, cfg.namespace, now).Accept?
    requires PayloadOf(sub).Intent? && GoodRead(cfg, pre) && Stale(PayloadOf(sub), pre).None? && admittedAt.Utc?
    requires r.intentId == IdOf(sub) && r.body == PreparedOf(sub.signed, pre, admittedAt)
    ensures Binding(j, IdOf(sub)) == [] && PreparedOk(cfg, IdOf(sub), r)
  {
  }

  lemma {:induction false} PrepareKeepsInv(cfg: Config, s: State, e: Event)
    requires Configured(cfg) && Inv(cfg, s) && e.Prepare? && Enabled(cfg, s, e)
    ensures Inv(cfg, Step(cfg, s, e))
  {
    var id, body := IdOf(e.sub), PreparedOf(e.sub.signed, e.pre, e.admittedAt);
    AcceptedIsOk(cfg, s.journal, e.sub, e.now, e.pre, e.admittedAt, NextRecord(s.journal, Prepared, id, body, e.at));
    AppendOk(cfg, s.journal, Prepared, id, body, e.at);
    AppendBinding(s.journal, Prepared, id, body, e.at, id);
  }

  lemma {:induction false} MutateKeepsInv(cfg: Config, s: State, store: Store, at: Stamp)
    requires Inv(cfg, s) && Enabled(cfg, s, Execute(Mutated(store), at))
    ensures Inv(cfg, ExecuteStep(s, Mutated(store), at))
  {
    var body := CommittingBody(PreparedBodyOf(s.journal, s.phase.id).hash);
    AppendOk(cfg, s.journal, Committing, s.phase.id, body, at);
    AppendBinding(s.journal, Committing, s.phase.id, body, at, s.phase.id);
    PathSteps(Kinds(Binding(s.journal, s.phase.id)));
  }

  lemma {:induction false} ExecuteKeepsInv(cfg: Config, s: State, txn: Transaction, at: Stamp)
    requires Inv(cfg, s) && Enabled(cfg, s, Execute(txn, at))
    ensures Inv(cfg, ExecuteStep(s, txn, at))
  {
    match txn
    case PreconditionFailed(reason) =>
      AppendOk(cfg, s.journal, Aborted, s.phase.id, ReasonBody(PreparedBodyOf(s.journal, s.phase.id).hash, reason), at);
    case ConstraintViolated =>
    case Mutated(store) => MutateKeepsInv(cfg, s, store, at);
  }

  lemma {:induction false} RejectKeepsInv(cfg: Config, s: State, kind: Label, id: string, body: Body, at: Stamp)
    requires Inv(cfg, s) && Ready(s) && !IsBinding(kind)
    requires kind.PreconditionRejected? ==> body.PreconditionRejection? && body.signedIntent.payload.Intent?
    ensures Inv(cfg, Put(s, kind, id, body, at, s.phase))
  {
    AppendOk(cfg, s.journal, kind, id, body, at);
  }

  lemma {:induction false} AbortKeepsInv(cfg: Config, s: State, at: Stamp)
    requires Inv(cfg, s) && s.phase.Aborting?
    ensures Binding(s.journal, s.phase.id) != []
    ensures Inv(cfg, Step(cfg, s, AbortUncertain(at)))
  {
    AppendOk(cfg, s.journal, Aborted, s.phase.id,
             ReasonBody(PreparedBodyOf(s.journal, s.phase.id).hash, E_STORAGE_COMMIT_NOT_DURABLE), at);
  }

  /** Every step keeps the invariant, whatever it reads. */
  lemma {:induction false} StepKeepsInv(cfg: Config, s: State, e: Event)
    requires Configured(cfg) && Inv(cfg, s) && Enabled(cfg, s, e)
    ensures Inv(cfg, Step(cfg, s, e))
  {
    match e
    case Acquire =>
    case Release =>
    case Inspect(row, at) => InspectKeepsInv(cfg, s, row, at);
    case AbortUncertain(at) => AbortKeepsInv(cfg, s, at);
    case Confirm(row, post, at) => ConfirmKeepsInv(cfg, s, row, post, at);
    case Finalize(at) => FinalizeKeepsInv(cfg, s, at);
    case Reject(sub, ns, now, at) =>
      RejectKeepsInv(cfg, s, AdmissionRejected, IdOf(sub),
                     Rejection(IntentHash(PayloadOf(sub)), Decide(cfg, s.journal, sub, ns, now).reason), at);
    case RejectPrecondition(sub, _, _, pre, at) =>
      RejectKeepsInv(cfg, s, PreconditionRejected, IdOf(sub),
                     PreconditionRejection(IntentHash(PayloadOf(sub)), Stale(PayloadOf(sub), pre).value, sub.signed,
                                           pre.generation, pre.root), at);
    case Prepare(_, _, _, _, _, _) => PrepareKeepsInv(cfg, s, e);
    case Execute(txn, at) => ExecuteKeepsInv(cfg, s, txn, at);
    case Commit =>
    case Outside(_) =>
  }

  lemma {:induction false} NextKeepsInv(cfg: Config, s: State, e: Event, s': State)
    requires Configured(cfg) && Inv(cfg, s) && Next(cfg, s, e) == Some(s')
    ensures Inv(cfg, s')
  {
    StepKeepsInv(cfg, s, e);
  }

  /** The journal invariant holds in every reachable state. */
  lemma {:induction false} RunKeepsInv(cfg: Config, ss: seq<State>, es: seq<Event>, n: nat)
    requires Configured(cfg) && Trace(cfg, ss, es) && n < |ss|
    ensures Inv(cfg, ss[n])
  {
    if n > 0 {
      RunKeepsInv(cfg, ss, es, n - 1);
      NextKeepsInv(cfg, ss[n - 1], es[n - 1], ss[n]);
    }
  }

  // ---------------------------------------------------------------- the path language of the coordinator

  /** Where each path that something may follow stands. */
  lemma {:induction false} PathStandings()
    ensures Replay([]) == At(Received, false)
    ensures Replay([Prepared]) == At(Prepared, false)
    ensures Replay([Prepared, Committing]) == At(Committing, false)
    ensures Replay([Prepared, Committing, CommitUncertain]) == At(CommitUncertain, false)
    ensures Replay([Prepared, Committing, Committed]) == At(Committing, true)
    ensures Replay([Prepared, Committing, CommitUncertain, Committed]) == At(CommitUncertain, true)
  {
    ReplaySnoc([], Prepared);
    ReplaySnoc([Prepared], Committing);
    ReplaySnoc([Prepared, Committing], CommitUncertain);
    ReplaySnoc([Prepared, Committing], Committed);
    ReplaySnoc([Prepared, Committing, CommitUncertain], Committed);
    assert [] + [Prepared] == [Prepared];
    assert [Prepared] + [Committing] == [Prepared, Committing];
    assert [Prepared, Committing] + [CommitUncertain] == [Prepared, Committing, CommitUncertain];
    assert [Prepared, Committing] + [Committed] == [Prepared, Committing, Committed];
    assert [Prepared, Committing, CommitUncertain] + [Committed] == [Prepared, Committing, CommitUncertain, Committed];
  }

  lemma {:induction false} FollowingIsLegal(kinds: seq<Label>, kind: Label)
    requires MayFollow(kinds, kind)
    ensures Replay(kinds + [kind]).At?
  {
    ReplaySnoc(kinds, kind);
    PathStandings();
  }

  /** Every path the coordinator journals is legal, so `_append` and `state_after` never raise. */
  lemma {:induction false} JournaledIsLegal(cfg: Config, id: string, recs: seq<Record>)
    requires IntentOk(cfg, id, recs)
    ensures Replay(Kinds(recs)).At?
  {
    if recs != [] {
      var before, r := recs[..|recs| - 1], recs[|recs| - 1];
      assert recs == before + [r];
      KindsSnoc(before, r);
      FollowingIsLegal(Kinds(before), r.kind);
    }
  }

  lemma {:induction false} NothingFollows(kinds: seq<Label>, kind: Label)
    requires kinds != [] && IsTerminal(kinds[|kinds| - 1])
    ensures !MayFollow(kinds, kind)
  {
  }

  lemma {:induction false} FinalizedLast(kinds: seq<Label>)
    requires MayFollow(kinds, Finalized)
    ensures Verifier.LegalFinalPath(kinds + [Finalized])
  {
  }

  /** A finalized path is one of the two paths the verifier accepts, and ends there. */
  lemma {:induction false} FinalizedPath(cfg: Config, id: string, recs: seq<Record>, i: nat)
    requires IntentOk(cfg, id, recs) && i < |recs| && recs[i].kind.Finalized?
    ensures i == |recs| - 1 && Verifier.LegalFinalPath(Kinds(recs))
    decreases |recs|
  {
    var before, r := recs[..|recs| - 1], recs[|recs| - 1];
    if i < |before| {
      FinalizedPath(cfg, id, before, i);
      NothingFollows(Kinds(before), r.kind);
    } else {
      FinalizedLast(Kinds(before));
      KindsSnoc(before, r);
      assert recs == before + [r];
    }
  }
}
