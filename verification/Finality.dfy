/**
 The promises of the finality protocol, over every run with the process dying between any
 two durable actions: exactly one durable effect per finalized intent, none for an aborted
 one, answers that never change, and a recovery that leaves nothing undecided.
 */
module Finality {
  import opened Options
  import opened States
  import opened Canon
  import opened Journals
  import opened Stores
  import opened Protocol
  import opened Paths
  import opened Agreement
  import Verifier

  // ---------------------------------------------------------------- runs extend

  /** A step appends at most one record. */
  lemma {:induction false} StepExtends(cfg: Config, s: State, e: Event)
    requires Next(cfg, s, e).Some?
    ensures s.journal <= Next(cfg, s, e).value.journal
  {
  }

  /** History is only appended to. */
  lemma {:induction false} RunExtends(cfg: Config, ss: seq<State>, es: seq<Event>, i: nat, k: nat)
    requires Trace(cfg, ss, es) && i <= k < |ss|
    ensures ss[i].journal <= ss[k].journal
  {
    if i < k {
      RunExtends(cfg, ss, es, i, k - 1);
      StepExtends(cfg, ss[k - 1], es[k - 1]);
    }
  }

  lemma {:induction false} BindingExtends(j: seq<Record>, j': seq<Record>, id: string)
    requires j <= j'
    ensures Binding(j, id) <= Binding(j', id)
  {
    assert j' == j + j'[|j|..];
    BindingConcat(j, j'[|j|..], id);
  }

  // ---------------------------------------------------------------- terminal intents never change

  /** Nothing may follow FINALIZED or ABORTED. */
  lemma {:induction false} TerminalStays(cfg: Config, id: string, recs: seq<Record>, recs': seq<Record>)
    requires IntentOk(cfg, id, recs') && recs <= recs' && recs != [] && IsTerminal(recs[|recs| - 1].kind)
    ensures recs' == recs
    decreases |recs'|
  {
    if |recs'| > |recs| {
      var before, r := recs'[..|recs'| - 1], recs'[|recs'| - 1];
      TerminalStays(cfg, id, recs, before);
      NothingFollows(Kinds(before), r.kind);
    }
  }

  lemma {:induction false} TerminalInJournal(cfg: Config, j: seq<Record>, j': seq<Record>, id: string)
    requires JournalOk(cfg, j') && j <= j' && Binding(j, id) != [] && IsTerminal(LastKind(j, id))
    ensures Binding(j', id) == Binding(j, id)
  {
    BindingExtends(j, j', id);
    IntentsOk(cfg, j', id);
    TerminalStays(cfg, id, Binding(j, id), Binding(j', id));
  }

  /** Once an intent is terminal, its records are the same in every later state, whatever the store does. */
  lemma {:induction false} TerminalForever(cfg: Config, ss: seq<State>, es: seq<Event>, i: nat, k: nat, id: string)
    requires Configured(cfg) && Trace(cfg, ss, es) && i <= k < |ss|
    requires Binding(ss[i].journal, id) != [] && IsTerminal(LastKind(ss[i].journal, id))
    ensures Binding(ss[k].journal, id) == Binding(ss[i].journal, id)
  {
    RunExtends(cfg, ss, es, i, k);
    RunKeepsInv(cfg, ss, es, k);
    TerminalInJournal(cfg, ss[i].journal, ss[k].journal, id);
  }

  // ---------------------------------------------------------------- the result of a submission

  datatype Result = Result(intentId: string, state: Label, certificate: Option<Signed<Certificate>>,
                           reason: Option<Reason>, replayed: bool)

  /** _result: the state the records lead to, with the certificate or the reason of the last one. */
  function ResultOf(j: seq<Record>, id: string, replayed: bool): Option<Result> {
    var recs := Binding(j, id);
    var state := StateAfter(Kinds(recs));
    if recs == [] || state.None? then None
    else
      var last := recs[|recs| - 1].body;
      if state.value.Finalized? then
        if last.FinalizedBody? then Some(Result(id, Finalized, Some(last.certificate), None, replayed)) else None
      else Some(Result(id, state.value, None, if last.ReasonBody? then Some(last.reason) else None, replayed))
  }

  /** Its intent's records make a finalized intent's result the certificate derived from them. */
  lemma {:induction false} FinalizedResult(cfg: Config, j: seq<Record>, id: string, replayed: bool)
    requires JournalOk(cfg, j) && Binding(j, id) != [] && LastKind(j, id).Finalized?
    ensures var recs := Binding(j, id);
            && |recs| >= 2 && CanCertify(recs[0], recs[|recs| - 2])
            && ResultOf(j, id, replayed) ==
               Some(Result(id, Finalized, Some(MakeCertificate(cfg, recs[0], recs[|recs| - 2])), None, replayed))
  {
    var recs := Binding(j, id);
    IntentsOk(cfg, j, id);
    FinalizedPath(cfg, id, recs, |recs| - 1);
    FinalStanding();
    assert Follows(cfg, id, recs[..|recs| - 1], recs[|recs| - 1]);
  }

  lemma {:induction false} FinalStanding()
    ensures forall kinds | Verifier.LegalFinalPath(kinds) :: StateAfter(kinds) == Some(Finalized)
  {
    PathStandings();
    ReplaySnoc([Prepared, Committing, Committed], Finalized);
    ReplaySnoc([Prepared, Committing, CommitUncertain, Committed], Finalized);
    assert [Prepared, Committing, Committed] + [Finalized] == [Prepared, Committing, Committed, Finalized];
    assert [Prepared, Committing, CommitUncertain, Committed] + [Finalized]
        == [Prepared, Committing, CommitUncertain, Committed, Finalized];
  }

  /** A submission for a bound id with the bound payload and a good signature is answered from the journal. */
  lemma {:induction false} BoundIsReplayed(cfg: Config, j: seq<Record>, sub: Submission, namespace: string, now: real)
    requires JournalOk(cfg, j) && Binding(j, IdOf(sub)) != [] && SignatureOk(sub, cfg.authority)
    requires Binding(j, IdOf(sub))[0].body.hash == IntentHash(PayloadOf(sub))
    ensures Decide(cfg, j, sub, namespace, now).Replayed?
  {
    IntentsOk(cfg, j, IdOf(sub));
    FirstIsPrepared(cfg, IdOf(sub), Binding(j, IdOf(sub)));
  }

  /**
   Finality is stable: in every later state a resubmission of the same signed intent is
   answered from the journal with the same certificate, and no step for it is enabled, so
   neither journal nor store changes.
   */
  lemma {:induction false} ResubmissionReturnsCertificate(
      cfg: Config, ss: seq<State>, es: seq<Event>, i: nat, k: nat, sub: Submission, namespace: string, now: real)
    requires Configured(cfg) && Trace(cfg, ss, es) && i <= k < |ss| && SignatureOk(sub, cfg.authority)
    requires Binding(ss[i].journal, IdOf(sub)) != [] && LastKind(ss[i].journal, IdOf(sub)).Finalized?
    requires Binding(ss[i].journal, IdOf(sub))[0].body.hash == IntentHash(PayloadOf(sub))
    ensures Decide(cfg, ss[k].journal, sub, namespace, now).Replayed?
    ensures ResultOf(ss[k].journal, IdOf(sub), true).Some?
    ensures ResultOf(ss[k].journal, IdOf(sub), true) == ResultOf(ss[i].journal, IdOf(sub), true)
    ensures ResultOf(ss[k].journal, IdOf(sub), true).value.certificate.Some?
    ensures forall e | Submits(e, sub) :: Next(cfg, ss[k], e).None?
  {
    TerminalForever(cfg, ss, es, i, k, IdOf(sub));
    RunKeepsInv(cfg, ss, es, k);
    BoundIsReplayed(cfg, ss[k].journal, sub, namespace, now);
    FinalizedResult(cfg, ss[k].journal, IdOf(sub), true);
    forall e | Submits(e, sub)
      ensures Next(cfg, ss[k], e).None?
    {
      NotSubmitted(cfg, ss[k], sub, e);
    }
  }

  /** A step that handles a submission. */
  predicate Submits(e: Event, sub: Submission) {
    (e.Reject? || e.RejectPrecondition? || e.Prepare?) && e.sub == sub
  }

  lemma {:induction false} NotSubmitted(cfg: Config, s: State, sub: Submission, e: Event)
    requires JournalOk(cfg, s.journal) && Binding(s.journal, IdOf(sub)) != [] && SignatureOk(sub, cfg.authority)
    requires Binding(s.journal, IdOf(sub))[0].body.hash == IntentHash(PayloadOf(sub)) && Submits(e, sub)
    ensures Next(cfg, s, e).None?
  {
    BoundIsReplayed(cfg, s.journal, sub, e.namespace, e.now);
  }

  /** An id bound to one intent refuses every other payload for good. */
  lemma {:induction false} ConflictRefused(cfg: Config, ss: seq<State>, es: seq<Event>, i: nat, k: nat, sub: Submission,
                                           namespace: string, now: real)
    requires Configured(cfg) && Trace(cfg, ss, es) && i <= k < |ss|
    requires Binding(ss[i].journal, IdOf(sub)) != []
    requires Binding(ss[i].journal, IdOf(sub))[0].body.hash != IntentHash(PayloadOf(sub))
    ensures Decide(cfg, ss[k].journal, sub, namespace, now) == Refused(E_INTENT_CONFLICT)
  {
    var id, j := IdOf(sub), ss[i].journal;
    RunExtends(cfg, ss, es, i, k);
    BindingExtends(j, ss[k].journal, id);
    RunKeepsInv(cfg, ss, es, i);
    IntentsOk(cfg, j, id);
    FirstIsPrepared(cfg, id, Binding(j, id));
  }

  // ---------------------------------------------------------------- exactly once

  /** The applied rows of a store whose intents, hashes and signed UPSERTs are those of the journal. */
  ghost predicate ExactlyOnce(j: seq<Record>, st: Store) {
    && st.generation == |st.applied|
    && (forall i | 0 <= i < |st.applied| :: st.applied[i].generation == i + 1)
    && (forall i, k | 0 <= i < k < |st.applied| :: st.applied[i].intentId != st.applied[k].intentId)
    && (forall i | 0 <= i < |st.applied| ::
          && Prepares(j, st.applied[i].intentId)
          && Some(st.applied[i].intentHash) == PreparedBodyOf(j, st.applied[i].intentId).hash)
    && View(st.kv) == Fold(j, st.applied)
  }

  /** The store is the fold of the applied intents' signed UPSERTs, each applied once, in generation order. */
  lemma {:induction false} AppliedExactlyOnce(cfg: Config, ss: seq<State>, es: seq<Event>, n: nat)
    requires Configured(cfg) && HonestTrace(cfg, ss, es) && n < |ss|
    ensures ExactlyOnce(ss[n].journal, ss[n].store)
  {
    RunAgrees(cfg, ss, es, n);
    assert forall i | 0 <= i < |ss[n].store.applied| :: RowOk(ss[n].journal, ss[n].store.applied[i]);
  }

  lemma {:induction false} FinalizedIsConfirmed(cfg: Config, j: seq<Record>, id: string)
    requires JournalOk(cfg, j) && Binding(j, id) != [] && LastKind(j, id).Finalized?
    ensures IsConfirmed(j, id)
  {
    var recs := Binding(j, id);
    IntentsOk(cfg, j, id);
    FinalizedPath(cfg, id, recs, |recs| - 1);
    assert Kinds(recs)[|recs| - 2] == Committed;
  }

  lemma {:induction false} AppliedRowOk(j: seq<Record>, applied: seq<Row>, id: string)
    requires RowsOk(j, applied) && AppliedRow(applied, id).Some?
    ensures RowOk(j, AppliedRow(applied, id).value)
  {
    var row := AppliedRow(applied, id).value;
    var i :| 0 <= i < |applied| && applied[i] == row;
    assert RowOk(j, applied[i]);
  }

  /** FINALIZED means durably applied under the same hash; ABORTED means not applied. */
  ghost predicate Effective(j: seq<Record>, st: Store, id: string) {
    Binding(j, id) != [] ==>
      var row := AppliedRow(st.applied, id);
      && (LastKind(j, id).Finalized? ==> row.Some? && Some(row.value.intentHash) == PreparedBodyOf(j, id).hash)
      && (LastKind(j, id).Aborted? ==> row.None?)
  }

  lemma {:induction false} AgreeingIsEffective(cfg: Config, j: seq<Record>, st: Store, id: string)
    requires JournalOk(cfg, j) && StoreOk(cfg, j, st)
    ensures Effective(j, st, id)
  {
    if Binding(j, id) != [] {
      if LastKind(j, id).Finalized? {
        FinalizedIsConfirmed(cfg, j, id);
      }
      if AppliedRow(st.applied, id).Some? {
        AppliedRowOk(j, st.applied, id);
        AppliedIsNotAborted(j, id);
      }
    }
  }

  lemma {:induction false} AppliedIsNotAborted(j: seq<Record>, id: string)
    requires Binding(j, id) != [] && MayBeApplied(Kinds(Binding(j, id)))
    ensures !LastKind(j, id).Aborted?
  {
    LastOfKinds(Binding(j, id));
  }

  lemma {:induction false} FinalizedIsApplied(cfg: Config, ss: seq<State>, es: seq<Event>, n: nat, id: string)
    requires Configured(cfg) && HonestTrace(cfg, ss, es) && n < |ss|
    ensures Effective(ss[n].journal, ss[n].store, id)
  {
    RunAgrees(cfg, ss, es, n);
    AgreeingIsEffective(cfg, ss[n].journal, ss[n].store, id);
  }

  /** An aborted intent is not applied, and never will be. */
  lemma {:induction false} AbortedNeverApplied(cfg: Config, ss: seq<State>, es: seq<Event>, i: nat, k: nat, id: string)
    requires Configured(cfg) && HonestTrace(cfg, ss, es) && i <= k < |ss|
    requires Binding(ss[i].journal, id) != [] && LastKind(ss[i].journal, id).Aborted?
    ensures AppliedRow(ss[k].store.applied, id).None?
  {
    HonestIsTrace(cfg, ss, es);
    TerminalForever(cfg, ss, es, i, k, id);
    FinalizedIsApplied(cfg, ss, es, k, id);
  }

  /**
   Nothing goes wrong without an outside writer: recovery never finds an applied row for
   an intent that is only prepared (RecoveryError), the transaction never fails or hits a
   constraint, and the fresh read always confirms.
   */
  lemma {:induction false} HonestStepsSucceed(cfg: Config, ss: seq<State>, es: seq<Event>, n: nat)
    requires Configured(cfg) && HonestTrace(cfg, ss, es) && n < |es|
    ensures var s, e := ss[n], es[n];
            && HonestNext(cfg, s, e).Some?
            && (e.Inspect? && LastKind(s.journal, s.phase.todo[0]).Prepared? ==> e.row.None?)
            && (e.Execute? ==> e.txn.Mutated?)
            && (e.Confirm? ==> Problems(PreparedBodyOf(s.journal, s.phase.id), e.row, e.post) == [])
  {
    RunAgrees(cfg, ss, es, n);
    StepSucceeds(cfg, ss[n], es[n]);
  }

  lemma {:induction false} StepSucceeds(cfg: Config, s: State, e: Event)
    requires Inv(cfg, s) && Agrees(cfg, s) && HonestNext(cfg, s, e).Some?
    ensures e.Inspect? && LastKind(s.journal, s.phase.todo[0]).Prepared? ==> e.row.None?
    ensures e.Execute? ==> e.txn.Mutated?
    ensures e.Confirm? ==> Problems(PreparedBodyOf(s.journal, s.phase.id), e.row, e.post) == []
  {
    match e
    case Inspect(row, at) => InspectAgrees(cfg, s, row, at);
    case Execute(txn, at) => ExecuteAgrees(cfg, s, txn, at);
    case Confirm(row, post, at) => ConfirmAgrees(cfg, s, row, post, at);
    case _ =>
  }

  // ---------------------------------------------------------------- quiescence

  ghost predicate Quiet(j: seq<Record>) {
    forall id :: !IsOpen(j, id)
  }

  /** At most one intent is ever undecided, and when recovery has finished there is none. */
  lemma {:induction false} RecoveryDecides(cfg: Config, ss: seq<State>, es: seq<Event>, n: nat)
    requires Configured(cfg) && HonestTrace(cfg, ss, es) && n < |ss|
    ensures forall id, other | IsOpen(ss[n].journal, id) && IsOpen(ss[n].journal, other) :: id == other
    ensures Ready(ss[n]) ==> Quiet(ss[n].journal)
  {
    RunAgrees(cfg, ss, es, n);
  }

  /** With nothing undecided, recovery changes neither journal nor store. */
  lemma {:induction false} QuietStep(cfg: Config, s: State, e: Event)
    requires Quiet(s.journal) && (s.phase.Idle? || s.phase.Recovering?) && Next(cfg, s, e).Some? && !IsSubmitEvent(e)
    requires !e.Outside?
    ensures var s' := Next(cfg, s, e).value;
            s'.journal == s.journal && s'.store == s.store && (s'.phase.Idle? || s'.phase.Recovering?)
  {
    if e.Inspect? {
      LastIsBinding(s.journal, s.phase.todo[0]);
      assert !IsOpen(s.journal, s.phase.todo[0]);
    }
  }

  /** A second recovery does nothing, crashes and all. */
  lemma {:induction false} SecondRecoveryIsIdle(cfg: Config, ss: seq<State>, es: seq<Event>, i: nat, k: nat)
    requires Configured(cfg) && HonestTrace(cfg, ss, es) && i <= k < |ss| && Ready(ss[i])
    requires forall n {:trigger es[n]} | i <= n < k :: !IsSubmitEvent(es[n])
    ensures ss[k].journal == ss[i].journal && ss[k].store == ss[i].store
    ensures ss[k].phase.Idle? || ss[k].phase.Recovering?
  {
    if i < k {
      SecondRecoveryIsIdle(cfg, ss, es, i, k - 1);
      RecoveryDecides(cfg, ss, es, i);
      HonestIsTrace(cfg, ss, es);
      QuietStep(cfg, ss[k - 1], es[k - 1]);
    }
  }
}
