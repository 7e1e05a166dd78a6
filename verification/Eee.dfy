/**
 EEE envelopes (vdb_c1/eee.py): one per terminal journal record. The model keeps the
 status, the budget, the times, the authority window and the output commitment.
 */
module Eee {
  import opened Options
  import opened States
  import opened Canon
  import opened Journals
  import opened Stores
  import opened Protocol
  import opened Paths
  import opened Agreement
  import opened Finality

  datatype Status = Completed | Denied | Error

  /** The post root of a completed attempt; any other outcome commits to its reason. */
  datatype Output = PostRoot(root: Hash) | OutcomeDigest(intentId: string, outcome: Label, reason: Option<Reason>)

  /** `attempt` tells apart the refusals of one intent id; it is absent for the one final outcome. */
  datatype EeeEnvelope = EeeEnvelope(intentId: string, attempt: Option<int>, status: Status, granted: nat,
                                     consumed: nat, startedAt: Stamp, endedAt: Stamp, notBefore: Stamp,
                                     notAfter: Stamp, output: Output)

  predicate IsTerminalRecord(r: Record) {
    r.kind in {Finalized, AdmissionRejected, PreconditionRejected, Aborted}
  }

  /** The binding records of an intent up to a sequence number. */
  function BindingUpTo(j: seq<Record>, id: string, seqno: int): seq<Record> {
    if j == [] then []
    else
      var r := j[|j| - 1];
      BindingUpTo(j[..|j| - 1], id, seqno) + (if Binds(r, id) && r.seqno <= seqno then [r] else [])
  }

  function ReasonOf(b: Body): Option<Reason> {
    if b.Rejection? || b.PreconditionRejection? || b.ReasonBody? then Some(b.reason) else None
  }

  /** envelope_for, or None where building it raises. */
  function EnvelopeFor(j: seq<Record>, t: Record): Option<EeeEnvelope> {
    var binding := BindingUpTo(j, t.intentId, t.seqno);
    var prepared := if binding != [] && binding[0].kind.Prepared? then Some(binding[0]) else None;
    var intent := if prepared.Some? then
                    if prepared.value.body.PreparedBody? then Some(prepared.value.body.signedIntent.payload) else None
                  else if t.kind.PreconditionRejected? then
                    if t.body.PreconditionRejection? then Some(t.body.signedIntent.payload) else None
                  else None;
    var final := t.kind in {Finalized, Aborted};
    var committed := FindCommitted(binding);
    if (prepared.Some? || t.kind.PreconditionRejected?) && !(intent.Some? && intent.value.Intent?) then None
    else if final && prepared.None? then None
    else if t.kind.Finalized? && !(committed.Some? && committed.value.body.CommittedBody?) then None
    else
      Some(EeeEnvelope(t.intentId, if final then None else Some(t.seqno),
                    if t.kind.Finalized? then Completed else if t.kind.Aborted? then Error else Denied,
                    1, if t.kind.Finalized? then 1 else 0,
                    if final then prepared.value.at else t.at, t.at,
                    if intent.Some? then intent.value.issuedAt else t.at,
                    if intent.Some? then intent.value.expiresAt else t.at,
                    if t.kind.Finalized? then PostRoot(committed.value.body.postRoot)
                    else OutcomeDigest(t.intentId, t.kind, ReasonOf(t.body))))
  }

  /** envelopes_from_journal: one envelope per terminal record, or None where building one raises. */
  function EnvelopesOf(j: seq<Record>, n: nat): Option<seq<EeeEnvelope>>
    requires n <= |j|
  {
    if n == 0 then Some([])
    else
      var before := EnvelopesOf(j, n - 1);
      if before.None? || !IsTerminalRecord(j[n - 1]) then before
      else
        match EnvelopeFor(j, j[n - 1])
        case None => None
        case Some(e) => Some(before.value + [e])
  }

  // ---------------------------------------------------------------- envelopes always exist

  lemma {:induction false} UpToIsPrefix(j: seq<Record>, id: string, n: nat)
    requires Chain(j) && n < |j|
    ensures BindingUpTo(j, id, n) == Binding(j[..n + 1], id)
    decreases |j|
  {
    var before := j[..|j| - 1];
    assert Linked(j[|j| - 1], |j| - 1, HeadHash(before));
    if n == |j| - 1 {
      UpToIsAll(before, id, n);
      assert j[..n + 1] == j;
    } else {
      ChainPrefix(j, |j| - 1);
      UpToIsPrefix(before, id, n);
      assert before[..n + 1] == j[..n + 1];
    }
  }

  lemma {:induction false} UpToIsAll(j: seq<Record>, id: string, n: nat)
    requires n >= |j| && forall i | 0 <= i < |j| :: j[i].seqno <= n
    ensures BindingUpTo(j, id, n) == Binding(j, id)
  {
    if j != [] {
      UpToIsAll(j[..|j| - 1], id, n);
    }
  }

  lemma {:induction false} FindInPrefix(recs: seq<Record>, r: Record)
    requires FindCommitted(recs).Some?
    ensures FindCommitted(recs + [r]) == FindCommitted(recs)
  {
    if !recs[0].kind.Committed? {
      FindInPrefix(recs[1..], r);
      assert (recs + [r])[1..] == recs[1..] + [r];
    }
  }

  /** A finalized intent's certificate carries the post root of its COMMITTED record. */
  lemma {:induction false} FinalizedHasCommitted(cfg: Config, id: string, recs: seq<Record>)
    requires IntentOk(cfg, id, recs) && recs != [] && recs[|recs| - 1].kind.Finalized?
    ensures var c := FindCommitted(recs);
            && c.Some? && c.value.body.CommittedBody?
            && recs[|recs| - 1].body.FinalizedBody?
            && c.value.body.postRoot == recs[|recs| - 1].body.certificate.payload.postRoot
  {
    var before, r := recs[..|recs| - 1], recs[|recs| - 1];
    assert recs == before + [r];
    assert Follows(cfg, id, before, r);
    FindLast(before);
    FindInPrefix(before, r);
  }

  /** The binding records up to a record start with a PREPARED one and end with the record, if it binds. */
  lemma {:induction false} PathUpTo(cfg: Config, j: seq<Record>, n: nat)
    requires JournalOk(cfg, j) && n < |j|
    ensures var id, recs := j[n].intentId, Binding(j[..n + 1], j[n].intentId);
            && BindingUpTo(j, id, j[n].seqno) == recs && IntentOk(cfg, id, recs)
            && (recs != [] ==> recs[0].kind.Prepared? && PreparedOk(cfg, id, recs[0]))
            && (IsBinding(j[n].kind) ==> recs != [] && recs[|recs| - 1] == j[n])
            && (j[n].kind.PreconditionRejected? ==>
                  j[n].body.PreconditionRejection? && j[n].body.signedIntent.payload.Intent?)
  {
    var id, recs := j[n].intentId, Binding(j[..n + 1], j[n].intentId);
    JournalIsChain(cfg, j);
    assert Linked(j[n], n, HeadHash(j[..n]));
    UpToIsPrefix(j, id, n);
    JournalPrefix(cfg, j, n + 1);
    assert j[..n + 1][..n] == j[..n];
    IntentsOk(cfg, j[..n + 1], id);
    if recs != [] {
      FirstIsPrepared(cfg, id, recs);
    }
  }

  /** The intent was prepared, or admitted and refused on its precondition, or nothing was admitted. */
  ghost predicate HasWindow(recs: seq<Record>, t: Record, e: EeeEnvelope) {
    if recs != [] then
      && recs[0].body.PreparedBody? && IsWindowOf(recs[0].body.signedIntent.payload, e)
      && e.startedAt == if t.kind in {Finalized, Aborted} then recs[0].at else t.at
    else if t.kind.PreconditionRejected? then
      t.body.PreconditionRejection? && IsWindowOf(t.body.signedIntent.payload, e) && e.startedAt == t.at
    else e.notBefore == e.notAfter == e.startedAt == t.at
  }

  ghost predicate IsWindowOf(p: Payload, e: EeeEnvelope) {
    p.Intent? && e.notBefore == p.issuedAt && e.notAfter == p.expiresAt
  }

  /**
   Every terminal record of a reachable journal has its envelope: completed with one write
   exactly for FINALIZED, committing to the certified post root; error for ABORTED; denied
   for a refusal. No other outcome consumes anything. The authority window is that of the
   intent the record is about, or the moment of the decision if no such intent was admitted.
   */
  lemma {:induction false} EnvelopeExists(cfg: Config, j: seq<Record>, n: nat)
    requires JournalOk(cfg, j) && n < |j| && IsTerminalRecord(j[n])
    ensures EnvelopeFor(j, j[n]).Some?
    ensures var e := EnvelopeFor(j, j[n]).value;
            && e.consumed == (if j[n].kind.Finalized? then 1 else 0)
            && e.status == (if j[n].kind.Finalized? then Completed else if j[n].kind.Aborted? then Error else Denied)
            && (j[n].kind.Finalized? ==>
                  j[n].body.FinalizedBody? && e.output == PostRoot(j[n].body.certificate.payload.postRoot))
            && e.endedAt == j[n].at && (e.attempt.None? <==> j[n].kind in {Finalized, Aborted})
            && HasWindow(Binding(j[..n + 1], j[n].intentId), j[n], e)
  {
    var id, recs := j[n].intentId, Binding(j[..n + 1], j[n].intentId);
    PathUpTo(cfg, j, n);
    if j[n].kind.Finalized? {
      FinalizedHasCommitted(cfg, id, recs);
    }
  }

  // ---------------------------------------------------------------- conservation

  ghost function Consumed(es: seq<EeeEnvelope>): nat {
    if es == [] then 0 else Consumed(es[..|es| - 1]) + es[|es| - 1].consumed
  }

  ghost function CountFinalized(j: seq<Record>): nat {
    if j == [] then 0 else CountFinalized(j[..|j| - 1]) + (if j[|j| - 1].kind.Finalized? then 1 else 0)
  }

  lemma {:induction false} ConsumedIsFinalized(cfg: Config, j: seq<Record>, n: nat)
    requires JournalOk(cfg, j) && n <= |j|
    ensures EnvelopesOf(j, n).Some? && Consumed(EnvelopesOf(j, n).value) == CountFinalized(j[..n])
  {
    if n > 0 {
      ConsumedIsFinalized(cfg, j, n - 1);
      assert j[..n][..n - 1] == j[..n - 1];
      if IsTerminalRecord(j[n - 1]) {
        EnvelopeExists(cfg, j, n - 1);
        var es := EnvelopesOf(j, n - 1).value;
        var e := EnvelopeFor(j, j[n - 1]).value;
        assert (es + [e])[..|es|] == es;
      }
    }
  }

  ghost function FinalizedIds(j: seq<Record>): set<string> {
    set r | r in j && r.kind.Finalized? :: r.intentId
  }

  ghost function AppliedIds(applied: seq<Row>): set<string> {
    set r | r in applied :: r.intentId
  }

  /** No intent is finalized twice. */
  lemma {:induction false} FinalizedOnce(cfg: Config, j: seq<Record>)
    requires JournalOk(cfg, j)
    ensures |FinalizedIds(j)| == CountFinalized(j)
  {
    if j != [] {
      var before, r := j[..|j| - 1], j[|j| - 1];
      assert j == before + [r];
      FinalizedIdsSnoc(before, r);
      FinalizedOnce(cfg, before);
      if r.kind.Finalized? {
        NotFinalizedBefore(cfg, before, r);
      }
    }
  }

  lemma {:induction false} FinalizedIdsSnoc(j: seq<Record>, r: Record)
    ensures FinalizedIds(j + [r]) == FinalizedIds(j) + if r.kind.Finalized? then {r.intentId} else {}
  {
  }

  lemma {:induction false} NotFinalizedBefore(cfg: Config, before: seq<Record>, r: Record)
    requires AtCommitted(Kinds(Binding(before, r.intentId)))
    ensures r.intentId !in FinalizedIds(before)
  {
    var id := r.intentId;
    var recs := Binding(before, id);
    BindingMembers(before, id);
    forall i | 0 <= i < |recs|
      ensures !recs[i].kind.Finalized?
    {
      assert recs[i].kind == Kinds(recs)[i];
    }
  }

  lemma {:induction false} AppliedIdsSize(applied: seq<Row>)
    requires forall i, k | 0 <= i < k < |applied| :: applied[i].intentId != applied[k].intentId
    ensures |AppliedIds(applied)| == |applied|
  {
    if applied != [] {
      var before, row := applied[..|applied| - 1], applied[|applied| - 1];
      AppliedIdsSize(before);
      assert applied == before + [row];
      assert AppliedIds(applied) == AppliedIds(before) + {row.intentId};
      assert row.intentId !in AppliedIds(before);
    }
  }

  lemma {:induction false} FinalizedRecordIsLast(cfg: Config, j: seq<Record>, r: Record)
    requires JournalOk(cfg, j) && r in j && r.kind.Finalized?
    ensures Binding(j, r.intentId) != [] && LastKind(j, r.intentId).Finalized?
  {
    BindingMembers(j, r.intentId);
    var recs := Binding(j, r.intentId);
    var i :| 0 <= i < |recs| && recs[i] == r;
    IntentsOk(cfg, j, r.intentId);
    FinalizedPath(cfg, r.intentId, recs, i);
  }

  lemma {:induction false} QuietAppliedIsFinalized(cfg: Config, j: seq<Record>, row: Row)
    requires Quiet(j) && RowOk(j, row)
    ensures row.intentId in FinalizedIds(j)
  {
    var id := row.intentId;
    var recs := Binding(j, id);
    LastIsBinding(j, id);
    LastOfKinds(recs);
    assert !IsOpen(j, id);
    BindingMembers(j, id);
    assert recs[|recs| - 1] in j;
  }

  lemma {:induction false} FinalizedAreApplied(cfg: Config, j: seq<Record>, st: Store)
    requires JournalOk(cfg, j) && StoreOk(cfg, j, st) && Quiet(j)
    ensures FinalizedIds(j) == AppliedIds(st.applied)
  {
    forall id | id in FinalizedIds(j)
      ensures id in AppliedIds(st.applied)
    {
      var r :| r in j && r.kind.Finalized? && r.intentId == id;
      FinalizedRecordIsLast(cfg, j, r);
      AgreeingIsEffective(cfg, j, st, id);
    }
    forall id | id in AppliedIds(st.applied)
      ensures id in FinalizedIds(j)
    {
      var i :| 0 <= i < |st.applied| && st.applied[i].intentId == id;
      assert RowOk(j, st.applied[i]);
      QuietAppliedIsFinalized(cfg, j, st.applied[i]);
    }
  }

  /**
   Conservation: whenever recovery has finished, FINALIZED records, applied rows, the
   generation and the writes consumed over all envelopes are the same number.
   */
  lemma {:induction false} WritesConserved(cfg: Config, ss: seq<State>, es: seq<Event>, n: nat)
    requires Configured(cfg) && HonestTrace(cfg, ss, es) && n < |ss| && Ready(ss[n])
    ensures var j, st := ss[n].journal, ss[n].store;
            && CountFinalized(j) == |st.applied| == st.generation
            && EnvelopesOf(j, |j|).Some?
            && Consumed(EnvelopesOf(j, |j|).value) == st.generation
  {
    RunAgrees(cfg, ss, es, n);
    RecoveryDecides(cfg, ss, es, n);
    QuietConserves(cfg, ss[n].journal, ss[n].store);
  }

  lemma {:induction false} QuietConserves(cfg: Config, j: seq<Record>, st: Store)
    requires JournalOk(cfg, j) && StoreOk(cfg, j, st) && Quiet(j)
    ensures CountFinalized(j) == |st.applied| == st.generation
    ensures EnvelopesOf(j, |j|).Some? && Consumed(EnvelopesOf(j, |j|).value) == st.generation
  {
    FinalizedOnce(cfg, j);
    AppliedIdsSize(st.applied);
    FinalizedAreApplied(cfg, j, st);
    ConsumedIsFinalized(cfg, j, |j|);
    assert j[..|j|] == j;
  }
}
