/**
 The coordinator of vdb_c1/coordinator.py as an object that drives the journal file and the
 state adapter. Every method is a sequence of protocol steps, so everything proved about
 runs holds of it; and while it lives and nobody else writes to the store, it completes.
 */
module Coordinators {
  import opened Options
  import opened States
  import opened Canon
  import opened Journals
  import opened JournalFile
  import opened Stores
  import opened Protocol
  import opened Paths
  import opened Agreement
  import opened Finality

  // ---------------------------------------------------------------- the steps it takes

  lemma {:induction false} NextAcquire(cfg: Config, s: State)
    requires s.phase.Idle?
    ensures HonestNext(cfg, s, Acquire) == Some(s.(phase := Recovering(PreparedIds(s.journal))))
  {
  }

  lemma {:induction false} NextRelease(cfg: Config, s: State)
    ensures HonestNext(cfg, s, Release) == Some(s.(phase := Idle))
  {
  }

  lemma {:induction false} NextInspect(cfg: Config, s: State, at: Stamp)
    requires s.phase.Recovering? && s.phase.todo != [] && Binding(s.journal, s.phase.todo[0]) != []
    ensures var row := AppliedRow(s.store.applied, s.phase.todo[0]);
            HonestNext(cfg, s, Inspect(row, at)) == Some(InspectStep(s, row, at))
  {
  }

  lemma {:induction false} NextAbort(cfg: Config, s: State, at: Stamp)
    requires s.phase.Aborting? && Binding(s.journal, s.phase.id) != []
    ensures HonestNext(cfg, s, AbortUncertain(at)) ==
            Some(Put(s, Aborted, s.phase.id,
                     ReasonBody(PreparedBodyOf(s.journal, s.phase.id).hash, E_STORAGE_COMMIT_NOT_DURABLE), at,
                     Recovering(s.phase.todo)))
  {
  }

  lemma {:induction false} NextConfirm(cfg: Config, s: State, at: Stamp)
    requires s.phase.Confirming? && Prepares(s.journal, s.phase.id) && s.store.namespace == cfg.namespace
    ensures var row, post := AppliedRow(s.store.applied, s.phase.id), Snap(s.store);
            HonestNext(cfg, s, Confirm(row, post, at)) == Some(ConfirmStep(s, row, post, at))
  {
    SnapIsGood(cfg, s.store);
  }

  lemma {:induction false} NextFinalize(cfg: Config, s: State, at: Stamp)
    requires Inv(cfg, s) && s.phase.Finishing?
    ensures var recs := Binding(s.journal, s.phase.id);
            && recs != [] && CanCertify(recs[0], recs[|recs| - 1]) && FindCommitted(recs) == Some(recs[|recs| - 1])
            && HonestNext(cfg, s, Finalize(at)) ==
               Some(Put(s, Finalized, s.phase.id,
                        FinalizedBody(recs[0].body.hash, MakeCertificate(cfg, recs[0], recs[|recs| - 1])), at,
                        Recovering(s.phase.todo)))
  {
    var recs := Binding(s.journal, s.phase.id);
    FindLast(recs);
    CommittedCertifies(cfg, s.journal, s.phase.id);
  }

  /** A COMMITTED record always has what the certificate needs. */
  lemma {:induction false} CommittedCertifies(cfg: Config, j: seq<Record>, id: string)
    requires JournalOk(cfg, j) && AtCommitted(Kinds(Binding(j, id)))
    ensures var recs := Binding(j, id); CanCertify(recs[0], recs[|recs| - 1])
  {
    var recs := Binding(j, id);
    IntentsOk(cfg, j, id);
    LastOfKinds(recs);
    assert Follows(cfg, id, recs[..|recs| - 1], recs[|recs| - 1]);
  }

  lemma {:induction false} NextReject(cfg: Config, s: State, sub: Submission, now: real, at: Stamp)
    requires Ready(s) && s.store.namespace == cfg.namespace && Decide(cfg, s.journal, sub, cfg.namespace, now).Refused?
    ensures HonestNext(cfg, s, Reject(sub, cfg.namespace, now, at)) ==
            Some(Put(s, AdmissionRejected, IdOf(sub),
                     Rejection(IntentHash(PayloadOf(sub)), Decide(cfg, s.journal, sub, cfg.namespace, now).reason), at,
                     s.phase))
  {
  }

  lemma {:induction false} AcceptIsIntent(cfg: Config, j: seq<Record>, sub: Submission, namespace: string, now: real)
    requires Decide(cfg, j, sub, namespace, now).Accept?
    ensures sub.Envelope? && PayloadOf(sub).Intent? && sub.signed.payload == PayloadOf(sub)
  {
  }

  lemma {:induction false} NextRejectPrecondition(cfg: Config, s: State, sub: Submission, now: real, at: Stamp)
    requires Ready(s) && s.store.namespace == cfg.namespace && Decide(cfg, s.journal, sub, cfg.namespace, now).Accept?
    requires PayloadOf(sub).Intent? && Stale(PayloadOf(sub), Snap(s.store)).Some?
    ensures var pre := Snap(s.store);
            HonestNext(cfg, s, RejectPrecondition(sub, cfg.namespace, now, pre, at)) ==
            Some(Put(s, PreconditionRejected, IdOf(sub),
                     PreconditionRejection(IntentHash(PayloadOf(sub)), Stale(PayloadOf(sub), pre).value, sub.signed,
                                           pre.generation, pre.root), at, s.phase))
  {
    SnapIsGood(cfg, s.store);
  }

  lemma {:induction false} NextPrepare(cfg: Config, s: State, sub: Submission, now: real, admittedAt: Stamp, at: Stamp)
    requires Ready(s) && s.store.namespace == cfg.namespace && Decide(cfg, s.journal, sub, cfg.namespace, now).Accept?
    requires sub.signed.payload.Intent? && Stale(PayloadOf(sub), Snap(s.store)).None? && admittedAt.Utc?
    ensures var pre := Snap(s.store);
            HonestNext(cfg, s, Prepare(sub, cfg.namespace, now, pre, admittedAt, at)) ==
            Some(Put(s, Prepared, IdOf(sub), PreparedOf(sub.signed, pre, admittedAt), at, Opened(IdOf(sub))))
  {
    SnapIsGood(cfg, s.store);
  }

  lemma {:induction false} NextExecute(cfg: Config, s: State, at: Stamp)
    requires s.phase.Opened? && Prepares(s.journal, s.phase.id)
    ensures var txn := TransactionOf(s.journal, s.store, s.phase.id);
            HonestNext(cfg, s, Execute(txn, at)) == Some(ExecuteStep(s, txn, at))
  {
  }

  lemma {:induction false} NextCommit(cfg: Config, s: State)
    requires s.phase.InTransaction?
    ensures HonestNext(cfg, s, Commit) ==
            Some(s.(store := s.phase.tentative, phase := Confirming(s.phase.id, [], false)))
  {
  }

  lemma {:induction false} BoundPrepares(cfg: Config, j: seq<Record>, id: string)
    requires JournalOk(cfg, j) && Binding(j, id) != []
    ensures Prepares(j, id)
  {
    IntentsOk(cfg, j, id);
    FirstIsPrepared(cfg, id, Binding(j, id));
  }

  lemma {:induction false} StepSnoc(cfg: Config, ss: seq<State>, es: seq<Event>, e: Event, s: State)
    requires Trace(cfg, ss, es) && Next(cfg, ss[|ss| - 1], e) == Some(s)
    ensures Trace(cfg, ss + [s], es + [e])
  {
  }

  lemma {:induction false} TraceSnoc(cfg: Config, ss: seq<State>, es: seq<Event>, e: Event, s: State)
    requires Trace(cfg, ss, es) && HonestNext(cfg, ss[|ss| - 1], e) == Some(s)
    ensures Trace(cfg, ss + [s], es + [e])
    ensures HonestTrace(cfg, ss, es) ==> HonestTrace(cfg, ss + [s], es + [e])
  {
    StepSnoc(cfg, ss, es, e, s);
    if HonestTrace(cfg, ss, es) {
      HonestSnoc(cfg, ss, es, e, s);
    }
  }

  /** The state machine allows every record the protocol appends. */
  lemma {:induction false} AppendIsLegal(cfg: Config, s: State, e: Event, kind: Label, id: string, body: Body,
                                         at: Stamp, p: Phase)
    requires Configured(cfg) && Inv(cfg, s) && IsBinding(kind)
    requires HonestNext(cfg, s, e) == Some(Put(s, kind, id, body, at, p))
    ensures StateAfter(Kinds(Binding(s.journal, id)) + [kind]).Some?
  {
    NextKeepsInv(cfg, s, e, Put(s, kind, id, body, at, p));
    LegalInJournal(cfg, Append(s.journal, kind, id, body, at), id);
    AppendBinding(s.journal, kind, id, body, at, id);
  }

  lemma {:induction false} LegalInJournal(cfg: Config, j: seq<Record>, id: string)
    requires JournalOk(cfg, j)
    ensures StateAfter(Kinds(Binding(j, id))).Some?
  {
    IntentsOk(cfg, j, id);
    JournaledIsLegal(cfg, id, Binding(j, id));
  }

  /** The last word of the journal about an intent. */
  ghost predicate Ends(j: seq<Record>, id: string, kind: Label) {
    Binding(j, id) != [] && LastKind(j, id) == kind
  }

  lemma {:induction false} LastAppended(j: seq<Record>, kind: Label, id: string, body: Body, at: Stamp)
    ensures j <= Append(j, kind, id, body, at)
    ensures IsBinding(kind) ==> Ends(Append(j, kind, id, body, at), id, kind)
  {
    AppendBinding(j, kind, id, body, at, id);
  }

  /** A path stands in a terminal state exactly when its last record is terminal. */
  lemma {:induction false} FollowingStanding(kinds: seq<Label>, kind: Label)
    requires MayFollow(kinds, kind)
    ensures StateAfter(kinds + [kind]).Some?
    ensures IsTerminal(StateAfter(kinds + [kind]).value) == IsTerminal(kind)
    ensures StateAfter(kinds + [kind]).value.Finalized? == kind.Finalized?
  {
    ReplaySnoc(kinds, kind);
    PathStandings();
  }

  lemma {:induction false} TerminalStanding(cfg: Config, id: string, recs: seq<Record>)
    requires IntentOk(cfg, id, recs) && recs != []
    ensures StateAfter(Kinds(recs)).Some?
    ensures IsTerminal(StateAfter(Kinds(recs)).value) == IsTerminal(recs[|recs| - 1].kind)
    ensures StateAfter(Kinds(recs)).value.Finalized? == recs[|recs| - 1].kind.Finalized?
  {
    var before, r := recs[..|recs| - 1], recs[|recs| - 1];
    assert recs == before + [r];
    KindsSnoc(before, r);
    FollowingStanding(Kinds(before), r.kind);
  }

  /** The journal's PREPARED record of a submission is for this submission. */
  ghost predicate PreparedFor(j: seq<Record>, sub: Submission) {
    && sub.Envelope? && sub.signed.payload.Intent? && Prepares(j, IdOf(sub))
    && PreparedBodyOf(j, IdOf(sub)).signedIntent == sub.signed
    && PreparedBodyOf(j, IdOf(sub)).hash == IntentHash(sub.signed.payload)
  }

  lemma {:induction false} PreparesFor(cfg: Config, j: seq<Record>, sub: Submission, now: real, pre: Snapshot,
                                       admittedAt: Stamp, at: Stamp)
    requires Configured(cfg) && Decide(cfg, j, sub, cfg.namespace, now).Accept? && sub.Envelope?
    requires sub.signed.payload.Intent? && PayloadOf(sub) == sub.signed.payload
    ensures PreparedFor(Append(j, Prepared, IdOf(sub), PreparedOf(sub.signed, pre, admittedAt), at), sub)
  {
    AppendBinding(j, Prepared, IdOf(sub), PreparedOf(sub.signed, pre, admittedAt), at, IdOf(sub));
  }

  /** The store moved by exactly the conditional UPSERT of a submission. */
  ghost predicate Applied(store: Store, store': Store, sub: Submission) {
    && sub.Envelope? && sub.signed.payload.Intent? && IntentHash(sub.signed.payload).Some?
    && var p := sub.signed.payload;
    Mutate(store, IdOf(sub), IntentHash(p).value, p.key, p.value, p.expectedGeneration, p.expectedRoot) ==
    Mutated(store')
  }

  /** The submission repeats the signed intent of a decided id. */
  ghost predicate Resubmits(cfg: Config, j: seq<Record>, sub: Submission) {
    && Binding(j, IdOf(sub)) != [] && IsTerminal(LastKind(j, IdOf(sub))) && SignatureOk(sub, cfg.authority)
    && Binding(j, IdOf(sub))[0].body.hash == IntentHash(PayloadOf(sub))
  }

  /** Whatever the journal adds, a resubmission is answered as before. */
  lemma {:induction false} ReplayedLater(cfg: Config, j: seq<Record>, j': seq<Record>, sub: Submission, now: real)
    requires JournalOk(cfg, j') && j <= j' && Resubmits(cfg, j, sub)
    ensures Decide(cfg, j', sub, cfg.namespace, now).Replayed?
    ensures ResultOf(j', IdOf(sub), true) == ResultOf(j, IdOf(sub), true)
  {
    TerminalInJournal(cfg, j, j', IdOf(sub));
    BoundIsReplayed(cfg, j', sub, cfg.namespace, now);
  }

  /** The journal grew by one record of a kind. */
  ghost predicate OneMore(j: seq<Record>, j': seq<Record>, kind: Label) {
    |j'| == |j| + 1 && j'[..|j|] == j && j'[|j|].kind == kind
  }

  /** A bound intent has a result, and a finalized one its certificate. */
  lemma {:induction false} HasResult(cfg: Config, j: seq<Record>, id: string, replayed: bool)
    requires JournalOk(cfg, j) && Binding(j, id) != []
    ensures ResultOf(j, id, replayed).Some?
    ensures LastKind(j, id).Finalized? ==> ResultOf(j, id, replayed).value.certificate.Some?
  {
    IntentsOk(cfg, j, id);
    TerminalStanding(cfg, id, Binding(j, id));
    if LastKind(j, id).Finalized? {
      FinalizedResult(cfg, j, id, replayed);
    }
  }

  ghost predicate AllBound(j: seq<Record>, ids: seq<string>) {
    forall i | 0 <= i < |ids| :: Binding(j, ids[i]) != []
  }

  lemma {:induction false} SeenAreBound(j: seq<Record>)
    ensures AllBound(j, PreparedIds(j))
  {
    var ids := PreparedIds(j);
    forall i | 0 <= i < |ids|
      ensures Binding(j, ids[i]) != []
    {
      PreparedIdsBound(j, ids[i]);
    }
  }

  lemma {:induction false} StillBound(j: seq<Record>, j': seq<Record>, ids: seq<string>, i: nat)
    requires j <= j' && AllBound(j, ids) && i < |ids|
    ensures Binding(j', ids[i]) != []
  {
    BindingExtends(j, j', ids[i]);
  }

  lemma {:induction false} OutsideSnoc(cfg: Config, ss: seq<State>, es: seq<Event>, s: State)
    requires Trace(cfg, ss, es) && s == ss[|ss| - 1].(store := s.store)
    requires !s.phase.InTransaction? && s.store.namespace == cfg.namespace
    ensures Trace(cfg, ss + [s], es + [Outside(s.store)])
  {
    assert Next(cfg, ss[|ss| - 1], Outside(s.store)) == Some(s);
  }

  // ---------------------------------------------------------------- the object

  ghost function TransactionIn(p: Phase): Option<Store> {
    if p.InTransaction? then Some(p.tentative) else None
  }

  /** How a call ends: it returns, the process dies, or an exception escapes. */
  datatype Ending = Returned | Died | Raised

  class Coordinator {
    const cfg: Config
    const journal: Journal
    const adapter: StateAdapter
    /** The clock, and the schedule of process deaths, by reading. */
    const clock: nat -> real
    const dies: nat -> bool
    var ticks: nat
    /** The run so far, and whether nobody else has written to the store. */
    ghost var phase: Phase
    ghost var states: seq<State>
    ghost var events: seq<Event>
    ghost var honest: bool

    ghost function Current(): State
      reads this, journal, adapter
    {
      State(journal.records, adapter.store, phase)
    }

    /** What has happened is a run of the protocol that ends in the current state. */
    ghost predicate Running()
      reads this, journal, adapter
    {
      && journal.Valid() && Configured(cfg)
      && Trace(cfg, states, events) && (honest ==> HonestTrace(cfg, states, events))
      && states[|states| - 1] == Current()
      && adapter.store.namespace == cfg.namespace
    }

    /** The open transaction of the store is the one the phase speaks of. */
    ghost predicate Valid()
      reads this, journal, adapter
    {
      Running() && adapter.open == TransactionIn(phase)
    }

    constructor (cfg: Config, journal: Journal, adapter: StateAdapter, clock: nat -> real, dies: nat -> bool)
      requires Configured(cfg) && journal.Valid() && journal.records == []
      requires adapter.store == Store(cfg.namespace, adapter.store.storeId, 0, [], []) && adapter.open.None?
      ensures Valid() && phase.Idle? && honest
      ensures this.cfg == cfg && this.journal == journal && this.adapter == adapter
    {
      this.cfg, this.journal, this.adapter, this.clock, this.dies := cfg, journal, adapter, clock, dies;
      ticks, phase, events, honest := 0, Idle, [], true;
      states := [State([], adapter.store, Idle)];
    }

    lemma {:induction false} Facts()
      requires Running()
      ensures Inv(cfg, Current())
    {
      RunKeepsInv(cfg, states, events, |states| - 1);
    }

    lemma {:induction false} HonestFacts()
      requires Running() && honest
      ensures Inv(cfg, Current()) && Agrees(cfg, Current())
    {
      RunAgrees(cfg, states, events, |states| - 1);
    }

    method Now() returns (at: Stamp)
      requires Valid()
      modifies this`ticks
      ensures Valid() && at.Utc?
    {
      at := FormatTime(clock(ticks));
      ticks := ticks + 1;
    }

    /** A step that touches nothing durable. */
    ghost method Advance(e: Event, p: Phase)
      requires Valid() && !phase.InTransaction? && !p.InTransaction?
      requires HonestNext(cfg, Current(), e) == Some(Current().(phase := p))
      modifies this`phase, this`states, this`events
      ensures Valid() && phase == p
    {
      var next := Current().(phase := p);
      TraceSnoc(cfg, states, events, e, next);
      phase, states, events := p, states + [next], events + [e];
    }

    /** The state machine's say on a record to append: it never objects. */
    method Consult(kind: Label, id: string, body: Body, at: Stamp, ghost e: Event, ghost p: Phase) returns (ok: bool)
      requires Running() && HonestNext(cfg, Current(), e) == Some(Put(Current(), kind, id, body, at, p))
      ensures ok
    {
      ok := true;
      if IsBinding(kind) {
        var after := ComputeStateAfter(Kinds(Binding(journal.records, id)) + [kind]);
        Facts();
        AppendIsLegal(cfg, Current(), e, kind, id, body, at, p);
        ok := after.Some?;
      }
    }

    /** One durable record. */
    method Record(kind: Label, id: string, body: Body, at: Stamp, ghost e: Event, ghost p: Phase)
      requires Running() && adapter.open == TransactionIn(p)
      requires HonestNext(cfg, Current(), e) == Some(Put(Current(), kind, id, body, at, p))
      modifies this`phase, this`states, this`events, journal
      ensures Valid() && phase == p
      ensures journal.records == Journals.Append(old(journal.records), kind, id, body, at)
    {
      ghost var next := Put(Current(), kind, id, body, at, p);
      TraceSnoc(cfg, states, events, e, next);
      var _ := journal.Append(kind, id, body, at);
      phase := p;
      states, events := states + [next], events + [e];
    }

    /** The store is untouched and the journal only grew. */
    twostate predicate Kept()
      reads journal, adapter
    {
      && adapter.store == old(adapter.store) && old(journal.records) <= journal.records
      && adapter.executeCalls == old(adapter.executeCalls) && adapter.commitCalls == old(adapter.commitCalls)
    }

    /** The process may die here: the lock is lost, and so is an open transaction. */
    method MayDie() returns (died: bool)
      requires Valid()
      modifies this`ticks, this`phase, this`states, this`events, adapter
      ensures Valid() && Kept()
      ensures died ==> phase == Idle
      ensures !died ==> phase == old(phase) && adapter.open == old(adapter.open)
    {
      died := dies(ticks);
      ticks := ticks + 1;
      if died {
        Leave();
      }
    }

    /** The lock is released, by returning or by dying. */
    method Leave()
      requires Valid()
      modifies this`phase, this`states, this`events, adapter
      ensures Valid() && phase == Idle && Kept()
    {
      ghost var next := Current().(phase := Idle);
      NextRelease(cfg, Current());
      TraceSnoc(cfg, states, events, Release, next);
      adapter.Crash();
      phase, states, events := Idle, states + [next], events + [Release];
    }

    /** _append, after which the process may die. */
    method Append(kind: Label, id: string, body: Body, at: Stamp, ghost e: Event, ghost p: Phase) returns (died: bool)
      requires Valid() && !phase.InTransaction? && !p.InTransaction?
      requires HonestNext(cfg, Current(), e) == Some(Put(Current(), kind, id, body, at, p))
      modifies this`ticks, this`phase, this`states, this`events, journal, adapter
      ensures Valid() && Kept() && phase == if died then Idle else p
      ensures journal.records == Journals.Append(old(journal.records), kind, id, body, at)
      ensures IsBinding(kind) ==> Ends(journal.records, id, kind)
    {
      LastAppended(journal.records, kind, id, body, at);
      var _ := Consult(kind, id, body, at, e, p);
      Record(kind, id, body, at, e, p);
      died := MayDie();
    }

    /** Somebody else writes to the store. */
    method OutsideWrite(store: Store)
      requires Valid() && !phase.InTransaction? && store.namespace == cfg.namespace
      modifies this`states, this`events, this`honest, adapter
      ensures Valid() && adapter.store == store && !honest
    {
      ghost var next := Current().(store := store);
      OutsideSnoc(cfg, states, events, next);
      adapter.store := store;
      states, events, honest := states + [next], events + [Outside(store)], false;
    }

    // -------------------------------------------------------------- commit confirmation and finality

    lemma {:induction false} CanFinalize(at: Stamp)
      requires Valid() && phase.Finishing?
      ensures var recs := Binding(journal.records, phase.id);
              && recs != [] && CanCertify(recs[0], recs[|recs| - 1])
              && var body := FinalizedBody(recs[0].body.hash, MakeCertificate(cfg, recs[0], recs[|recs| - 1]));
              HonestNext(cfg, Current(), Event.Finalize(at)) ==
              Some(Put(Current(), Finalized, phase.id, body, at, Recovering(phase.todo)))
    {
      Facts();
      NextFinalize(cfg, Current(), at);
    }

    /** One record more: FINALIZED, with the certificate over the intent's PREPARED and COMMITTED records. */
    ghost predicate Certifies(j: seq<Record>, j': seq<Record>, id: string) {
      var recs := Binding(j, id);
      && recs != [] && CanCertify(recs[0], recs[|recs| - 1])
      && |j'| == |j| + 1 && j <= j' && j'[|j|].kind.Finalized? && j'[|j|].intentId == id
      && j'[|j|].body == FinalizedBody(recs[0].body.hash, MakeCertificate(cfg, recs[0], recs[|recs| - 1]))
    }

    /** _finalize: the certificate is derived from the journal and appended. */
    method Finalize(id: string, ghost todo: seq<string>) returns (died: bool)
      requires Valid() && phase == Finishing(id, todo)
      modifies this`ticks, this`phase, this`states, this`events, journal, adapter
      ensures Valid() && Kept() && phase == (if died then Idle else Recovering(todo))
      ensures Ends(journal.records, id, Finalized)
      ensures Certifies(old(journal.records), journal.records, id)
    {
      var at := Now();
      CanFinalize(at);
      var recs := Binding(journal.records, id);
      var body := FinalizedBody(recs[0].body.hash, MakeCertificate(cfg, recs[0], recs[|recs| - 1]));
      died := Append(Finalized, id, body, at, Event.Finalize(at), Recovering(todo));
    }

    /** Without outside writers no read is a surprise. */
    lemma {:induction false} Unsurprised(e: Event)
      requires Running() && honest && HonestNext(cfg, Current(), e).Some?
      ensures e.Inspect? && LastKind(journal.records, phase.todo[0]).Prepared? ==> e.row.None?
      ensures e.Execute? ==> e.txn.Mutated?
      ensures e.Confirm? ==> Problems(PreparedBodyOf(journal.records, phase.id), e.row, e.post) == []
    {
      HonestFacts();
      StepSucceeds(cfg, Current(), e);
    }

    lemma {:induction false} CanConfirm(row: Option<Row>, post: Snapshot, at: Stamp)
      requires Valid() && phase.Confirming? && post == Snap(adapter.store)
      requires row == AppliedRow(adapter.store.applied, phase.id)
      ensures Prepares(journal.records, phase.id)
      ensures HonestNext(cfg, Current(), Confirm(row, post, at)) == Some(ConfirmStep(Current(), row, post, at))
      ensures honest ==> Problems(PreparedBodyOf(journal.records, phase.id), row, post) == []
    {
      Facts();
      BoundPrepares(cfg, journal.records, phase.id);
      NextConfirm(cfg, Current(), at);
      if honest {
        Unsurprised(Confirm(row, post, at));
      }
    }

    /** The fresh read does not show the commit: the intent stays, or becomes, uncertain. */
    method Mistrust(id: string, recovered: bool, applied: Option<Row>, post: Snapshot, problems: seq<Problem>,
                    at: Stamp, ghost todo: seq<string>) returns (died: bool)
      requires Valid() && phase == Confirming(id, todo, recovered) && Prepares(journal.records, id)
      requires problems == Problems(PreparedBodyOf(journal.records, id), applied, post) && problems != []
      requires HonestNext(cfg, Current(), Confirm(applied, post, at)) == Some(ConfirmStep(Current(), applied, post, at))
      modifies this`ticks, this`phase, this`states, this`events, journal, adapter
      ensures Valid() && Kept() && phase == if recovered && !died then Recovering(todo) else Idle
    {
      var hash := PreparedBodyOf(journal.records, id).hash;
      ghost var e, p := Confirm(applied, post, at), if recovered then Recovering(todo) else Idle;
      if LastKind(journal.records, id) != CommitUncertain {
        died := Append(CommitUncertain, id, ReasonBody(hash, E_FRESH_READ_MISMATCH(problems)), at, e, p);
      } else {
        Advance(e, p);
        died := false;
      }
    }

    /** The fresh read shows the commit. */
    method Trust(id: string, recovered: bool, row: Row, post: Snapshot, at: Stamp, ghost todo: seq<string>)
      returns (died: bool)
      requires Valid() && phase == Confirming(id, todo, recovered) && Prepares(journal.records, id)
      requires Problems(PreparedBodyOf(journal.records, id), Some(row), post) == []
      requires HonestNext(cfg, Current(), Confirm(Some(row), post, at)) ==
               Some(ConfirmStep(Current(), Some(row), post, at))
      modifies this`ticks, this`phase, this`states, this`events, journal, adapter
      ensures Valid() && Kept() && phase == if died then Idle else Recovering(todo)
      ensures !died ==> Ends(journal.records, id, Finalized)
    {
      var body := CommittedOf(PreparedBodyOf(journal.records, id), row, post, recovered);
      died := Append(Committed, id, body, at, Confirm(Some(row), post, at), Finishing(id, todo));
      if !died {
        died := Finalize(id, todo);
      }
    }

    /** _confirm_commit: a fresh read must show the signed UPSERT, applied once. */
    method ConfirmCommit(id: string, recovered: bool, ghost todo: seq<string>) returns (died: bool)
      requires Valid() && phase == Confirming(id, todo, recovered)
      modifies this`ticks, this`phase, this`states, this`events, journal, adapter
      ensures Valid() && Kept() && (phase == Idle || phase == Recovering(todo))
      ensures died ==> phase == Idle
      ensures !died && recovered ==> phase == Recovering(todo)
      ensures !died && honest ==> phase == Recovering(todo) && Ends(journal.records, id, Finalized)
    {
      var at := Now();
      var applied := adapter.ReadApplied(id);
      var post := Snap(adapter.store);
      CanConfirm(applied, post, at);
      var b := PreparedBodyOf(journal.records, id);
      var problems := Problems(b, applied, post);
      if problems != [] {
        died := Mistrust(id, recovered, applied, post, problems, at, todo);
      } else {
        died := Trust(id, recovered, applied.value, post, at, todo);
      }
    }

    // -------------------------------------------------------------- recovery

    lemma {:induction false} CanInspect(id: string, todo: seq<string>, row: Option<Row>, at: Stamp)
      requires Valid() && phase == Recovering([id] + todo) && Binding(journal.records, id) != []
      requires row == AppliedRow(adapter.store.applied, id)
      ensures var s, hash := Current(), PreparedBodyOf(journal.records, id).hash;
              var resolve := if row.None? then Aborting(id, todo) else Confirming(id, todo, true);
              HonestNext(cfg, s, Inspect(row, at)) ==
              Some(match LastKind(journal.records, id)
                   case Prepared =>
                     if row.Some? then s.(phase := Idle)
                     else Put(s, Aborted, id, ReasonBody(hash, E_CRASH_BEFORE_STORAGE_TRANSACTION), at,
                              Recovering(todo))
                   case Committed => s.(phase := Finishing(id, todo))
                   case Committing =>
                     Put(s, CommitUncertain, id, ReasonBody(hash, E_OUTCOME_UNKNOWN_AFTER_CRASH), at, resolve)
                   case CommitUncertain => s.(phase := resolve)
                   case _ => s.(phase := Recovering(todo)))
      ensures honest && LastKind(journal.records, id).Prepared? ==> row.None?
    {
      assert ([id] + todo)[1..] == todo;
      NextInspect(cfg, Current(), at);
      if honest {
        Unsurprised(Inspect(row, at));
      }
    }

    lemma {:induction false} CanAbort(at: Stamp)
      requires Valid() && phase.Aborting?
      ensures Binding(journal.records, phase.id) != []
      ensures HonestNext(cfg, Current(), AbortUncertain(at)) ==
              Some(Put(Current(), Aborted, phase.id,
                       ReasonBody(PreparedBodyOf(journal.records, phase.id).hash, E_STORAGE_COMMIT_NOT_DURABLE), at,
                       Recovering(phase.todo)))
    {
      Facts();
      NextAbort(cfg, Current(), at);
    }

    /** The resolution of an uncertain intent: aborted if the store has no row for it, confirmed otherwise. */
    method Resolve(id: string, applied: Option<Row>, ghost todo: seq<string>) returns (died: bool)
      requires Valid()
      requires phase == if applied.None? then Aborting(id, todo) else Confirming(id, todo, true)
      modifies this`ticks, this`phase, this`states, this`events, journal, adapter
      ensures Valid() && Kept() && phase == if died then Idle else Recovering(todo)
    {
      if applied.None? {
        var at := Now();
        CanAbort(at);
        died := Append(Aborted, id, ReasonBody(PreparedBodyOf(journal.records, id).hash, E_STORAGE_COMMIT_NOT_DURABLE),
                       at, AbortUncertain(at), Recovering(todo));
      } else {
        died := ConfirmCommit(id, true, todo);
      }
    }

    /** PREPARED alone: aborted, unless the store has a row for it, which raises RecoveryError. */
    method RecoverPrepared(id: string, applied: Option<Row>, at: Stamp, ghost todo: seq<string>)
      returns (ending: Ending)
      requires Valid() && phase == Recovering([id] + todo) && Ends(journal.records, id, Prepared)
      requires applied == AppliedRow(adapter.store.applied, id)
      modifies this`ticks, this`phase, this`states, this`events, journal, adapter
      ensures Valid() && Kept() && phase == if ending.Returned? then Recovering(todo) else Idle
      ensures honest ==> !ending.Raised?
    {
      CanInspect(id, todo, applied, at);
      if applied.Some? {
        Advance(Inspect(applied, at), Idle);
        return Raised;
      }
      var died := Append(Aborted, id,
                         ReasonBody(PreparedBodyOf(journal.records, id).hash, E_CRASH_BEFORE_STORAGE_TRANSACTION), at,
                         Inspect(applied, at), Recovering(todo));
      ending := if died then Died else Returned;
    }

    /** COMMITTING without an outcome: the intent is uncertain first, then resolved. */
    method RecoverCommitting(id: string, applied: Option<Row>, at: Stamp, ghost todo: seq<string>) returns (died: bool)
      requires Valid() && phase == Recovering([id] + todo) && Ends(journal.records, id, Committing)
      requires applied == AppliedRow(adapter.store.applied, id)
      modifies this`ticks, this`phase, this`states, this`events, journal, adapter
      ensures Valid() && Kept() && phase == if died then Idle else Recovering(todo)
    {
      CanInspect(id, todo, applied, at);
      died := Append(CommitUncertain, id,
                     ReasonBody(PreparedBodyOf(journal.records, id).hash, E_OUTCOME_UNKNOWN_AFTER_CRASH), at,
                     Inspect(applied, at), if applied.None? then Aborting(id, todo) else Confirming(id, todo, true));
      if !died {
        died := Resolve(id, applied, todo);
      }
    }

    /** _recover_one, for an intent without a terminal record. */
    method RecoverOne(id: string, ghost todo: seq<string>) returns (ending: Ending)
      requires Valid() && phase == Recovering([id] + todo) && IsOpen(journal.records, id)
      modifies this`ticks, this`phase, this`states, this`events, journal, adapter
      ensures Valid() && Kept() && phase == if ending.Returned? then Recovering(todo) else Idle
      ensures honest ==> !ending.Raised?
    {
      var at := Now();
      LastIsBinding(journal.records, id);
      var applied := adapter.ReadApplied(id);
      CanInspect(id, todo, applied, at);
      var died: bool;
      match LastKind(journal.records, id) {
        case Prepared =>
          ending := RecoverPrepared(id, applied, at, todo);
          return;
        case Committed =>
          Advance(Inspect(applied, at), Finishing(id, todo));
          died := Finalize(id, todo);
        case Committing =>
          died := RecoverCommitting(id, applied, at, todo);
        case CommitUncertain =>
          Advance(Inspect(applied, at), if applied.None? then Aborting(id, todo) else Confirming(id, todo, true));
          died := Resolve(id, applied, todo);
      }
      ending := if died then Died else Returned;
    }

    lemma {:induction false} Standing(id: string)
      requires Running() && Binding(journal.records, id) != []
      ensures var state := StateAfter(Kinds(Binding(journal.records, id)));
              state.Some? && IsTerminal(state.value) == IsTerminal(LastKind(journal.records, id))
    {
      Facts();
      IntentsOk(cfg, journal.records, id);
      TerminalStanding(cfg, id, Binding(journal.records, id));
    }

    /** The intents with a PREPARED record, each once. */
    method Seen() returns (ids: seq<string>)
      ensures ids == PreparedIds(journal.records)
    {
      ids := [];
      for i := 0 to |journal.records|
        invariant ids == PreparedIds(journal.records[..i])
      {
        assert journal.records[..i + 1][..i] == journal.records[..i];
        var r := journal.records[i];
        if r.kind.Prepared? && r.intentId !in ids {
          ids := ids + [r.intentId];
        }
      }
      assert journal.records[..|journal.records|] == journal.records;
    }

    /** Recovery passes over an intent with a terminal record. */
    ghost method Skip(id: string, todo: seq<string>)
      requires Valid() && phase == Recovering([id] + todo) && Binding(journal.records, id) != []
      requires IsTerminal(LastKind(journal.records, id))
      modifies this`phase, this`states, this`events
      ensures Valid() && phase == Recovering(todo)
    {
      var row, at := AppliedRow(adapter.store.applied, id), FormatTime(0.0);
      CanInspect(id, todo, row, at);
      Advance(Inspect(row, at), Recovering(todo));
    }

    /** One intent of the recovery loop. */
    method Look(id: string, ghost todo: seq<string>) returns (ending: Ending)
      requires Valid() && phase == Recovering([id] + todo) && Binding(journal.records, id) != []
      modifies this`ticks, this`phase, this`states, this`events, journal, adapter
      ensures Valid() && Kept() && phase == if ending.Returned? then Recovering(todo) else Idle
      ensures honest ==> !ending.Raised?
    {
      Standing(id);
      var before := ComputeStateAfter(Kinds(Binding(journal.records, id)));
      if IsTerminal(before.value) {
        Skip(id, todo);
        ending := Returned;
      } else {
        ending := RecoverOne(id, todo);
      }
    }

    lemma {:induction false} Decided()
      requires Running() && honest && phase == Recovering([])
      ensures Quiet(journal.records)
    {
      HonestFacts();
    }

    /** Reading the journal again from its file changes nothing. */
    method Reload()
      requires Valid()
      modifies journal
      ensures Valid() && journal.records == old(journal.records)
    {
      var ok := journal.Load();
      assert ok;
    }

    method Lock()
      requires Valid() && phase.Idle?
      modifies this`phase, this`states, this`events, journal
      ensures Valid() && phase == Recovering(PreparedIds(journal.records)) && journal.records == old(journal.records)
    {
      Reload();
      NextAcquire(cfg, Current());
      Advance(Acquire, Recovering(PreparedIds(journal.records)));
    }

    /** The recovery loop. */
    method RecoverAll(ids: seq<string>) returns (ending: Ending)
      requires Valid() && phase == Recovering(ids) && AllBound(journal.records, ids)
      modifies this`ticks, this`phase, this`states, this`events, journal, adapter
      ensures Valid() && Kept() && phase == if ending.Returned? then Recovering([]) else Idle
      ensures honest ==> !ending.Raised?
    {
      for i := 0 to |ids|
        invariant Valid() && Kept() && phase == Recovering(ids[i..])
      {
        assert ids[i..] == [ids[i]] + ids[i + 1..];
        StillBound(old(journal.records), journal.records, ids, i);
        ending := Look(ids[i], ids[i + 1..]);
        if !ending.Returned? {
          return;
        }
      }
      return Returned;
    }

    /**
     _recover_locked, under a lock that is held on return and lost otherwise. Recovery leaves the store alone; without
     outside writers it never raises, and every intent of the journal is decided when it returns.
     */
    method Recover() returns (ending: Ending)
      requires Valid() && phase.Idle?
      modifies this`ticks, this`phase, this`states, this`events, journal, adapter
      ensures Valid() && Kept() && phase == if ending.Returned? then Recovering([]) else Idle
      ensures honest ==> !ending.Raised?
      ensures honest && ending.Returned? ==> Quiet(journal.records)
    {
      Lock();
      var ids := Seen();
      SeenAreBound(journal.records);
      ending := RecoverAll(ids);
      if honest && ending.Returned? {
        Decided();
      }
    }

    // -------------------------------------------------------------- submission

    /** What a submission comes to at a moment, before the store is consulted. */
    ghost function Decision(sub: Submission, now: real): Decision
      reads this, journal, adapter
    {
      Decide(cfg, journal.records, sub, cfg.namespace, now)
    }

    /** _reject: exactly one ADMISSION_REJECTED record, which binds nothing. */
    method Refuse(sub: Submission, reason: Reason, now: real) returns (died: bool, result: Result)
      requires Valid() && phase == Recovering([]) && Decision(sub, now) == Refused(reason)
      modifies this`ticks, this`phase, this`states, this`events, journal, adapter
      ensures Valid() && Kept() && phase == if died then Idle else Recovering([])
      ensures OneMore(old(journal.records), journal.records, AdmissionRejected)
      ensures result == Result(IdOf(sub), AdmissionRejected, None, Some(reason), false)
    {
      var at := Now();
      NextReject(cfg, Current(), sub, now, at);
      died := Append(AdmissionRejected, IdOf(sub), Rejection(IntentHash(PayloadOf(sub)), reason), at,
                     Reject(sub, cfg.namespace, now, at), Recovering([]));
      result := Result(IdOf(sub), AdmissionRejected, None, Some(reason), false);
    }

    /** A stale precondition: exactly one PRECONDITION_REJECTED record, which binds nothing. */
    method RefuseStale(sub: Submission, pre: Snapshot, reason: Reason, now: real) returns (died: bool, result: Result)
      requires Valid() && phase == Recovering([]) && Decision(sub, now).Accept? && pre == Snap(adapter.store)
      requires PayloadOf(sub).Intent? && Stale(PayloadOf(sub), pre) == Some(reason)
      modifies this`ticks, this`phase, this`states, this`events, journal, adapter
      ensures Valid() && Kept() && phase == if died then Idle else Recovering([])
      ensures OneMore(old(journal.records), journal.records, PreconditionRejected)
      ensures result == Result(IdOf(sub), PreconditionRejected, None, Some(reason), false)
    {
      var at := Now();
      NextRejectPrecondition(cfg, Current(), sub, now, at);
      AcceptIsIntent(cfg, journal.records, sub, cfg.namespace, now);
      var body := PreconditionRejection(IntentHash(PayloadOf(sub)), reason, sub.signed, pre.generation, pre.root);
      died := Append(PreconditionRejected, IdOf(sub), body, at,
                     RejectPrecondition(sub, cfg.namespace, now, pre, at), Recovering([]));
      result := Result(IdOf(sub), PreconditionRejected, None, Some(reason), false);
    }

    /** PREPARED: the intent, what it was admitted on, and the state it was admitted against. */
    method Prepare(sub: Submission, pre: Snapshot, now: real) returns (died: bool)
      requires Valid() && phase == Recovering([]) && Decision(sub, now).Accept? && pre == Snap(adapter.store)
      requires PayloadOf(sub).Intent? && Stale(PayloadOf(sub), pre).None?
      modifies this`ticks, this`phase, this`states, this`events, journal, adapter
      ensures Valid() && Kept() && phase == if died then Idle else Opened(IdOf(sub))
      ensures PreparedFor(journal.records, sub)
    {
      var admittedAt := Now();
      var at := Now();
      AcceptIsIntent(cfg, journal.records, sub, cfg.namespace, now);
      PreparesFor(cfg, journal.records, sub, now, pre, admittedAt, at);
      NextPrepare(cfg, Current(), sub, now, admittedAt, at);
      died := Append(Prepared, IdOf(sub), PreparedOf(sub.signed, pre, admittedAt), at,
                     Event.Prepare(sub, cfg.namespace, now, pre, admittedAt, at), Opened(IdOf(sub)));
    }

    lemma {:induction false} CanExecute(at: Stamp)
      requires Running() && phase.Opened?
      ensures Prepares(journal.records, phase.id)
      ensures var txn := TransactionOf(journal.records, adapter.store, phase.id);
              && HonestNext(cfg, Current(), Execute(txn, at)) == Some(ExecuteStep(Current(), txn, at))
              && (honest ==> txn.Mutated?) && (txn.Mutated? ==> txn.store.namespace == cfg.namespace)
    {
      Facts();
      BoundPrepares(cfg, journal.records, phase.id);
      NextExecute(cfg, Current(), at);
      if honest {
        Unsurprised(Execute(TransactionOf(journal.records, adapter.store, phase.id), at));
      }
    }

    /** COMMITTING is journaled inside the open transaction. */
    method RecordCommitting(id: string, at: Stamp)
      requires Running() && phase == Opened(id) && Prepares(journal.records, id)
      requires adapter.open.Some? && TransactionOf(journal.records, adapter.store, id) == Mutated(adapter.open.value)
      modifies this`phase, this`states, this`events, journal
      ensures Valid() && old(journal.records) <= journal.records && adapter.open.value.namespace == cfg.namespace
      ensures phase == InTransaction(id, adapter.open.value)
    {
      CanExecute(at);
      ghost var txn, p := Mutated(adapter.open.value), InTransaction(id, adapter.open.value);
      var _ := Consult(Committing, id, CommittingBody(PreparedBodyOf(journal.records, id).hash), at,
                       Event.Execute(txn, at), p);
      Record(Committing, id, CommittingBody(PreparedBodyOf(journal.records, id).hash), at, Execute(txn, at), p);
    }

    /**
     COMMITTING is journaled inside the open transaction, which then commits, or dies with the process. The process may
     also die after the commit, before anything else is journaled.
     */
    method CommitOpen(id: string, at: Stamp) returns (died: bool, committed: bool)
      requires Running() && phase == Opened(id) && Prepares(journal.records, id)
      requires adapter.open.Some? && TransactionOf(journal.records, adapter.store, id) == Mutated(adapter.open.value)
      modifies this`ticks, this`phase, this`states, this`events, journal, adapter
      ensures Valid() && old(journal.records) <= journal.records && adapter.executeCalls == old(adapter.executeCalls)
      ensures phase == if died then Idle else Confirming(id, [], false)
      ensures adapter.store == if committed then old(adapter.open.value) else old(adapter.store)
      ensures adapter.commitCalls == old(adapter.commitCalls) + if committed then 1 else 0
      ensures !died ==> committed
    {
      RecordCommitting(id, at);
      died := MayDie();
      committed := !died;
      if committed {
        Commit();
        died := MayDie();
      }
    }

    /** COMMIT of the store transaction. */
    method Commit()
      requires Valid() && phase.InTransaction? && phase.tentative.namespace == cfg.namespace
      modifies this`phase, this`states, this`events, adapter
      ensures Valid() && phase == Confirming(old(phase.id), [], false) && adapter.store == old(phase.tentative)
      ensures adapter.executeCalls == old(adapter.executeCalls) && adapter.commitCalls == old(adapter.commitCalls) + 1
    {
      ghost var next := Current().(store := phase.tentative, phase := Confirming(phase.id, [], false));
      NextCommit(cfg, Current());
      TraceSnoc(cfg, states, events, Event.Commit, next);
      adapter.Commit();
      phase := next.phase;
      states, events := states + [next], events + [Event.Commit];
    }

    /** BEGIN IMMEDIATE and the conditional UPSERT. */
    method Begin(id: string) returns (txn: Transaction)
      requires Valid() && phase == Opened(id) && Prepares(journal.records, id)
      modifies adapter
      ensures Running() && adapter.store == old(adapter.store)
      ensures txn == TransactionOf(journal.records, adapter.store, id)
      ensures adapter.open == if txn.Mutated? then Some(txn.store) else None
      ensures adapter.executeCalls == old(adapter.executeCalls) + 1 && adapter.commitCalls == old(adapter.commitCalls)
    {
      var b := PreparedBodyOf(journal.records, id);
      var p := b.signedIntent.payload;
      txn := adapter.Begin(id, b.hash.value, p.key, p.value, p.expectedGeneration, p.expectedRoot);
    }

    lemma {:induction false} CanGiveUp(txn: Transaction, at: Stamp)
      requires Running() && phase.Opened? && Prepares(journal.records, phase.id) && !txn.Mutated?
      requires txn == TransactionOf(journal.records, adapter.store, phase.id)
      ensures !honest
      ensures HonestNext(cfg, Current(), Execute(txn, at)) ==
              Some(if txn.ConstraintViolated? then Current().(phase := Idle)
                   else Put(Current(), Aborted, phase.id,
                            ReasonBody(PreparedBodyOf(journal.records, phase.id).hash, txn.reason), at, Recovering([])))
    {
      CanExecute(at);
    }

    /** The transaction was rolled back before COMMITTING: a failed precondition aborts, a constraint raises. */
    method GiveUp(id: string, txn: Transaction, at: Stamp) returns (ending: Ending)
      requires Valid() && phase == Opened(id) && Prepares(journal.records, id) && !txn.Mutated?
      requires txn == TransactionOf(journal.records, adapter.store, id)
      modifies this`ticks, this`phase, this`states, this`events, journal, adapter
      ensures Valid() && Kept() && phase == if ending.Returned? then Recovering([]) else Idle
      ensures ending.Returned? ==> Ends(journal.records, id, Aborted)
      ensures !honest
    {
      CanGiveUp(txn, at);
      if txn.ConstraintViolated? {
        Advance(Execute(txn, at), Idle);
        return Raised;
      }
      var body := ReasonBody(PreparedBodyOf(journal.records, id).hash, txn.reason);
      var died := Append(Aborted, id, body, at, Execute(txn, at), Recovering([]));
      ending := if died then Died else Returned;
    }

    /** apply_upsert: one transaction, which leaves the store as it was or as the UPSERT makes it. */
    method Transact(id: string) returns (ending: Ending, committed: bool)
      requires Valid() && phase == Opened(id) && Prepares(journal.records, id)
      modifies this`ticks, this`phase, this`states, this`events, journal, adapter
      ensures Valid() && old(journal.records) <= journal.records
      ensures adapter.executeCalls == old(adapter.executeCalls) + 1
      ensures
        if committed then
          && !ending.Raised? && phase == (if ending.Returned? then Confirming(id, [], false) else Idle)
          && TransactionOf(old(journal.records), old(adapter.store), id) == Mutated(adapter.store)
          && adapter.commitCalls == old(adapter.commitCalls) + 1
        else
          && adapter.store == old(adapter.store) && adapter.commitCalls == old(adapter.commitCalls)
          && phase == (if ending.Returned? then Recovering([]) else Idle)
          && (ending.Returned? ==> Ends(journal.records, id, Aborted))
      ensures honest ==> !ending.Raised? && (ending.Returned? ==> committed)
    {
      var at := Now();
      var txn := Begin(id);
      if txn.Mutated? {
        var died;
        died, committed := CommitOpen(id, at);
        ending := if died then Died else Returned;
      } else {
        ending := GiveUp(id, txn, at);
        committed := false;
      }
    }

    lemma {:induction false} Answers(id: string, replayed: bool)
      requires Running() && Binding(journal.records, id) != []
      ensures ResultOf(journal.records, id, replayed).Some?
      ensures Ends(journal.records, id, Finalized) ==> ResultOf(journal.records, id, replayed).value.certificate.Some?
    {
      Facts();
      HasResult(cfg, journal.records, id, replayed);
    }

    /** An admitted submission with a fresh precondition: PREPARED, the store transaction, and its confirmation. */
    method Admit(sub: Submission, pre: Snapshot, now: real) returns (ending: Ending)
      requires Valid() && phase == Recovering([]) && Decision(sub, now).Accept? && pre == Snap(adapter.store)
      requires PayloadOf(sub).Intent? && Stale(PayloadOf(sub), pre).None?
      modifies this`ticks, this`phase, this`states, this`events, journal, adapter
      ensures Valid() && old(journal.records) <= journal.records && (phase == Idle || phase == Recovering([]))
      ensures ending.Returned? ==> Binding(journal.records, IdOf(sub)) != []
      ensures Once(sub)
      ensures honest ==> !ending.Raised?
      ensures honest && ending.Returned? ==> Done(sub) && phase == Recovering([])
    {
      var died := Prepare(sub, pre, now);
      if died {
        return Died;
      }
      ending := Perform(sub);
    }

    /** The effect of a submission happened once or not at all. */
    twostate predicate Once(sub: Submission)
      reads adapter
    {
      if adapter.commitCalls == old(adapter.commitCalls) then adapter.store == old(adapter.store)
      else
        && Applied(old(adapter.store), adapter.store, sub)
        && adapter.commitCalls == old(adapter.commitCalls) + 1
    }

    /** The store transaction of a PREPARED submission, and its confirmation. */
    method Perform(sub: Submission) returns (ending: Ending)
      requires Valid() && PreparedFor(journal.records, sub) && phase == Opened(IdOf(sub))
      modifies this`ticks, this`phase, this`states, this`events, journal, adapter
      ensures Valid() && old(journal.records) <= journal.records && (phase == Idle || phase == Recovering([]))
      ensures ending.Returned? ==> Binding(journal.records, IdOf(sub)) != []
      ensures Once(sub)
      ensures honest ==> !ending.Raised?
      ensures honest && ending.Returned? ==> Done(sub) && phase == Recovering([])
    {
      var id := IdOf(sub);
      var committed: bool;
      ending, committed := Transact(id);
      if committed && ending.Returned? {
        var died := ConfirmCommit(id, false, []);
        ending := if died then Died else Returned;
      }
      BindingExtends(old(journal.records), journal.records, id);
    }

    /** An admitted submission: refused if its precondition is stale, performed otherwise. */
    method Consider(sub: Submission, now: real) returns (ending: Ending, result: Option<Result>)
      requires Valid() && phase == Recovering([]) && Decision(sub, now).Accept? && PayloadOf(sub).Intent?
      modifies this`ticks, this`phase, this`states, this`events, journal, adapter
      ensures Valid() && old(journal.records) <= journal.records && (phase == Idle || phase == Recovering([]))
      ensures Once(sub) && (honest ==> !ending.Raised? && (ending.Returned? ==> phase == Recovering([])))
      ensures var stale := Stale(PayloadOf(sub), Snap(old(adapter.store)));
              if stale.Some? then
                && Kept() && OneMore(old(journal.records), journal.records, PreconditionRejected)
                && (ending.Returned? ==>
                      result == Some(Result(IdOf(sub), PreconditionRejected, None, stale, false)))
              else
                && (ending.Returned? ==> result.Some? && result == ResultOf(journal.records, IdOf(sub), false))
                && (honest && ending.Returned? ==> Done(sub) && result.value.certificate.Some?)
    {
      var pre := Snap(adapter.store);
      var stale := Stale(PayloadOf(sub), pre);
      if stale.Some? {
        var died, r := RefuseStale(sub, pre, stale.value, now);
        ending, result := if died then Died else Returned, Some(r);
      } else {
        ending := Admit(sub, pre, now);
        result := None;
        if ending.Returned? {
          Answers(IdOf(sub), false);
          result := ResultOf(journal.records, IdOf(sub), false);
        }
      }
    }

    /** The submission is finalized, and its effect happened in this call. */
    twostate predicate Done(sub: Submission)
      reads journal, adapter
    {
      && Ends(journal.records, IdOf(sub), Finalized) && Applied(old(adapter.store), adapter.store, sub)
      && adapter.executeCalls == old(adapter.executeCalls) + 1
    }

    /**
     _submit_locked, after recovery. A resubmission changes nothing and answers from the journal; a refusal adds one
     record that binds nothing; anything else takes effect once or not at all, and without outside writers and deaths
     it is finalized.
     */
    method SubmitLocked(sub: Submission) returns (ending: Ending, result: Option<Result>)
      requires Valid() && phase == Recovering([])
      modifies this`ticks, this`phase, this`states, this`events, journal, adapter
      ensures Valid() && old(journal.records) <= journal.records && (phase == Idle || phase == Recovering([]))
      ensures Once(sub) && (honest ==> !ending.Raised? && (ending.Returned? ==> phase == Recovering([])))
      ensures match old(Decision(sub, clock(ticks)))
              case Replayed =>
                && ending.Returned? && Kept() && journal.records == old(journal.records)
                && result.Some? && result == ResultOf(journal.records, IdOf(sub), true)
              case Refused(reason) =>
                && Kept() && OneMore(old(journal.records), journal.records, AdmissionRejected)
                && (ending.Returned? ==>
                      result == Some(Result(IdOf(sub), AdmissionRejected, None, Some(reason), false)))
              case Accept =>
                && PayloadOf(sub).Intent?
                && var stale := Stale(PayloadOf(sub), Snap(old(adapter.store)));
                if stale.Some? then
                  && Kept() && OneMore(old(journal.records), journal.records, PreconditionRejected)
                  && (ending.Returned? ==>
                        result == Some(Result(IdOf(sub), PreconditionRejected, None, stale, false)))
                else
                  && (ending.Returned? ==> result.Some? && result == ResultOf(journal.records, IdOf(sub), false))
                  && (honest && ending.Returned? ==> Done(sub) && result.value.certificate.Some?)
    {
      var now := clock(ticks);
      ticks := ticks + 1;
      match Decide(cfg, journal.records, sub, cfg.namespace, now) {
        case Replayed =>
          Answers(IdOf(sub), true);
          ending, result := Returned, ResultOf(journal.records, IdOf(sub), true);
        case Refused(reason) =>
          var died, r := Refuse(sub, reason, now);
          ending, result := if died then Died else Returned, Some(r);
        case Accept =>
          AcceptIsIntent(cfg, journal.records, sub, cfg.namespace, now);
          ending, result := Consider(sub, now);
      }
    }

    lemma {:induction false} Bound(before: seq<Record>, sub: Submission, now: real)
      requires Running() && before <= journal.records && Resubmits(cfg, before, sub)
      ensures Decision(sub, now).Replayed?
      ensures ResultOf(journal.records, IdOf(sub), true) == ResultOf(before, IdOf(sub), true)
    {
      Facts();
      ReplayedLater(cfg, before, journal.records, sub, now);
    }

    /** _submit_locked, and the release of the lock. */
    method Handle(sub: Submission, ghost before: seq<Record>) returns (ending: Ending, result: Option<Result>)
      requires Valid() && phase == Recovering([]) && before <= journal.records
      modifies this`ticks, this`phase, this`states, this`events, journal, adapter
      ensures Valid() && phase.Idle? && old(journal.records) <= journal.records && Once(sub)
      ensures honest ==> !ending.Raised? && (ending.Returned? ==> Quiet(journal.records))
      ensures ending.Returned? ==> result.Some?
      ensures Resubmits(cfg, before, sub) ==> Kept() && result == ResultOf(before, IdOf(sub), true)
    {
      if Resubmits(cfg, before, sub) {
        Bound(before, sub, clock(ticks));
      }
      ending, result := SubmitLocked(sub);
      if honest && ending.Returned? {
        Decided();
      }
      Leave();
    }

    /**
     submit: take the lock, recover, handle the submission, release the lock. Resubmitting a decided intent returns
     what the journal already held and does not touch the store.
     */
    method Submit(sub: Submission) returns (ending: Ending, result: Option<Result>)
      requires Valid() && phase.Idle?
      modifies this`ticks, this`phase, this`states, this`events, journal, adapter
      ensures Valid() && phase.Idle? && old(journal.records) <= journal.records && Once(sub)
      ensures honest ==> !ending.Raised? && (ending.Returned? ==> Quiet(journal.records))
      ensures ending.Returned? ==> result.Some?
      ensures Resubmits(cfg, old(journal.records), sub) ==>
                Kept() && (ending.Returned? ==> result == ResultOf(old(journal.records), IdOf(sub), true))
    {
      result := None;
      ending := Recover();
      if ending.Returned? {
        ending, result := Handle(sub, old(journal.records));
      }
    }
  }
}
