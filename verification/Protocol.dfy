/**
 The finality protocol of vdb_c1/coordinator.py as a transition system over the durable
 journal, the durable store and the volatile phase of the lock holder. Every step performs
 at most one durable action, and the process may die between any two of them.

 What a step reads from the store is part of the step, and somebody else may change the
 store between steps, so runs include every interference that keeps the namespace. Honest
 steps read what the store holds and are no outside writes.
 */
module Protocol {
  import opened Options
  import opened States
  import opened Canon
  import opened Journals
  import opened Stores

  /** The finalizer's keys, and uuid.UUID's acceptance of an intent id, which is left abstract. */
  datatype Config = Config(namespace: string, authority: map<Kid, Key>, finalizer: Key, isUuid: string -> bool)

  // ---------------------------------------------------------------- submissions and admission

  datatype Member = AlgMember | KidMember | PayloadMember | SigMember | OtherMember(name: string)

  const ENVELOPE_KEYS := {AlgMember, KidMember, PayloadMember, SigMember}

  /** What is submitted: not an object, or an object with some members, of which `signed` holds the known ones. */
  datatype Submission = NotADict | Envelope(members: set<Member>, signed: Signed<Payload>)

  function PayloadOf(sub: Submission): Payload {
    if sub.Envelope? && PayloadMember in sub.members then sub.signed.payload else NotAnObject
  }

  function IdOf(sub: Submission): string {
    match PayloadOf(sub)
    case Intent(_, id, _, _, _, _, _, _, _, _, _) => id
    case Loose(Some(id), _, _) => id
    case _ => "unknown"
  }

  predicate SignatureOk(sub: Submission, authority: map<Kid, Key>) {
    && sub.Envelope? && ENVELOPE_KEYS <= sub.members
    && Canonical(sub.signed.payload)
    && VerifySigned(sub.signed, authority)
  }

  /** _admission: the first reason to refuse, or None. */
  function Admission(cfg: Config, sub: Submission, namespace: string, now: real): Option<Reason> {
    if sub.NotADict? || sub.members != ENVELOPE_KEYS then Some(E_SCHEMA)
    else
      var p := sub.signed.payload;
      if !p.Intent? then Some(E_SCHEMA)
      else if p.expectedGeneration < 0 || |p.key| > MAX_KEY || |p.value| > MAX_VALUE || p.key == "" then Some(E_SCHEMA)
      else if !cfg.isUuid(p.intentId) || !p.issuedAt.Utc? || !p.expiresAt.Utc? then Some(E_SCHEMA)
      else if p.protocol != IntentV1 then Some(E_PROTOCOL)
      else if p.op != UPSERT then Some(E_OP)
      else if p.namespace != namespace then Some(E_NAMESPACE)
      else if sub.signed.kid != p.authorityKid then Some(E_KID_MISMATCH)
      else if sub.signed.kid !in cfg.authority then Some(E_UNTRUSTED_KEY)
      else if !SignatureOk(sub, cfg.authority) then Some(E_BAD_SIGNATURE)
      else
        var issued, expires := p.issuedAt.at, p.expiresAt.at;
        if expires - issued > MAX_TTL || expires <= issued then Some(E_TTL)
        else if Before(now, issued - CLOCK_SKEW) then Some(E_NOT_YET_VALID)
        else if !Before(now, expires) then Some(E_EXPIRED)
        else None
  }

  datatype Decision = Refused(reason: Reason) | Replayed | Accept

  /** What a submission comes to before the store is consulted. */
  function Decide(cfg: Config, j: seq<Record>, sub: Submission, namespace: string, now: real): Decision {
    var id := IdOf(sub);
    var bound := if id != "unknown" then Binding(j, id) else [];
    if bound != [] then
      if bound[0].body.hash != IntentHash(PayloadOf(sub)) then Refused(E_INTENT_CONFLICT)
      else if !SignatureOk(sub, cfg.authority) then Refused(E_BAD_SIGNATURE)
      else Replayed
    else
      match Admission(cfg, sub, namespace, now)
      case Some(reason) => Refused(reason)
      case None => Accept
  }

  /** The reason to reject on the precondition, or None. */
  function Stale(p: Payload, pre: Snapshot): Option<Reason>
    requires p.Intent?
  {
    if pre.generation != p.expectedGeneration then Some(E_STALE_GENERATION)
    else if pre.root != p.expectedRoot then Some(E_ROOT_MISMATCH)
    else None
  }

  // ---------------------------------------------------------------- record bodies

  function PreparedOf(signed: Signed<Payload>, pre: Snapshot, admittedAt: Stamp): Body
    requires signed.payload.Intent?
  {
    var p := signed.payload;
    PreparedBody(IntentHash(p), signed, admittedAt, pre.storeId, pre.generation, pre.root, pre.entries,
                 Commitment(p.op, p.key, p.value))
  }

  /** The problems _confirm_commit finds with the fresh read, in order. */
  function Problems(b: Body, row: Option<Row>, post: Snapshot): seq<Problem>
    requires b.PreparedBody? && b.signedIntent.payload.Intent?
  {
    var p := b.signedIntent.payload;
    (if row.None? || Some(row.value.intentHash) != b.hash then [AppliedRowDiffers] else [])
    + (if post.storeId != b.storeId then [StoreIdDiffers] else [])
    + (if row.Some? && !(post.generation == row.value.generation == b.preGeneration + 1) then [GenerationDiffers]
       else [])
    + (if row.Some? && post.root != row.value.postRoot then [PostRootDiffers] else [])
    + (if post.entries != PostEntries(b.preEntries, p.key, p.value) then [EntriesDiffer] else [])
  }

  function CommittedOf(b: Body, row: Row, post: Snapshot, recovered: bool): Body {
    CommittedBody(b.hash, post.generation, post.root, post.entries, row, Physical(WalFull, post.storeId), recovered)
  }

  predicate CanCertify(prepared: Record, committed: Record) {
    && prepared.body.PreparedBody? && prepared.body.hash.Some? && prepared.body.signedIntent.payload.Intent?
    && committed.body.CommittedBody?
  }

  /** _certificate: everything comes from the journal. */
  function MakeCertificate(cfg: Config, prepared: Record, committed: Record): Signed<Certificate>
    requires CanCertify(prepared, committed)
  {
    var pb, cb := prepared.body, committed.body;
    var p := pb.signedIntent.payload;
    Sign(Certificate(FinalityV1, prepared.intentId, pb.hash.value, p.namespace, p.authorityKid,
                     p.expectedGeneration, pb.preRoot, pb.payloadCommitment, cb.postGeneration, cb.postRoot,
                     cb.physical, cb.appliedRow, prepared.seqno, prepared.hash, committed.seqno, committed.hash,
                     committed.at, KidOf(cfg.finalizer)),
         cfg.finalizer)
  }

  // ---------------------------------------------------------------- states and events

  datatype Phase =
    /** Nobody holds the lock. */
    | Idle
    /** Recovery still has these intents to look at; with none left, a submission is handled. */
    | Recovering(todo: seq<string>)
    /** An uncertain intent was found not to be applied. */
    | Aborting(id: string, todo: seq<string>)
    /** The outcome is about to be confirmed by a fresh read. */
    | Confirming(id: string, todo: seq<string>, recovered: bool)
    /** COMMITTED is journaled and FINALIZED is next. */
    | Finishing(id: string, todo: seq<string>)
    /** PREPARED is journaled and the store transaction is next. */
    | Opened(id: string)
    /** COMMITTING is journaled inside the open transaction, which would leave the store as `tentative`. */
    | InTransaction(id: string, tentative: Store)

  datatype State = State(journal: seq<Record>, store: Store, phase: Phase)

  datatype Event =
    | Acquire
    /** The lock is released, or the process dies. */
    | Release
    | Inspect(row: Option<Row>, at: Stamp)
    | AbortUncertain(at: Stamp)
    | Confirm(row: Option<Row>, post: Snapshot, at: Stamp)
    | Finalize(at: Stamp)
    | Reject(sub: Submission, namespace: string, now: real, at: Stamp)
    | RejectPrecondition(sub: Submission, namespace: string, now: real, pre: Snapshot, at: Stamp)
    | Prepare(sub: Submission, namespace: string, now: real, pre: Snapshot, admittedAt: Stamp, at: Stamp)
    | Execute(txn: Transaction, at: Stamp)
    | Commit
    /** Somebody else changes the store, keeping its namespace. */
    | Outside(store: Store)

  /** The intents with a PREPARED record, in order of their first. */
  function PreparedIds(j: seq<Record>): (ids: seq<string>) {
    if j == [] then []
    else
      var ids, r := PreparedIds(j[..|j| - 1]), j[|j| - 1];
      if r.kind.Prepared? && r.intentId !in ids then ids + [r.intentId] else ids
  }

  function Put(s: State, kind: Label, id: string, body: Body, at: Stamp, phase: Phase): State {
    s.(journal := Append(s.journal, kind, id, body, at), phase := phase)
  }

  /** What the store can return under outside writers: a consistent snapshot of this namespace. */
  ghost predicate GoodRead(cfg: Config, snap: Snapshot) {
    && snap.namespace == cfg.namespace
    && snap.root == StateRoot(snap.namespace, snap.generation, snap.entries)
    && SortEntries(snap.entries) == snap.entries
  }

  ghost predicate GoodRow(row: Option<Row>, id: string) {
    row.Some? ==> row.value.intentId == id
  }

  function PreparedBodyOf(j: seq<Record>, id: string): Body
    requires Binding(j, id) != []
  {
    Binding(j, id)[0].body
  }

  function LastKind(j: seq<Record>, id: string): Label
    requires Binding(j, id) != []
  {
    var recs := Binding(j, id);
    recs[|recs| - 1].kind
  }

  ghost predicate Prepares(j: seq<Record>, id: string) {
    Binding(j, id) != [] &&
    var b := PreparedBodyOf(j, id);
    b.PreparedBody? && b.hash.Some? && b.signedIntent.payload.Intent?
  }

  function FindCommitted(recs: seq<Record>): Option<Record> {
    if recs == [] then None
    else if recs[0].kind.Committed? then Some(recs[0])
    else FindCommitted(recs[1..])
  }

  ghost predicate Certifiable(j: seq<Record>, id: string) {
    Prepares(j, id) &&
    var c := FindCommitted(Binding(j, id));
    c.Some? && c.value.body.CommittedBody?
  }

  // ---------------------------------------------------------------- steps

  /** _recover_one up to its first durable action. Prepared with an applied row raises RecoveryError. */
  ghost function InspectStep(s: State, row: Option<Row>, at: Stamp): State
    requires s.phase.Recovering? && s.phase.todo != [] && Binding(s.journal, s.phase.todo[0]) != []
  {
    var id, rest := s.phase.todo[0], s.phase.todo[1..];
    var hash := PreparedBodyOf(s.journal, id).hash;
    var resolve := if row.None? then Aborting(id, rest) else Confirming(id, rest, true);
    match LastKind(s.journal, id)
    case Prepared =>
      if row.Some? then s.(phase := Idle)
      else Put(s, Aborted, id, ReasonBody(hash, E_CRASH_BEFORE_STORAGE_TRANSACTION), at, Recovering(rest))
    case Committed => s.(phase := Finishing(id, rest))
    case Committing => Put(s, CommitUncertain, id, ReasonBody(hash, E_OUTCOME_UNKNOWN_AFTER_CRASH), at, resolve)
    case CommitUncertain => s.(phase := resolve)
    case _ => s.(phase := Recovering(rest))
  }

  /** _confirm_commit up to its first durable action. */
  ghost function ConfirmStep(s: State, row: Option<Row>, post: Snapshot, at: Stamp): State
    requires s.phase.Confirming? && Prepares(s.journal, s.phase.id)
  {
    var id := s.phase.id;
    var b := PreparedBodyOf(s.journal, id);
    var problems := Problems(b, row, post);
    var failed := if s.phase.recovered then Recovering(s.phase.todo) else Idle;
    if problems == [] then
      Put(s, Committed, id, CommittedOf(b, row.value, post, s.phase.recovered), at, Finishing(id, s.phase.todo))
    else if LastKind(s.journal, id) != CommitUncertain then
      Put(s, CommitUncertain, id, ReasonBody(b.hash, E_FRESH_READ_MISMATCH(problems)), at, failed)
    else s.(phase := failed)
  }

  ghost function ExecuteStep(s: State, txn: Transaction, at: Stamp): State
    requires s.phase.Opened? && Binding(s.journal, s.phase.id) != []
  {
    var id := s.phase.id;
    var hash := PreparedBodyOf(s.journal, id).hash;
    match txn
    case PreconditionFailed(reason) => Put(s, Aborted, id, ReasonBody(hash, reason), at, Recovering([]))
    case ConstraintViolated => s.(phase := Idle)
    case Mutated(store) => Put(s, Committing, id, CommittingBody(hash), at, InTransaction(id, store))
  }

  ghost predicate Ready(s: State) {
    s.phase == Recovering([])
  }

  ghost predicate Enabled(cfg: Config, s: State, e: Event) {
    match e
    case Acquire => s.phase.Idle?
    case Release => true
    case Inspect(row, _) =>
      && s.phase.Recovering? && s.phase.todo != [] && Binding(s.journal, s.phase.todo[0]) != []
      && GoodRow(row, s.phase.todo[0])
    case AbortUncertain(_) => s.phase.Aborting? && Binding(s.journal, s.phase.id) != []
    case Confirm(row, post, _) =>
      && s.phase.Confirming? && Prepares(s.journal, s.phase.id)
      && GoodRow(row, s.phase.id) && GoodRead(cfg, post)
    case Finalize(_) => s.phase.Finishing? && Certifiable(s.journal, s.phase.id)
    case Reject(sub, ns, now, _) => Ready(s) && Decide(cfg, s.journal, sub, ns, now).Refused?
    case RejectPrecondition(sub, ns, now, pre, _) =>
      && Ready(s) && ns == cfg.namespace && GoodRead(cfg, pre)
      && Decide(cfg, s.journal, sub, ns, now).Accept?
      && PayloadOf(sub).Intent? && Stale(PayloadOf(sub), pre).Some?
    case Prepare(sub, ns, now, pre, admittedAt, _) =>
      && Ready(s) && ns == cfg.namespace && GoodRead(cfg, pre) && admittedAt.Utc?
      && Decide(cfg, s.journal, sub, ns, now).Accept?
      && PayloadOf(sub).Intent? && Stale(PayloadOf(sub), pre).None?
    case Execute(_, _) => s.phase.Opened? && Prepares(s.journal, s.phase.id)
    case Commit => s.phase.InTransaction?
    case Outside(store) => !s.phase.InTransaction? && store.namespace == cfg.namespace
  }

  ghost function Step(cfg: Config, s: State, e: Event): State
    requires Enabled(cfg, s, e)
  {
    match e
    case Acquire => s.(phase := Recovering(PreparedIds(s.journal)))
    case Release => s.(phase := Idle)
    case Inspect(row, at) => InspectStep(s, row, at)
    case AbortUncertain(at) =>
      Put(s, Aborted, s.phase.id,
          ReasonBody(PreparedBodyOf(s.journal, s.phase.id).hash, E_STORAGE_COMMIT_NOT_DURABLE), at,
          Recovering(s.phase.todo))
    case Confirm(row, post, at) => ConfirmStep(s, row, post, at)
    case Finalize(at) =>
      var recs := Binding(s.journal, s.phase.id);
      Put(s, Finalized, s.phase.id,
          FinalizedBody(recs[0].body.hash, MakeCertificate(cfg, recs[0], FindCommitted(recs).value)), at,
          Recovering(s.phase.todo))
    case Reject(sub, ns, now, at) =>
      Put(s, AdmissionRejected, IdOf(sub),
          Rejection(IntentHash(PayloadOf(sub)), Decide(cfg, s.journal, sub, ns, now).reason), at, s.phase)
    case RejectPrecondition(sub, _, _, pre, at) =>
      Put(s, PreconditionRejected, IdOf(sub),
          PreconditionRejection(IntentHash(PayloadOf(sub)), Stale(PayloadOf(sub), pre).value, sub.signed,
                                pre.generation, pre.root), at, s.phase)
    case Prepare(sub, _, _, pre, admittedAt, at) =>
      Put(s, Prepared, IdOf(sub), PreparedOf(sub.signed, pre, admittedAt), at, Opened(IdOf(sub)))
    case Execute(txn, at) => ExecuteStep(s, txn, at)
    case Commit => s.(store := s.phase.tentative, phase := Confirming(s.phase.id, [], false))
    case Outside(store) => s.(store := store)
  }

  // ---------------------------------------------------------------- runs

  /** The state a new home starts in. */
  ghost predicate Initial(cfg: Config, s: State) {
    s.journal == [] && s.phase == Idle && s.store == Store(cfg.namespace, s.store.storeId, 0, [], [])
  }

  /** The state after an event, if the event can happen. */
  ghost function Next(cfg: Config, s: State, e: Event): Option<State> {
    if Enabled(cfg, s, e) then Some(Step(cfg, s, e)) else None
  }

  /** A run from a new home: the states and the events between them. */
  ghost predicate Trace(cfg: Config, ss: seq<State>, es: seq<Event>) {
    && |ss| == |es| + 1
    && Initial(cfg, ss[0])
    && forall i {:trigger es[i]} | 0 <= i < |es| :: Next(cfg, ss[i], es[i]) == Some(ss[i + 1])
  }

  /** The step reads what the store holds, and is no outside write. */
  ghost predicate Honest(s: State, e: Event) {
    match e
    case Inspect(row, _) =>
      s.phase.Recovering? && s.phase.todo != [] ==> row == AppliedRow(s.store.applied, s.phase.todo[0])
    case Confirm(row, post, _) =>
      s.phase.Confirming? ==> row == AppliedRow(s.store.applied, s.phase.id) && post == Snap(s.store)
    case Reject(_, ns, _, _) => ns == s.store.namespace
    case RejectPrecondition(_, ns, _, pre, _) => ns == s.store.namespace && pre == Snap(s.store)
    case Prepare(_, ns, _, pre, _, _) => ns == s.store.namespace && pre == Snap(s.store)
    case Execute(txn, _) =>
      s.phase.Opened? && Prepares(s.journal, s.phase.id) ==>
        var b := PreparedBodyOf(s.journal, s.phase.id);
        var p := b.signedIntent.payload;
        txn == Mutate(s.store, s.phase.id, b.hash.value, p.key, p.value, p.expectedGeneration, p.expectedRoot)
    case Outside(_) => false
    case _ => true
  }

  ghost function HonestNext(cfg: Config, s: State, e: Event): Option<State> {
    if Honest(s, e) then Next(cfg, s, e) else None
  }

  /** A run without outside writers. */
  ghost predicate HonestTrace(cfg: Config, ss: seq<State>, es: seq<Event>) {
    && |ss| == |es| + 1
    && Initial(cfg, ss[0])
    && forall i {:trigger es[i]} | 0 <= i < |es| :: HonestNext(cfg, ss[i], es[i]) == Some(ss[i + 1])
  }

  lemma {:induction false} HonestIsTrace(cfg: Config, ss: seq<State>, es: seq<Event>)
    requires HonestTrace(cfg, ss, es)
    ensures Trace(cfg, ss, es)
  {
    forall i | 0 <= i < |es|
      ensures Next(cfg, ss[i], es[i]) == Some(ss[i + 1])
    {
      assert HonestNext(cfg, ss[i], es[i]) == Some(ss[i + 1]);
    }
  }

  lemma {:induction false} HonestSnoc(cfg: Config, ss: seq<State>, es: seq<Event>, e: Event, s: State)
    requires HonestTrace(cfg, ss, es) && HonestNext(cfg, ss[|ss| - 1], e) == Some(s)
    ensures HonestTrace(cfg, ss + [s], es + [e])
  {
  }
}
