/**
 The admission test of vdb_c1/coordinator.py reads the clock once, and the recorded admission
 time is a later reading, rounded to microseconds and cut to milliseconds. Any admitted
 intent can be finalized whatever that reading is, so a finalized intent need not verify:
 the clock may have passed the expiry, or the cut may have moved the time before the window.
 */
module AdmissionTimes {
  import opened Options
  import opened States
  import opened Canon
  import opened Journals
  import opened Stores
  import opened Protocol
  import opened Verifier
  import opened Paths
  import opened Agreement
  import opened Finality
  import opened Completeness
  import opened Coordinators
  import Eee

  /** An honest run and what holds at its end. */
  ghost predicate ReachedBy(cfg: Config, ss: seq<State>, es: seq<Event>, s: State) {
    HonestTrace(cfg, ss, es) && ss[|ss| - 1] == s
  }

  lemma {:induction false} Extend(cfg: Config, ss: seq<State>, es: seq<Event>, s: State, e: Event, s': State)
    requires ReachedBy(cfg, ss, es, s) && HonestNext(cfg, s, e) == Some(s')
    ensures ReachedBy(cfg, ss + [s'], es + [e], s')
  {
    HonestSnoc(cfg, ss, es, e, s');
  }

  lemma {:induction false} EndFacts(cfg: Config, ss: seq<State>, es: seq<Event>, s: State)
    requires Configured(cfg) && ReachedBy(cfg, ss, es, s)
    ensures Inv(cfg, s) && Agrees(cfg, s)
  {
    RunAgrees(cfg, ss, es, |ss| - 1);
  }

  /** COMMITTING and the commit. */
  lemma {:induction false} CanCommit(cfg: Config, ss: seq<State>, es: seq<Event>, s: State, at: Stamp)
    returns (ss': seq<State>, es': seq<Event>, s': State)
    requires Configured(cfg) && ReachedBy(cfg, ss, es, s) && s.phase.Opened?
    ensures ReachedBy(cfg, ss', es', s') && s'.phase == Confirming(s.phase.id, [], false)
    ensures s.journal <= s'.journal
  {
    EndFacts(cfg, ss, es, s);
    BoundPrepares(cfg, s.journal, s.phase.id);
    NextExecute(cfg, s, at);
    var txn := TransactionOf(s.journal, s.store, s.phase.id);
    StepSucceeds(cfg, s, Execute(txn, at));
    var s1 := ExecuteStep(s, txn, at);
    Extend(cfg, ss, es, s, Execute(txn, at), s1);
    NextCommit(cfg, s1);
    s' := s1.(store := s1.phase.tentative, phase := Confirming(s.phase.id, [], false));
    Extend(cfg, ss + [s1], es + [Execute(txn, at)], s1, Event.Commit, s');
    ss', es' := ss + [s1] + [s'], es + [Execute(txn, at)] + [Event.Commit];
  }

  /** COMMITTED and FINALIZED. */
  lemma {:induction false} CanConfirm(cfg: Config, ss: seq<State>, es: seq<Event>, s: State, at: Stamp)
    returns (ss': seq<State>, es': seq<Event>, s': State)
    requires Configured(cfg) && ReachedBy(cfg, ss, es, s) && s.phase.Confirming? && s.store.namespace == cfg.namespace
    ensures ReachedBy(cfg, ss', es', s') && s.journal <= s'.journal && IsFinalized(s'.journal, s.phase.id)
    ensures s'.phase == Recovering(s.phase.todo)
  {
    EndFacts(cfg, ss, es, s);
    var id, row, post := s.phase.id, AppliedRow(s.store.applied, s.phase.id), Snap(s.store);
    var e := Confirm(row, post, at);
    BoundPrepares(cfg, s.journal, id);
    NextConfirm(cfg, s, at);
    StepSucceeds(cfg, s, e);
    var s1 := ConfirmStep(s, row, post, at);
    Extend(cfg, ss, es, s, e, s1);
    s' := CanFinalize(cfg, ss + [s1], es + [e], s1, at);
    ss', es' := ss + [s1] + [s'], es + [e] + [Event.Finalize(at)];
  }

  lemma {:induction false} CanFinalize(cfg: Config, ss: seq<State>, es: seq<Event>, s: State, at: Stamp)
    returns (s': State)
    requires Configured(cfg) && ReachedBy(cfg, ss, es, s) && s.phase.Finishing?
    ensures ReachedBy(cfg, ss + [s'], es + [Event.Finalize(at)], s')
    ensures s.journal <= s'.journal && IsFinalized(s'.journal, s.phase.id) && s'.phase == Recovering(s.phase.todo)
  {
    EndFacts(cfg, ss, es, s);
    NextFinalize(cfg, s, at);
    s' := HonestNext(cfg, s, Event.Finalize(at)).value;
    Extend(cfg, ss, es, s, Event.Finalize(at), s');
    var recs := Binding(s.journal, s.phase.id);
    var body := FinalizedBody(recs[0].body.hash, MakeCertificate(cfg, recs[0], recs[|recs| - 1]));
    LastAppended(s.journal, Finalized, s.phase.id, body, at);
  }

  /** From any quiet point an admitted submission can run to finality, whatever admission time is recorded. */
  lemma {:induction false} AdmittedFinalizes(cfg: Config, ss: seq<State>, es: seq<Event>, s: State, sub: Submission,
                                             now: real, admittedAt: Stamp, at: Stamp)
    returns (ss': seq<State>, es': seq<Event>, s': State)
    requires Configured(cfg) && ReachedBy(cfg, ss, es, s) && Ready(s) && s.store.namespace == cfg.namespace
    requires Decide(cfg, s.journal, sub, cfg.namespace, now).Accept? && sub.Envelope? && sub.signed.payload.Intent?
    requires PayloadOf(sub) == sub.signed.payload && Stale(PayloadOf(sub), Snap(s.store)).None? && admittedAt.Utc?
    ensures ReachedBy(cfg, ss', es', s') && IsFinalized(s'.journal, IdOf(sub)) && Ready(s')
    ensures Binding(s'.journal, IdOf(sub))[0].body == PreparedOf(sub.signed, Snap(s.store), admittedAt)
  {
    var id, body := IdOf(sub), PreparedOf(sub.signed, Snap(s.store), admittedAt);
    NextPrepare(cfg, s, sub, now, admittedAt, at);
    var e := Prepare(sub, cfg.namespace, now, Snap(s.store), admittedAt, at);
    var s1 := Put(s, Prepared, id, body, at, Opened(id));
    Extend(cfg, ss, es, s, e, s1);
    AppendBinding(s.journal, Prepared, id, body, at, id);
    var ss2, es2, s2 := CanCommit(cfg, ss + [s1], es + [e], s1, at);
    EndFacts(cfg, ss2, es2, s2);
    ss', es', s' := CanConfirm(cfg, ss2, es2, s2, at);
    BindingExtends(s1.journal, s2.journal, id);
    BindingExtends(s2.journal, s'.journal, id);
  }

  // ---------------------------------------------------------------- the verdict by clock readings

  /** The record of a PREPARED step stays the first one of its intent. */
  lemma {:induction false} PreparedStays(cfg: Config, ss: seq<State>, es: seq<Event>, i: nat, n: nat)
    requires Configured(cfg) && Trace(cfg, ss, es) && i < n < |ss| && es[i].Prepare?
    ensures var e := es[i];
            && e.sub.Envelope? && e.sub.signed.payload.Intent? && Binding(ss[n].journal, IdOf(e.sub)) != []
            && Binding(ss[n].journal, IdOf(e.sub))[0].body == PreparedOf(e.sub.signed, e.pre, e.admittedAt)
  {
    var e, id := es[i], IdOf(es[i].sub);
    assert Next(cfg, ss[i], es[i]) == Some(ss[i + 1]);
    AcceptIsIntent(cfg, ss[i].journal, e.sub, e.namespace, e.now);
    var body := PreparedOf(e.sub.signed, e.pre, e.admittedAt);
    AppendBinding(ss[i].journal, Prepared, id, body, e.at, id);
    AcceptIsUnbound(cfg, ss[i].journal, e.sub, e.namespace, e.now);
    RunExtends(cfg, ss, es, i + 1, n);
    BindingExtends(ss[i + 1].journal, ss[n].journal, id);
  }

  lemma {:induction false} AcceptIsUnbound(cfg: Config, j: seq<Record>, sub: Submission, namespace: string, now: real)
    requires Configured(cfg) && Decide(cfg, j, sub, namespace, now).Accept?
    ensures Binding(j, IdOf(sub)) == []
  {
  }

  /**
   In every run, the bundle of a finalized intent whose admission time was written from a clock reading is valid if
   and only if that reading, as format_time writes it, is inside the intent's window.
   */
  lemma {:induction false} VerdictByReading(cfg: Config, ss: seq<State>, es: seq<Event>, i: nat, n: nat, reading: real,
                                            trust: Trust)
    requires Configured(cfg) && Trace(cfg, ss, es) && i < n < |ss| && Trusts(trust, cfg)
    requires es[i].Prepare? && es[i].admittedAt == FormatTime(reading) && IsFinalized(ss[n].journal, IdOf(es[i].sub))
    ensures var p := PayloadOf(es[i].sub);
            && p.Intent? && p.issuedAt.Utc? && p.expiresAt.Utc?
            && Export(ss[n].journal, IdOf(es[i].sub), None).Some?
            && VerdictOf(Export(ss[n].journal, IdOf(es[i].sub), None).value, trust, false) ==
               if InWindow(FormatTime(reading), p) then Valid(L1) else Rejected(REJECTED_OUTSIDE_AUTHORITY_WINDOW)
  {
    PreparedStays(cfg, ss, es, i, n);
    PreparedPayload(cfg, ss, es, i);
    FinalizedVerifies(cfg, ss, es, n, IdOf(es[i].sub), trust);
  }

  lemma {:induction false} PreparedPayload(cfg: Config, ss: seq<State>, es: seq<Event>, i: nat)
    requires Trace(cfg, ss, es) && i < |es| && es[i].Prepare?
    ensures es[i].sub.Envelope? && PayloadOf(es[i].sub) == es[i].sub.signed.payload && PayloadOf(es[i].sub).Intent?
  {
    assert Next(cfg, ss[i], es[i]).Some?;
    AcceptIsIntent(cfg, ss[i].journal, es[i].sub, es[i].namespace, es[i].now);
  }

  lemma {:induction false} NearestIsNear(clock: real, t: int)
    ensures !Before(clock, t) ==> Nearest(clock) >= t
    ensures clock * 1000000.0 <= (t - 1) as real ==> Nearest(clock) < t
  {
  }

  /**
   By the clock alone: with a clock that does not go back and an issue time on a whole millisecond, what was admitted
   is recorded in the window if and only if the second reading is not cut to the expiry or later. It is enough that
   the reading is a microsecond before the expiry.
   */
  lemma {:induction false} InWindowByClock(now: real, reading: real, p: Payload)
    requires p.Intent? && p.issuedAt.Utc? && p.expiresAt.Utc? && p.issuedAt.at % 1000 == 0
    requires !Before(now, p.issuedAt.at - CLOCK_SKEW) && now <= reading
    ensures InWindow(FormatTime(reading), p) <==> FormatTime(reading).at < p.expiresAt.at
    ensures p.expiresAt.at % 1000 == 0 ==> (InWindow(FormatTime(reading), p) <==> Nearest(reading) < p.expiresAt.at)
    ensures reading * 1000000.0 <= (p.expiresAt.at - 1) as real ==> InWindow(FormatTime(reading), p)
  {
    var t, us := p.issuedAt.at - CLOCK_SKEW, Nearest(reading);
    LaterReading(now, reading, t);
    NearestIsNear(reading, t);
    NearestIsNear(reading, p.expiresAt.at);
    CutToMillis(us, t);
    CutToMillis(us, p.expiresAt.at);
  }

  lemma {:induction false} LaterReading(now: real, reading: real, t: int)
    requires !Before(now, t) && now <= reading
    ensures !Before(reading, t)
  {
  }

  lemma {:induction false} CutToMillis(us: int, t: int)
    ensures us - us % 1000 <= us
    ensures t % 1000 == 0 ==> (us - us % 1000 < t <==> us < t)
  {
  }

  // ---------------------------------------------------------------- finalized intents that do not verify

  const AUTHORITY: Key := 1
  const FINALIZER: Key := 2

  function Example(): Config {
    Config("ns", map[KidOf(AUTHORITY) := AUTHORITY], FINALIZER, id => id == "i")
  }

  function EmptyStore(): Store {
    Store("ns", "s", 0, [], [])
  }

  function Written(issued: int, expires: int): Payload {
    Intent(IntentV1, "i", "ns", UPSERT, "k", "v", 0, Snap(EmptyStore()).root, Utc(issued), Utc(expires),
           KidOf(AUTHORITY))
  }

  function Submitted(issued: int, expires: int): Submission {
    Envelope(ENVELOPE_KEYS, Sign(Written(issued, expires), AUTHORITY))
  }

  lemma {:induction false} WrittenIsAdmitted(issued: int, expires: int, now: real)
    requires issued < expires <= issued + MAX_TTL && !Before(now, issued - CLOCK_SKEW) && Before(now, expires)
    ensures Decide(Example(), [], Submitted(issued, expires), "ns", now).Accept?
    ensures Stale(Written(issued, expires), Snap(EmptyStore())).None?
  {
    SignVerifies(Written(issued, expires), AUTHORITY, map[KidOf(AUTHORITY) := AUTHORITY]);
    assert |"k"| == 1 && |"v"| == 1 && "k" != "";
  }

  /** Whatever the window, the admission reading and the recorded reading are, there is an honest run that finalizes. */
  lemma {:induction false} FinalizedAnyway(issued: int, expires: int, now: real, reading: real, trust: Trust)
    returns (ss: seq<State>, es: seq<Event>, s: State)
    requires issued < expires <= issued + MAX_TTL && !Before(now, issued - CLOCK_SKEW) && Before(now, expires)
    requires Trusts(trust, Example())
    ensures ReachedBy(Example(), ss, es, s) && IsFinalized(s.journal, "i") && Export(s.journal, "i", None).Some?
    ensures Ready(s) && Binding(s.journal, "i")[0].body ==
                        PreparedOf(Sign(Written(issued, expires), AUTHORITY), Snap(EmptyStore()), FormatTime(reading))
    ensures VerdictOf(Export(s.journal, "i", None).value, trust, false) ==
            if issued - CLOCK_SKEW <= FormatTime(reading).at < expires then Valid(L1)
            else Rejected(REJECTED_OUTSIDE_AUTHORITY_WINDOW)
  {
    var cfg, s0 := Example(), State([], EmptyStore(), Idle);
    WrittenIsAdmitted(issued, expires, now);
    NextAcquire(cfg, s0);
    var s1, at := s0.(phase := Recovering([])), FormatTime(reading);
    assert ReachedBy(cfg, [s0], [], s0);
    Extend(cfg, [s0], [], s0, Acquire, s1);
    ss, es, s := AdmittedFinalizes(cfg, [s0] + [s1], [] + [Acquire], s1, Submitted(issued, expires), now, at, at);
    HonestIsTrace(cfg, ss, es);
    FinalizedVerifies(cfg, ss, es, |ss| - 1, "i", trust);
  }

  lemma {:induction false} Readings()
    ensures FormatTime(1.0) == Utc(1_000_000) && FormatTime(0.0005) == Utc(0)
    ensures !Before(0.0, -5_000_000) && Before(0.0, 1_000_000) && !Before(0.0005, 500) && Before(0.0005, 6_000_000)
  {
    assert Nearest(1.0) == 1_000_000 && Nearest(0.0005) == 500;
  }

  /** The clock passes the expiry between the two readings: admitted at 0 s, recorded at 1 s, expired at 1 s. */
  lemma {:induction false} LateFails(trust: Trust) returns (ss: seq<State>, es: seq<Event>, s: State)
    requires Trusts(trust, Example())
    ensures ReachedBy(Example(), ss, es, s) && IsFinalized(s.journal, "i") && Export(s.journal, "i", None).Some?
    ensures VerdictOf(Export(s.journal, "i", None).value, trust, false) == Rejected(REJECTED_OUTSIDE_AUTHORITY_WINDOW)
  {
    Readings();
    ss, es, s := FinalizedAnyway(0, 1_000_000, 0.0, 1.0, trust);
  }

  /** The cut alone: both readings are 500 microseconds, the window opens there, and 0 is recorded. */
  lemma {:induction false} CutFails(trust: Trust) returns (ss: seq<State>, es: seq<Event>, s: State)
    requires Trusts(trust, Example())
    ensures ReachedBy(Example(), ss, es, s) && IsFinalized(s.journal, "i") && Export(s.journal, "i", None).Some?
    ensures VerdictOf(Export(s.journal, "i", None).value, trust, false) == Rejected(REJECTED_OUTSIDE_AUTHORITY_WINDOW)
  {
    Readings();
    ss, es, s := FinalizedAnyway(5_000_500, 6_000_000, 0.0005, 0.0005, trust);
  }

  // ---------------------------------------------------------------- the window of a refusal

  /** The journal ends with a refusal whose envelope has the given authority window. */
  ghost predicate RefusedWithin(j: seq<Record>, notBefore: Stamp, notAfter: Stamp) {
    && j != [] && j[|j| - 1].kind.AdmissionRejected?
    && var e := Eee.EnvelopeFor(j, j[|j| - 1]);
    e.Some? && e.value.notBefore == notBefore && e.value.notAfter == notAfter
  }

  /** A refusal under an id that was prepared before takes the window of the prepared intent. */
  lemma {:induction false} RefusalWindow(cfg: Config, j: seq<Record>, id: string, body: Body, at: Stamp, p: Payload)
    requires JournalOk(cfg, Append(j, AdmissionRejected, id, body, at)) && Binding(j, id) != []
    requires Binding(j, id)[0].body.PreparedBody? && p == Binding(j, id)[0].body.signedIntent.payload && p.Intent?
    ensures RefusedWithin(Append(j, AdmissionRejected, id, body, at), p.issuedAt, p.expiresAt)
  {
    var j' := Append(j, AdmissionRejected, id, body, at);
    var n := |j|;
    assert j'[..n + 1] == j' && j'[..n] == j && j'[n].intentId == id;
    AppendBinding(j, AdmissionRejected, id, body, at, id);
    Eee.EnvelopeExists(cfg, j', n);
  }

  lemma {:induction false} ConflictIsRefused(j: seq<Record>, now: real)
    requires Binding(j, "i") != [] && Binding(j, "i")[0].body.hash == IntentHash(Written(0, 1_000_000))
    ensures Decide(Example(), j, Submitted(0, 2_000_000), "ns", now) == Refused(E_INTENT_CONFLICT)
  {
    assert "i" != "unknown" by { assert |"i"| == 1 && |"unknown"| == 7; }
    assert Written(0, 1_000_000).expiresAt != Written(0, 2_000_000).expiresAt;
  }

  lemma {:induction false} EndJournal(cfg: Config, ss: seq<State>, es: seq<Event>, s: State)
    requires Configured(cfg) && ReachedBy(cfg, ss, es, s)
    ensures JournalOk(cfg, s.journal) && s.store.namespace == cfg.namespace
  {
    EndFacts(cfg, ss, es, s);
  }

  /** From any quiet point a refusable submission can be refused. */
  lemma {:induction false} CanRefuse(cfg: Config, ss: seq<State>, es: seq<Event>, s: State, sub: Submission, now: real,
                                     at: Stamp)
    returns (e: Event, s': State)
    requires Configured(cfg) && ReachedBy(cfg, ss, es, s) && Ready(s)
    requires Decide(cfg, s.journal, sub, cfg.namespace, now).Refused?
    ensures ReachedBy(cfg, ss + [s'], es + [e], s') && JournalOk(cfg, s'.journal)
    ensures s'.journal == Append(s.journal, AdmissionRejected, IdOf(sub),
                                 Rejection(IntentHash(PayloadOf(sub)),
                                           Decide(cfg, s.journal, sub, cfg.namespace, now).reason), at)
  {
    EndJournal(cfg, ss, es, s);
    NextReject(cfg, s, sub, now, at);
    e := Reject(sub, cfg.namespace, now, at);
    s' := HonestNext(cfg, s, e).value;
    Extend(cfg, ss, es, s, e, s');
    EndJournal(cfg, ss + [s'], es + [e], s');
  }

  lemma {:induction false} ConflictCanFollow(ss: seq<State>, es: seq<Event>, s: State)
    returns (ss': seq<State>, es': seq<Event>, s': State)
    requires ReachedBy(Example(), ss, es, s) && Ready(s) && Binding(s.journal, "i") != []
    requires var b := Binding(s.journal, "i")[0].body;
             && b.PreparedBody? && b.hash == IntentHash(Written(0, 1_000_000))
             && b.signedIntent.payload == Written(0, 1_000_000)
    ensures ReachedBy(Example(), ss', es', s') && RefusedWithin(s'.journal, Utc(0), Utc(1_000_000))
  {
    var cfg, sub, at := Example(), Submitted(0, 2_000_000), Utc(3_000_000);
    ConflictIsRefused(s.journal, 3.0);
    var e;
    e, s' := CanRefuse(cfg, ss, es, s, sub, 3.0, at);
    ss', es' := ss + [s'], es + [e];
    RefusalWindow(cfg, s.journal, "i", Rejection(IntentHash(PayloadOf(sub)), E_INTENT_CONFLICT), at,
                  Written(0, 1_000_000));
  }

  /** One id, two intents: the first is finalized, the second refused, with the window of the first. */
  lemma {:induction false} ConflictTakesWindow(trust: Trust) returns (ss: seq<State>, es: seq<Event>, s: State)
    requires Trusts(trust, Example())
    ensures ReachedBy(Example(), ss, es, s) && RefusedWithin(s.journal, Utc(0), Utc(1_000_000))
  {
    Readings();
    ss, es, s := FinalizedAnyway(0, 1_000_000, 0.0, 1.0, trust);
    ss, es, s := ConflictCanFollow(ss, es, s);
  }
}
