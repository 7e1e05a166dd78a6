/**
 What every run without outside writers keeps between the journal and the store: each
 applied row belongs to a journaled intent, generations count the applied intents, the
 store is the fold of their signed UPSERTs, and at most one intent is undecided.
 */
module Agreement {
  import opened Options
  import opened States
  import opened Canon
  import opened Journals
  import opened Stores
  import opened Protocol
  import opened Paths

  // ---------------------------------------------------------------- the invariant

  /** The signed UPSERTs of a list of applied rows, performed in order on an empty store. */
  ghost function Fold(j: seq<Record>, rows: seq<Row>): map<string, string> {
    if rows == [] then map[]
    else
      var m, id := Fold(j, rows[..|rows| - 1]), rows[|rows| - 1].intentId;
      if Prepares(j, id) then
        var p := PreparedBodyOf(j, id).signedIntent.payload;
        m[p.key := p.value]
      else m
  }

  /** A path on which the effect may be durable. */
  predicate MayBeApplied(kinds: seq<Label>) {
    |kinds| >= 2 && kinds[1].Committing? && !kinds[|kinds| - 1].Aborted?
  }

  ghost predicate RowOk(j: seq<Record>, row: Row) {
    && Prepares(j, row.intentId)
    && Some(row.intentHash) == PreparedBodyOf(j, row.intentId).hash
    && MayBeApplied(Kinds(Binding(j, row.intentId)))
  }

  ghost predicate RowsOk(j: seq<Record>, applied: seq<Row>) {
    && (forall i | 0 <= i < |applied| :: applied[i].generation == i + 1)
    && (forall i | 0 <= i < |applied| :: RowOk(j, applied[i]))
    && (forall i, k | 0 <= i < k < |applied| :: applied[i].intentId != applied[k].intentId)
  }

  ghost predicate IsConfirmed(j: seq<Record>, id: string) {
    Committed in Kinds(Binding(j, id))
  }

  ghost predicate StoreOk(cfg: Config, j: seq<Record>, st: Store) {
    && st.namespace == cfg.namespace
    && DistinctKeys(st.kv)
    && st.generation == |st.applied|
    && RowsOk(j, st.applied)
    && View(st.kv) == Fold(j, st.applied)
    && (forall id | IsConfirmed(j, id) :: AppliedRow(st.applied, id).Some?)
  }

  /** An intent with a PREPARED record and no terminal one. */
  ghost predicate IsOpen(j: seq<Record>, id: string) {
    Binding(j, id) != [] && !IsTerminal(LastKind(j, id))
  }

  /** The store is exactly before, or exactly after, the transaction of an unconfirmed open intent. */
  ghost predicate Pending(cfg: Config, j: seq<Record>, st: Store, id: string) {
    && Prepares(j, id)
    && (IsConfirmed(j, id) ||
        var b := PreparedBodyOf(j, id);
        && b.storeId == st.storeId
        && match AppliedRow(st.applied, id)
           case None => st.generation == b.preGeneration && SortEntries(st.kv) == b.preEntries
           case Some(row) =>
             && !LastKind(j, id).Prepared?
             && row.generation == st.generation == b.preGeneration + 1
             && row.postRoot == StateRoot(cfg.namespace, st.generation, st.kv)
             && SortEntries(st.kv) ==
                PostEntries(b.preEntries, b.signedIntent.payload.key, b.signedIntent.payload.value))
  }

  ghost predicate OpenOk(cfg: Config, j: seq<Record>, st: Store) {
    && (forall id | IsOpen(j, id) :: Pending(cfg, j, st, id))
    && (forall id, other | IsOpen(j, id) && IsOpen(j, other) :: id == other)
  }

  ghost predicate PhaseAgrees(s: State) {
    match s.phase
    case Idle => true
    case Recovering(todo) => forall id | IsOpen(s.journal, id) :: id in todo
    case Aborting(id, _) => AppliedRow(s.store.applied, id).None?
    case Confirming(id, _, _) => AppliedRow(s.store.applied, id).Some?
    case Finishing(id, _) => true
    case Opened(id) => AppliedRow(s.store.applied, id).None?
    case InTransaction(id, tentative) =>
      && AppliedRow(s.store.applied, id).None?
      && Prepares(s.journal, id)
      && TransactionOf(s.journal, s.store, id) == Mutated(tentative)
  }

  /** The transaction of a prepared intent on a store. */
  ghost function TransactionOf(j: seq<Record>, st: Store, id: string): Transaction
    requires Prepares(j, id)
  {
    var b := PreparedBodyOf(j, id);
    var p := b.signedIntent.payload;
    Mutate(st, id, b.hash.value, p.key, p.value, p.expectedGeneration, p.expectedRoot)
  }

  ghost predicate Agrees(cfg: Config, s: State) {
    StoreOk(cfg, s.journal, s.store) && OpenOk(cfg, s.journal, s.store) && PhaseAgrees(s)
  }

  // ---------------------------------------------------------------- the journal grows

  /** j' extends j for every intent; the first binding record never changes. */
  ghost predicate Grows(j: seq<Record>, j': seq<Record>) {
    forall id :: Binding(j, id) <= Binding(j', id)
  }

  lemma {:induction false} FoldStable(j: seq<Record>, j': seq<Record>, rows: seq<Row>)
    requires Grows(j, j') && forall i | 0 <= i < |rows| :: Prepares(j, rows[i].intentId)
    ensures Fold(j, rows) == Fold(j', rows)
    decreases |rows|
  {
    if rows != [] {
      FoldStable(j, j', rows[..|rows| - 1]);
      var id := rows[|rows| - 1].intentId;
      assert Prepares(j, id) && Binding(j, id) <= Binding(j', id);
      assert Binding(j', id)[0] == Binding(j, id)[0];
    }
  }

  /** Only the intent appended to gets a longer path, by the appended kind. */
  ghost predicate Appended(j: seq<Record>, j': seq<Record>, id: string, kind: Label) {
    && Grows(j, j')
    && (forall other | other != id :: Binding(j', other) == Binding(j, other))
    && |Binding(j', id)| == |Binding(j, id)| + 1
    && Kinds(Binding(j', id)) == Kinds(Binding(j, id)) + [kind]
    && LastKind(j', id) == kind
  }

  lemma {:induction false} AppendAppended(j: seq<Record>, kind: Label, id: string, body: Body, at: Stamp)
    requires IsBinding(kind)
    ensures Appended(j, Append(j, kind, id, body, at), id, kind)
  {
    var j' := Append(j, kind, id, body, at);
    forall other
      ensures Binding(j, other) <= Binding(j', other)
      ensures other != id ==> Binding(j', other) == Binding(j, other)
    {
      AppendBinding(j, kind, id, body, at, other);
    }
    AppendBinding(j, kind, id, body, at, id);
  }

  lemma {:induction false} RowStays(j: seq<Record>, j': seq<Record>, id: string, kind: Label, row: Row)
    requires Appended(j, j', id, kind) && RowOk(j, row) && (row.intentId == id ==> !kind.Aborted?)
    ensures RowOk(j', row)
  {
    assert Binding(j, row.intentId) <= Binding(j', row.intentId);
    assert Binding(j', row.intentId)[0] == Binding(j, row.intentId)[0];
    if row.intentId == id {
      var kinds := Kinds(Binding(j, id));
      assert (kinds + [kind])[1] == kinds[1];
    }
  }

  /** A record that neither aborts an applied intent nor confirms an unapplied one keeps journal and store in step. */
  lemma {:induction false} AppendKeepsStore(cfg: Config, j: seq<Record>, j': seq<Record>, st: Store, id: string,
                                            kind: Label)
    requires StoreOk(cfg, j, st) && Appended(j, j', id, kind)
    requires kind.Aborted? ==> AppliedRow(st.applied, id).None?
    requires kind.Committed? ==> AppliedRow(st.applied, id).Some?
    ensures StoreOk(cfg, j', st)
  {
    forall i | 0 <= i < |st.applied|
      ensures RowOk(j', st.applied[i])
    {
      RowStays(j, j', id, kind, st.applied[i]);
    }
    FoldStable(j, j', st.applied);
    forall other | IsConfirmed(j', other)
      ensures AppliedRow(st.applied, other).Some?
    {
      if other != id || !kind.Committed? {
        assert IsConfirmed(j, other);
      }
    }
  }

  /** An intent that reaches a terminal record leaves nothing open. */
  lemma {:induction false} CloseKeepsOpen(cfg: Config, j: seq<Record>, j': seq<Record>, st: Store, id: string,
                                          kind: Label)
    requires OpenOk(cfg, j, st) && IsOpen(j, id) && Appended(j, j', id, kind) && IsTerminal(kind)
    ensures OpenOk(cfg, j', st) && forall other :: !IsOpen(j', other)
  {
    forall other
      ensures !IsOpen(j', other)
    {
      NoneLeftOpen(j, j', id, kind, other);
    }
  }

  lemma {:induction false} NoneLeftOpen(j: seq<Record>, j': seq<Record>, id: string, kind: Label, other: string)
    requires IsOpen(j, id) && (IsOpen(j, other) ==> other == id) && Appended(j, j', id, kind) && IsTerminal(kind)
    ensures !IsOpen(j', other)
  {
    if other != id {
      assert Binding(j', other) == Binding(j, other);
    }
  }

  /** A record that keeps an open intent open keeps it pending. */
  lemma {:induction false} ContinueKeepsOpen(cfg: Config, j: seq<Record>, j': seq<Record>, st: Store, id: string,
                                             kind: Label)
    requires OpenOk(cfg, j, st) && IsOpen(j, id) && Appended(j, j', id, kind)
    requires kind in {Committing, CommitUncertain, Committed}
    ensures OpenOk(cfg, j', st) && IsOpen(j', id)
  {
    assert Pending(cfg, j, st, id);
    assert Binding(j, id) <= Binding(j', id);
    assert Binding(j', id)[0] == Binding(j, id)[0];
    forall other | IsOpen(j', other)
      ensures other == id
    {
      assert other != id ==> IsOpen(j, other);
    }
    if !IsConfirmed(j', id) {
      assert !IsConfirmed(j, id);
    }
  }

  // ---------------------------------------------------------------- what honest reads return

  lemma {:induction false} SnapIsGood(cfg: Config, st: Store)
    requires st.namespace == cfg.namespace
    ensures GoodRead(cfg, Snap(st))
  {
    SortEntriesIdempotent(st.kv);
  }

  /** Facts about the open intent of a phase. */
  lemma {:induction false} OpenFacts(cfg: Config, s: State, id: string)
    requires Inv(cfg, s) && Agrees(cfg, s) && IsOpen(s.journal, id)
    ensures PreparedOk(cfg, id, Binding(s.journal, id)[0]) && Pending(cfg, s.journal, s.store, id)
    ensures forall other | IsOpen(s.journal, other) :: other == id
  {
    IntentsOk(cfg, s.journal, id);
    FirstIsPrepared(cfg, id, Binding(s.journal, id));
  }

  /** A fresh read without an outside writer always confirms an applied intent. */
  lemma {:induction false} HonestConfirmSucceeds(cfg: Config, s: State, id: string)
    requires Inv(cfg, s) && Agrees(cfg, s) && IsOpen(s.journal, id) && !IsConfirmed(s.journal, id)
    requires AppliedRow(s.store.applied, id).Some? && Prepares(s.journal, id)
    ensures Problems(PreparedBodyOf(s.journal, id), AppliedRow(s.store.applied, id), Snap(s.store)) == []
  {
    OpenFacts(cfg, s, id);
    var row := AppliedRow(s.store.applied, id).value;
    var i :| 0 <= i < |s.store.applied| && s.store.applied[i] == row;
    assert RowOk(s.journal, s.store.applied[i]);
  }

  /** Without an outside writer the transaction neither fails its precondition nor hits a constraint. */
  lemma {:induction false} HonestExecuteMutates(cfg: Config, s: State, id: string)
    requires Inv(cfg, s) && Agrees(cfg, s) && IsOpen(s.journal, id) && !IsConfirmed(s.journal, id)
    requires AppliedRow(s.store.applied, id).None? && Prepares(s.journal, id)
    ensures TransactionOf(s.journal, s.store, id).Mutated?
  {
    OpenFacts(cfg, s, id);
    var b := PreparedBodyOf(s.journal, id);
    SortEntriesIdempotent(s.store.kv);
    forall r | r in s.store.applied
      ensures r.intentId != id && r.generation != s.store.generation + 1
    {
      var i :| 0 <= i < |s.store.applied| && s.store.applied[i] == r;
      assert s.store.applied[i].generation == i + 1;
    }
  }

  // ---------------------------------------------------------------- steps keep the agreement

  lemma {:induction false} AppliedSnoc(applied: seq<Row>, row: Row, id: string)
    ensures AppliedRow(applied + [row], id) ==
            if AppliedRow(applied, id).Some? then AppliedRow(applied, id)
            else if row.intentId == id then Some(row) else None
  {
    if applied != [] {
      AppliedSnoc(applied[1..], row, id);
      assert (applied + [row])[1..] == applied[1..] + [row];
    }
  }

  lemma {:induction false} CommitKeepsRows(j: seq<Record>, applied: seq<Row>, row: Row)
    requires RowsOk(j, applied) && AppliedRow(applied, row.intentId).None?
    requires RowOk(j, row) && row.generation == |applied| + 1
    ensures RowsOk(j, applied + [row])
  {
    forall i | 0 <= i < |applied|
      ensures applied[i].intentId != row.intentId
    {
      assert applied[i] in applied;
    }
  }

  lemma {:induction false} CommitKeepsStore(cfg: Config, j: seq<Record>, st: Store, id: string, st': Store)
    requires StoreOk(cfg, j, st) && Prepares(j, id) && MayBeApplied(Kinds(Binding(j, id)))
    requires AppliedRow(st.applied, id).None? && TransactionOf(j, st, id) == Mutated(st')
    ensures StoreOk(cfg, j, st')
  {
    var p := PreparedBodyOf(j, id).signedIntent.payload;
    var row := st'.applied[|st.applied|];
    UpsertKeys(st.kv, p.key, p.value);
    UpsertView(st.kv, p.key, p.value);
    assert st'.applied[..|st.applied|] == st.applied;
    CommitKeepsRows(j, st.applied, row);
    forall other | IsConfirmed(j, other)
      ensures AppliedRow(st'.applied, other).Some?
    {
      AppliedSnoc(st.applied, row, other);
    }
  }

  lemma {:induction false} CommitKeepsPending(cfg: Config, j: seq<Record>, st: Store, id: string, st': Store)
    requires StoreOk(cfg, j, st) && Pending(cfg, j, st, id) && !IsConfirmed(j, id) && !LastKind(j, id).Prepared?
    requires AppliedRow(st.applied, id).None? && TransactionOf(j, st, id) == Mutated(st')
    ensures Pending(cfg, j, st', id) && AppliedRow(st'.applied, id).Some?
  {
    var p := PreparedBodyOf(j, id).signedIntent.payload;
    AppliedSnoc(st.applied, st'.applied[|st.applied|], id);
    UpsertEntries(st.kv, p.key, p.value);
  }

  lemma {:induction false} CommitAgrees(cfg: Config, s: State)
    requires Inv(cfg, s) && Agrees(cfg, s) && s.phase.InTransaction?
    ensures Agrees(cfg, s.(store := s.phase.tentative, phase := Confirming(s.phase.id, [], false)))
  {
    var id, st' := s.phase.id, s.phase.tentative;
    LastOfKinds(Binding(s.journal, id));
    assert IsOpen(s.journal, id) && !IsConfirmed(s.journal, id);
    CommitKeepsStore(cfg, s.journal, s.store, id, st');
    CommitKeepsPending(cfg, s.journal, s.store, id, st');
    forall other | IsOpen(s.journal, other)
      ensures Pending(cfg, s.journal, st', other)
    {
      assert other == id;
    }
  }

  lemma {:induction false} AcquireAgrees(cfg: Config, s: State)
    requires Inv(cfg, s) && Agrees(cfg, s) && s.phase.Idle?
    ensures Agrees(cfg, Step(cfg, s, Acquire))
  {
    forall id | IsOpen(s.journal, id)
      ensures id in PreparedIds(s.journal)
    {
      IntentsOk(cfg, s.journal, id);
      FirstIsPrepared(cfg, id, Binding(s.journal, id));
      PreparedIdsComplete(s.journal, id);
    }
  }

  lemma {:induction false} PreparedIdsComplete(j: seq<Record>, id: string)
    requires Binding(j, id) != [] && Binding(j, id)[0].kind.Prepared?
    ensures id in PreparedIds(j)
  {
    var before, r := j[..|j| - 1], j[|j| - 1];
    if Binding(before, id) != [] {
      PreparedIdsComplete(before, id);
    }
  }

  lemma {:induction false} PreparedIdsBound(j: seq<Record>, id: string)
    requires id in PreparedIds(j)
    ensures Binding(j, id) != []
  {
    var before, r := j[..|j| - 1], j[|j| - 1];
    if id in PreparedIds(before) {
      PreparedIdsBound(before, id);
    }
  }

  /** A record that keeps the open intent of the phase open. */
  lemma {:induction false} ContinueAgrees(cfg: Config, j: seq<Record>, st: Store, kind: Label, id: string, body: Body,
                                          at: Stamp)
    requires StoreOk(cfg, j, st) && OpenOk(cfg, j, st) && IsOpen(j, id)
    requires kind in {Committing, CommitUncertain, Committed}
    requires kind.Committed? ==> AppliedRow(st.applied, id).Some?
    ensures var j' := Append(j, kind, id, body, at);
            StoreOk(cfg, j', st) && OpenOk(cfg, j', st) && IsOpen(j', id)
  {
    var j' := Append(j, kind, id, body, at);
    AppendAppended(j, kind, id, body, at);
    AppendKeepsStore(cfg, j, j', st, id, kind);
    ContinueKeepsOpen(cfg, j, j', st, id, kind);
  }

  /** An intent that is only prepared is never applied, so recovery never meets the forbidden case. */
  lemma {:induction false} PreparedIsUnapplied(cfg: Config, s: State, id: string)
    requires Inv(cfg, s) && Agrees(cfg, s) && Binding(s.journal, id) != [] && LastKind(s.journal, id).Prepared?
    ensures AppliedRow(s.store.applied, id).None?
  {
    IntentsOk(cfg, s.journal, id);
    LastKindIs(cfg, id, Binding(s.journal, id));
    assert IsOpen(s.journal, id);
    assert Pending(cfg, s.journal, s.store, id);
  }

  lemma {:induction false} InspectPreparedAgrees(cfg: Config, s: State, at: Stamp)
    requires Inv(cfg, s) && Agrees(cfg, s) && Enabled(cfg, s, Inspect(None, at))
    requires LastKind(s.journal, s.phase.todo[0]).Prepared? && AppliedRow(s.store.applied, s.phase.todo[0]).None?
    ensures Agrees(cfg, InspectStep(s, None, at))
  {
    var id := s.phase.todo[0];
    CloseAgrees(cfg, s, Aborted, id,
                ReasonBody(PreparedBodyOf(s.journal, id).hash, E_CRASH_BEFORE_STORAGE_TRANSACTION), at,
                s.phase.todo[1..]);
  }

  lemma {:induction false} InspectCommittingAgrees(cfg: Config, s: State, row: Option<Row>, at: Stamp)
    requires Inv(cfg, s) && Agrees(cfg, s) && Enabled(cfg, s, Inspect(row, at)) && Honest(s, Inspect(row, at))
    requires LastKind(s.journal, s.phase.todo[0]).Committing?
    ensures Agrees(cfg, InspectStep(s, row, at))
  {
    var id, j := s.phase.todo[0], s.journal;
    InspectCommittingIs(s, row, at);
    UncertainAgrees(cfg, j, s.store, id, ReasonBody(PreparedBodyOf(j, id).hash, E_OUTCOME_UNKNOWN_AFTER_CRASH), at,
                    s.phase.todo[1..]);
  }

  lemma {:induction false} InspectCommittingIs(s: State, row: Option<Row>, at: Stamp)
    requires s.phase.Recovering? && s.phase.todo != [] && Binding(s.journal, s.phase.todo[0]) != []
    requires LastKind(s.journal, s.phase.todo[0]).Committing?
    ensures var id, rest := s.phase.todo[0], s.phase.todo[1..];
            var body := ReasonBody(PreparedBodyOf(s.journal, id).hash, E_OUTCOME_UNKNOWN_AFTER_CRASH);
            InspectStep(s, row, at) ==
            State(Append(s.journal, CommitUncertain, id, body, at), s.store,
                  if row.None? then Aborting(id, rest) else Confirming(id, rest, true))
  {
  }

  lemma {:induction false} UncertainAgrees(cfg: Config, j: seq<Record>, st: Store, id: string, body: Body, at: Stamp,
                                           rest: seq<string>)
    requires StoreOk(cfg, j, st) && OpenOk(cfg, j, st) && IsOpen(j, id)
    ensures var row := AppliedRow(st.applied, id);
            Agrees(cfg, State(Append(j, CommitUncertain, id, body, at), st,
                              if row.None? then Aborting(id, rest) else Confirming(id, rest, true)))
  {
    ContinueAgrees(cfg, j, st, CommitUncertain, id, body, at);
    ResolveAgrees(cfg, Append(j, CommitUncertain, id, body, at), st, id, rest);
  }

  lemma {:induction false} ResolveAgrees(cfg: Config, j: seq<Record>, st: Store, id: string, rest: seq<string>)
    requires StoreOk(cfg, j, st) && OpenOk(cfg, j, st)
    ensures var row := AppliedRow(st.applied, id);
            Agrees(cfg, State(j, st, if row.None? then Aborting(id, rest) else Confirming(id, rest, true)))
  {
  }

  lemma {:induction false} DropDecided(j: seq<Record>, todo: seq<string>)
    requires todo != [] && forall id | IsOpen(j, id) :: id in todo
    ensures !IsOpen(j, todo[0]) ==> forall id | IsOpen(j, id) :: id in todo[1..]
  {
    assert todo == [todo[0]] + todo[1..];
  }

  lemma {:induction false} SwitchPhase(cfg: Config, s: State, phase: Phase)
    requires Agrees(cfg, s) && PhaseAgrees(s.(phase := phase))
    ensures Agrees(cfg, s.(phase := phase))
  {
  }

  /** Recovery decides what to do next without a durable action. */
  lemma {:induction false} InspectRestAgrees(cfg: Config, s: State, row: Option<Row>, at: Stamp)
    requires Agrees(cfg, s) && Enabled(cfg, s, Inspect(row, at)) && Honest(s, Inspect(row, at))
    requires LastKind(s.journal, s.phase.todo[0]) !in {Prepared, Committing}
    ensures InspectStep(s, row, at) == s.(phase := InspectStep(s, row, at).phase)
    ensures PhaseAgrees(InspectStep(s, row, at))
  {
    LastIsBinding(s.journal, s.phase.todo[0]);
    DropDecided(s.journal, s.phase.todo);
  }

  lemma {:induction false} InspectAgrees(cfg: Config, s: State, row: Option<Row>, at: Stamp)
    requires Inv(cfg, s) && Agrees(cfg, s) && Enabled(cfg, s, Inspect(row, at)) && Honest(s, Inspect(row, at))
    ensures Agrees(cfg, InspectStep(s, row, at))
    ensures LastKind(s.journal, s.phase.todo[0]).Prepared? ==> row.None?
  {
    var id, j := s.phase.todo[0], s.journal;
    if LastKind(j, id).Prepared? {
      PreparedIsUnapplied(cfg, s, id);
      InspectPreparedAgrees(cfg, s, at);
    } else if LastKind(j, id).Committing? {
      InspectCommittingAgrees(cfg, s, row, at);
    } else {
      InspectRestAgrees(cfg, s, row, at);
      SwitchPhase(cfg, s, InspectStep(s, row, at).phase);
    }
  }

  lemma {:induction false} ConfirmAgrees(cfg: Config, s: State, row: Option<Row>, post: Snapshot, at: Stamp)
    requires Inv(cfg, s) && Agrees(cfg, s) && Enabled(cfg, s, Confirm(row, post, at))
    requires Honest(s, Confirm(row, post, at))
    ensures Agrees(cfg, ConfirmStep(s, row, post, at))
    ensures Problems(PreparedBodyOf(s.journal, s.phase.id), row, post) == []
  {
    var id, j := s.phase.id, s.journal;
    LastOfKinds(Binding(j, id));
    assert IsOpen(j, id) && !IsConfirmed(j, id);
    HonestConfirmSucceeds(cfg, s, id);
    var b := PreparedBodyOf(j, id);
    ContinueAgrees(cfg, j, s.store, Committed, id, CommittedOf(b, row.value, post, s.phase.recovered), at);
  }

  /** A terminal record for the open intent of the phase, with the store untouched. */
  lemma {:induction false} CloseAgrees(cfg: Config, s: State, kind: Label, id: string, body: Body, at: Stamp,
                                       todo: seq<string>)
    requires Agrees(cfg, s) && IsOpen(s.journal, id) && kind in {Aborted, Finalized}
    requires kind.Aborted? ==> AppliedRow(s.store.applied, id).None?
    ensures Agrees(cfg, Put(s, kind, id, body, at, Recovering(todo)))
  {
    var j' := Append(s.journal, kind, id, body, at);
    AppendAppended(s.journal, kind, id, body, at);
    AppendKeepsStore(cfg, s.journal, j', s.store, id, kind);
    CloseKeepsOpen(cfg, s.journal, j', s.store, id, kind);
  }

  lemma {:induction false} UnboundUnapplied(cfg: Config, j: seq<Record>, st: Store, id: string)
    requires StoreOk(cfg, j, st) && Binding(j, id) == []
    ensures AppliedRow(st.applied, id).None?
  {
    forall i | 0 <= i < |st.applied|
      ensures st.applied[i].intentId != id
    {
      assert RowOk(j, st.applied[i]);
    }
  }

  lemma {:induction false} NewlyOpen(j: seq<Record>, j': seq<Record>, id: string)
    requires (forall other :: !IsOpen(j, other)) && Appended(j, j', id, Prepared)
    ensures forall other | IsOpen(j', other) :: other == id
  {
    forall other | IsOpen(j', other) && other != id
      ensures false
    {
      assert Binding(j', other) == Binding(j, other);
      assert IsOpen(j, other);
    }
  }

  /** With nothing open, preparing an intent on a fresh read opens it, pending on the current store. */
  lemma {:induction false} PrepareOpens(cfg: Config, j: seq<Record>, j': seq<Record>, st: Store, id: string, r: Record)
    requires StoreOk(cfg, j, st) && (forall other :: !IsOpen(j, other))
    requires Binding(j, id) == [] && Appended(j, j', id, Prepared) && Binding(j', id) == [r]
    requires r.body.PreparedBody? && r.body.hash.Some? && r.body.signedIntent.payload.Intent?
    requires r.body.storeId == st.storeId && r.body.preGeneration == st.generation
    requires r.body.preEntries == SortEntries(st.kv)
    ensures StoreOk(cfg, j', st) && OpenOk(cfg, j', st) && AppliedRow(st.applied, id).None?
  {
    UnboundUnapplied(cfg, j, st, id);
    AppendKeepsStore(cfg, j, j', st, id, Prepared);
    NewlyOpen(j, j', id);
  }

  lemma {:induction false} PrepareAgrees(cfg: Config, s: State, e: Event)
    requires Configured(cfg) && Agrees(cfg, s) && e.Prepare? && Enabled(cfg, s, e) && Honest(s, e)
    ensures Agrees(cfg, Put(s, Prepared, IdOf(e.sub), PreparedOf(e.sub.signed, e.pre, e.admittedAt), e.at,
                            Opened(IdOf(e.sub))))
  {
    var id, body, j := IdOf(e.sub), PreparedOf(e.sub.signed, e.pre, e.admittedAt), s.journal;
    var r := NextRecord(j, Prepared, id, body, e.at);
    AcceptedIsOk(cfg, j, e.sub, e.now, e.pre, e.admittedAt, r);
    AppendAppended(j, Prepared, id, body, e.at);
    AppendBinding(j, Prepared, id, body, e.at, id);
    PrepareOpens(cfg, j, Append(j, Prepared, id, body, e.at), s.store, id, r);
  }

  lemma {:induction false} ExecuteAgrees(cfg: Config, s: State, txn: Transaction, at: Stamp)
    requires Inv(cfg, s) && Agrees(cfg, s) && Enabled(cfg, s, Execute(txn, at)) && Honest(s, Execute(txn, at))
    ensures Agrees(cfg, ExecuteStep(s, txn, at)) && txn.Mutated?
  {
    var id, j := s.phase.id, s.journal;
    LastOfKinds(Binding(j, id));
    assert IsOpen(j, id) && !IsConfirmed(j, id);
    HonestExecuteMutates(cfg, s, id);
    var j' := ExecuteStep(s, txn, at).journal;
    ContinueAgrees(cfg, j, s.store, Committing, id, CommittingBody(PreparedBodyOf(j, id).hash), at);
    AppendBinding(j, Committing, id, CommittingBody(PreparedBodyOf(j, id).hash), at, id);
    assert Binding(j', id)[0] == Binding(j, id)[0];
  }

  lemma {:induction false} SameRowsOk(j: seq<Record>, j': seq<Record>, applied: seq<Row>)
    requires RowsOk(j, applied) && forall id :: Binding(j', id) == Binding(j, id)
    ensures RowsOk(j', applied) && Fold(j', applied) == Fold(j, applied)
  {
    forall i | 0 <= i < |applied|
      ensures RowOk(j', applied[i]) && Prepares(j, applied[i].intentId)
    {
      assert RowOk(j, applied[i]);
    }
    FoldStable(j, j', applied);
  }

  /** A record that binds nothing changes nothing. */
  lemma {:induction false} SameBindingsAgree(cfg: Config, j: seq<Record>, j': seq<Record>, st: Store)
    requires StoreOk(cfg, j, st) && forall id :: Binding(j', id) == Binding(j, id)
    ensures StoreOk(cfg, j', st) && forall id :: IsOpen(j', id) == IsOpen(j, id)
  {
    SameRowsOk(j, j', st.applied);
    assert forall id :: IsConfirmed(j', id) == IsConfirmed(j, id);
  }

  lemma {:induction false} RejectAgrees(cfg: Config, s: State, kind: Label, id: string, body: Body, at: Stamp)
    requires Agrees(cfg, s) && Ready(s) && !IsBinding(kind)
    ensures Agrees(cfg, Put(s, kind, id, body, at, s.phase))
  {
    var j' := Append(s.journal, kind, id, body, at);
    forall other
      ensures Binding(j', other) == Binding(s.journal, other)
    {
      AppendBinding(s.journal, kind, id, body, at, other);
    }
    SameBindingsAgree(cfg, s.journal, j', s.store);
  }

  lemma {:induction false} AbortAgrees(cfg: Config, s: State, at: Stamp)
    requires Inv(cfg, s) && Agrees(cfg, s) && Enabled(cfg, s, AbortUncertain(at))
    ensures Agrees(cfg, Step(cfg, s, AbortUncertain(at)))
  {
    LastOfKinds(Binding(s.journal, s.phase.id));
    CloseAgrees(cfg, s, Aborted, s.phase.id,
                ReasonBody(PreparedBodyOf(s.journal, s.phase.id).hash, E_STORAGE_COMMIT_NOT_DURABLE), at, s.phase.todo);
  }

  lemma {:induction false} FinalizeAgrees(cfg: Config, s: State, at: Stamp)
    requires Inv(cfg, s) && Agrees(cfg, s) && Enabled(cfg, s, Finalize(at))
    ensures Agrees(cfg, Step(cfg, s, Finalize(at)))
  {
    var recs := Binding(s.journal, s.phase.id);
    LastOfKinds(recs);
    CloseAgrees(cfg, s, Finalized, s.phase.id,
                FinalizedBody(recs[0].body.hash, MakeCertificate(cfg, recs[0], FindCommitted(recs).value)), at,
                s.phase.todo);
  }

  /** Steps taken while handling a submission. */
  predicate IsSubmitEvent(e: Event) {
    e.Reject? || e.RejectPrecondition? || e.Prepare? || e.Execute? || e.Commit?
  }

  lemma {:induction false} SubmitStepAgrees(cfg: Config, s: State, e: Event)
    requires Configured(cfg) && Inv(cfg, s) && Agrees(cfg, s) && Enabled(cfg, s, e) && Honest(s, e)
    requires IsSubmitEvent(e)
    ensures Agrees(cfg, Step(cfg, s, e))
  {
    match e
    case Reject(sub, ns, now, at) =>
      RejectAgrees(cfg, s, AdmissionRejected, IdOf(sub),
                   Rejection(IntentHash(PayloadOf(sub)), Decide(cfg, s.journal, sub, ns, now).reason), at);
    case RejectPrecondition(sub, _, _, pre, at) =>
      RejectAgrees(cfg, s, PreconditionRejected, IdOf(sub),
                   PreconditionRejection(IntentHash(PayloadOf(sub)), Stale(PayloadOf(sub), pre).value, sub.signed,
                                         pre.generation, pre.root), at);
    case Prepare(_, _, _, _, _, _) => PrepareAgrees(cfg, s, e);
    case Execute(txn, at) => ExecuteAgrees(cfg, s, txn, at);
    case Commit => CommitAgrees(cfg, s);
  }

  lemma {:induction false} RecoveryStepAgrees(cfg: Config, s: State, e: Event)
    requires Configured(cfg) && Inv(cfg, s) && Agrees(cfg, s) && Enabled(cfg, s, e) && Honest(s, e)
    requires !IsSubmitEvent(e)
    ensures Agrees(cfg, Step(cfg, s, e))
  {
    match e
    case Acquire => AcquireAgrees(cfg, s);
    case Release =>
    case Inspect(row, at) => InspectAgrees(cfg, s, row, at);
    case AbortUncertain(at) => AbortAgrees(cfg, s, at);
    case Confirm(row, post, at) => ConfirmAgrees(cfg, s, row, post, at);
    case Finalize(at) => FinalizeAgrees(cfg, s, at);
  }

  /** Every honest step keeps the agreement. */
  lemma {:induction false} StepAgrees(cfg: Config, s: State, e: Event)
    requires Configured(cfg) && Inv(cfg, s) && Agrees(cfg, s) && Enabled(cfg, s, e) && Honest(s, e)
    ensures Agrees(cfg, Step(cfg, s, e))
  {
    if IsSubmitEvent(e) {
      SubmitStepAgrees(cfg, s, e);
    } else {
      RecoveryStepAgrees(cfg, s, e);
    }
  }

  lemma {:induction false} NextAgrees(cfg: Config, s: State, e: Event, s': State)
    requires Configured(cfg) && Inv(cfg, s) && Agrees(cfg, s) && HonestNext(cfg, s, e) == Some(s')
    ensures Inv(cfg, s') && Agrees(cfg, s')
  {
    StepAgrees(cfg, s, e);
    StepKeepsInv(cfg, s, e);
  }

  lemma {:induction false} NextInRunAgrees(cfg: Config, ss: seq<State>, es: seq<Event>, n: nat)
    requires Configured(cfg) && HonestTrace(cfg, ss, es) && n < |es|
    requires Inv(cfg, ss[n]) && Agrees(cfg, ss[n])
    ensures Inv(cfg, ss[n + 1]) && Agrees(cfg, ss[n + 1])
  {
    NextAgrees(cfg, ss[n], es[n], ss[n + 1]);
  }

  lemma {:induction false} InitialAgrees(cfg: Config, s: State)
    requires Initial(cfg, s)
    ensures Agrees(cfg, s)
  {
    assert forall id :: Binding(s.journal, id) == [];
  }

  /** Journal and store agree in every state reachable without outside writers. */
  lemma {:induction false} RunAgrees(cfg: Config, ss: seq<State>, es: seq<Event>, n: nat)
    requires Configured(cfg) && HonestTrace(cfg, ss, es) && n < |ss|
    ensures Inv(cfg, ss[n]) && Agrees(cfg, ss[n])
  {
    if n == 0 {
      InitialAgrees(cfg, ss[0]);
    } else {
      RunAgrees(cfg, ss, es, n - 1);
      NextInRunAgrees(cfg, ss, es, n - 1);
    }
  }
}
