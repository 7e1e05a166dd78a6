/** The VDB-C1 state machine (vdb_c1/states.py) and the language of journal paths it accepts. */
module States {
  import opened Options

  /** States and journal record kinds. COMMITTED is a record kind only. */
  datatype Label =
    | Received | AdmissionRejected | Admitted | PreconditionRejected | Prepared
    | Aborted | Committing | CommitUncertain | Finalized | Committed

  function Transitions(current: Label): set<Label> {
    match current
    case Received => {AdmissionRejected, Admitted}
    case Admitted => {PreconditionRejected, Prepared}
    case Prepared => {Aborted, Committing}
    case Committing => {Finalized, CommitUncertain}
    case CommitUncertain => {Finalized, Aborted}
    case _ => {}
  }

  predicate IsTerminal(state: Label) {
    state in {AdmissionRejected, PreconditionRejected, Aborted, Finalized}
  }

  predicate IsBinding(kind: Label) {
    kind in {Prepared, Committing, CommitUncertain, Committed, Finalized, Aborted}
  }

  // ---------------------------------------------------------------- state_after

  /** Where a replay stands: the current state and whether a COMMITTED record was seen, or an illegal path. */
  datatype Standing = Illegal | At(state: Label, committed: bool)

  function Advance(s: Standing, kind: Label): Standing {
    if s.Illegal? then Illegal
    else if kind.Committed? then
      if s.state in {Committing, CommitUncertain} && !s.committed then At(s.state, true) else Illegal
    else
      var state := if kind.Prepared? && s.state.Received? then Admitted else s.state;
      if kind.CommitUncertain? && state.CommitUncertain? then s
      else if kind.Finalized? && !s.committed then Illegal
      else if kind.Aborted? && s.committed then Illegal
      else if kind in Transitions(state) then At(kind, s.committed)
      else Illegal
  }

  function Replay(kinds: seq<Label>): Standing {
    if kinds == [] then At(Received, false)
    else Advance(Replay(kinds[..|kinds| - 1]), kinds[|kinds| - 1])
  }

  /** state_after: the final state, or None where the source raises IllegalTransition. */
  function StateAfter(kinds: seq<Label>): Option<Label> {
    match Replay(kinds)
    case Illegal => None
    case At(state, _) => Some(state)
  }

  method ComputeStateAfter(kinds: seq<Label>) returns (r: Option<Label>)
    ensures r == StateAfter(kinds)
  {
    var state, committedSeen := Received, false;
    for i := 0 to |kinds|
      invariant Replay(kinds[..i]) == At(state, committedSeen)
    {
      var kind := kinds[i];
      assert kinds[..i + 1][..i] == kinds[..i];
      if kind.Committed? {
        if state !in {Committing, CommitUncertain} || committedSeen {
          IllegalStays(kinds, i + 1);
          return None;
        }
        committedSeen := true;
        continue;
      }
      if kind.Prepared? && state.Received? {
        state := Admitted;
      }
      if kind.CommitUncertain? && state.CommitUncertain? {
        continue;
      }
      if (kind.Finalized? && !committedSeen) || (kind.Aborted? && committedSeen) || kind !in Transitions(state) {
        IllegalStays(kinds, i + 1);
        return None;
      }
      state := kind;
    }
    assert kinds[..|kinds|] == kinds;
    return Some(state);
  }

  /** Once a path is illegal it stays illegal. */
  lemma {:induction false} IllegalStays(kinds: seq<Label>, n: nat)
    requires n <= |kinds| && Replay(kinds[..n]).Illegal?
    ensures Replay(kinds).Illegal?
    decreases |kinds|
  {
    if n == |kinds| {
      assert kinds[..n] == kinds;
    } else {
      assert kinds[..|kinds| - 1][..n] == kinds[..n];
      IllegalStays(kinds[..|kinds| - 1], n);
    }
  }

  /** Terminal states are absorbing: no record of any kind is legal after one. */
  lemma {:induction false} TerminalIsAbsorbing(kinds: seq<Label>, more: seq<Label>)
    requires Replay(kinds).At? && IsTerminal(Replay(kinds).state) && more != []
    ensures StateAfter(kinds + more).None?
  {
    assert (kinds + more)[..|kinds| + 1][..|kinds|] == kinds;
    assert (kinds + more)[..|kinds| + 1] == kinds + [more[0]];
    IllegalStays(kinds + more, |kinds| + 1);
  }

  // ---------------------------------------------------------------- the path language

  function Repeat(kind: Label, n: nat): (s: seq<Label>)
    ensures |s| == n
  {
    if n == 0 then [] else Repeat(kind, n - 1) + [kind]
  }

  /** PREPARED COMMITTING COMMIT_UNCERTAIN^m */
  function Pending(m: nat): seq<Label> {
    [Prepared, Committing] + Repeat(CommitUncertain, m)
  }

  /** PREPARED COMMITTING COMMIT_UNCERTAIN^m COMMITTED COMMIT_UNCERTAIN^n */
  function Confirmed(m: nat, n: nat): seq<Label> {
    Pending(m) + [Committed] + Repeat(CommitUncertain, n)
  }

  lemma {:induction false} MoreUncertain(m: nat, n: nat)
    ensures Pending(m + 1) == Pending(m) + [CommitUncertain]
    ensures Confirmed(m, n + 1) == Confirmed(m, n) + [CommitUncertain]
  {
    assert Pending(m + 1) == [Prepared, Committing] + (Repeat(CommitUncertain, m) + [CommitUncertain]);
    assert Confirmed(m, n + 1) == Pending(m) + [Committed] + (Repeat(CommitUncertain, n) + [CommitUncertain]);
  }

  /** What a legal path of binding records looks like, for each standing it can end in. */
  ghost predicate Shaped(kinds: seq<Label>, s: Standing) {
    match s
    case Illegal => true
    case At(Received, c) => !c && kinds == []
    case At(Prepared, c) => !c && kinds == [Prepared]
    case At(Committing, false) => kinds == Pending(0)
    case At(Committing, true) => kinds == Confirmed(0, 0)
    case At(CommitUncertain, false) => exists m: nat :: m > 0 && kinds == Pending(m)
    case At(CommitUncertain, true) => exists m: nat, n: nat :: m + n > 0 && kinds == Confirmed(m, n)
    case At(Aborted, c) =>
      !c && (kinds == [Prepared, Aborted] || exists m: nat :: m > 0 && kinds == Pending(m) + [Aborted])
    case At(Finalized, c) => c && exists m: nat, n: nat :: kinds == Confirmed(m, n) + [Finalized]
    case At(_, _) => false
  }

  ghost predicate AllBinding(kinds: seq<Label>) {
    forall i | 0 <= i < |kinds| :: IsBinding(kinds[i])
  }

  lemma {:induction false} ShapedUncertain(kinds: seq<Label>, s: Standing)
    requires Shaped(kinds, s) && s.At? && s.state in {Committing, CommitUncertain}
    ensures Shaped(kinds + [CommitUncertain], At(CommitUncertain, s.committed))
  {
    if s.committed {
      var m: nat, n: nat :| kinds == Confirmed(m, n);
      MoreUncertain(m, n);
      assert kinds + [CommitUncertain] == Confirmed(m, n + 1);
    } else {
      var m: nat :| kinds == Pending(m);
      MoreUncertain(m, 0);
      assert kinds + [CommitUncertain] == Pending(m + 1);
    }
  }

  lemma {:induction false} ShapedCommitted(kinds: seq<Label>, s: Standing)
    requires Shaped(kinds, s) && s.At? && s.state in {Committing, CommitUncertain} && !s.committed
    ensures Shaped(kinds + [Committed], At(s.state, true))
  {
    var m: nat :| kinds == Pending(m) && (s.state.CommitUncertain? ==> m > 0) && (s.state.Committing? ==> m == 0);
    assert kinds + [Committed] == Confirmed(m, 0);
  }

  lemma {:induction false} ShapedFinalized(kinds: seq<Label>, s: Standing)
    requires Shaped(kinds, s) && s.At? && s.state in {Committing, CommitUncertain} && s.committed
    ensures Shaped(kinds + [Finalized], At(Finalized, true))
  {
    var m: nat, n: nat :| kinds == Confirmed(m, n);
    assert kinds + [Finalized] == Confirmed(m, n) + [Finalized];
  }

  /** One more legal record keeps the shape. */
  lemma {:induction false} ShapedStep(kinds: seq<Label>, s: Standing, kind: Label)
    requires Shaped(kinds, s) && IsBinding(kind)
    ensures Shaped(kinds + [kind], Advance(s, kind))
  {
    var t := Advance(s, kind);
    if t.At? {
      match kind
      case Prepared => assert s.state.Received?;
      case Committing => assert kinds + [kind] == Pending(0);
      case CommitUncertain => ShapedUncertain(kinds, s);
      case Committed => ShapedCommitted(kinds, s);
      case Finalized => ShapedFinalized(kinds, s);
      case Aborted =>
        if s.state.CommitUncertain? {
          var m: nat :| m > 0 && kinds == Pending(m);
          assert kinds + [kind] == Pending(m) + [Aborted];
        }
    }
  }

  lemma {:induction false} LegalIsShaped(kinds: seq<Label>)
    requires AllBinding(kinds)
    ensures Shaped(kinds, Replay(kinds))
  {
    if kinds != [] {
      var before := kinds[..|kinds| - 1];
      LegalIsShaped(before);
      ShapedStep(before, Replay(before), kinds[|kinds| - 1]);
      assert before + [kinds[|kinds| - 1]] == kinds;
    }
  }

  lemma {:induction false} ReplaySnoc(kinds: seq<Label>, kind: Label)
    ensures Replay(kinds + [kind]) == Advance(Replay(kinds), kind)
  {
    assert (kinds + [kind])[..|kinds|] == kinds;
  }

  lemma {:induction false} PendingReplay(m: nat)
    ensures Replay(Pending(m)) == At(if m == 0 then Committing else CommitUncertain, false)
  {
    if m == 0 {
      ReplaySnoc([], Prepared);
      ReplaySnoc([Prepared], Committing);
      assert [] + [Prepared] == [Prepared];
      assert Pending(0) == [Prepared] + [Committing];
    } else {
      PendingReplay(m - 1);
      ReplaySnoc(Pending(m - 1), CommitUncertain);
      MoreUncertain(m - 1, 0);
    }
  }

  lemma {:induction false} ConfirmedReplay(m: nat, n: nat)
    ensures Replay(Confirmed(m, n)) == At(if m + n == 0 then Committing else CommitUncertain, true)
    decreases n
  {
    if n == 0 {
      PendingReplay(m);
      ReplaySnoc(Pending(m), Committed);
      assert Confirmed(m, 0) == Pending(m) + [Committed];
    } else {
      ConfirmedReplay(m, n - 1);
      ReplaySnoc(Confirmed(m, n - 1), CommitUncertain);
      MoreUncertain(m, n - 1);
    }
  }

  /** The finality language: PREPARED COMMITTING UNCERTAIN* COMMITTED UNCERTAIN* FINALIZED, and nothing else. */
  lemma {:induction false} FinalizedLanguage(kinds: seq<Label>)
    requires AllBinding(kinds)
    ensures StateAfter(kinds) == Some(Finalized) <==> exists m: nat, n: nat :: kinds == Confirmed(m, n) + [Finalized]
  {
    LegalIsShaped(kinds);
    if exists m: nat, n: nat :: kinds == Confirmed(m, n) + [Finalized] {
      var m: nat, n: nat :| kinds == Confirmed(m, n) + [Finalized];
      ConfirmedReplay(m, n);
      ReplaySnoc(Confirmed(m, n), Finalized);
    }
  }

  /** The abort language: PREPARED ABORTED, or PREPARED COMMITTING UNCERTAIN+ ABORTED. */
  lemma {:induction false} AbortedLanguage(kinds: seq<Label>)
    requires AllBinding(kinds)
    ensures StateAfter(kinds) == Some(Aborted) <==>
            kinds == [Prepared, Aborted] || exists m: nat :: m > 0 && kinds == Pending(m) + [Aborted]
  {
    LegalIsShaped(kinds);
    if kinds == [Prepared, Aborted] {
      ReplaySnoc([], Prepared);
      ReplaySnoc([Prepared], Aborted);
      assert [] + [Prepared] == [Prepared] && [Prepared] + [Aborted] == kinds;
    } else if exists m: nat :: m > 0 && kinds == Pending(m) + [Aborted] {
      var m: nat :| m > 0 && kinds == Pending(m) + [Aborted];
      PendingReplay(m);
      ReplaySnoc(Pending(m), Aborted);
    }
  }
}
