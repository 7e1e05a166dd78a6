/** The transactional state store (vdb_c1/state_adapter.py): three tables and one conditional UPSERT. */
module Stores {
  import opened Options
  import opened Canon
  import Sorting

  /** The committed tables: meta (one row), kv (rows in any order) and applied (in insertion order). */
  datatype Store = Store(namespace: string, storeId: string, generation: int, kv: seq<Entry>, applied: seq<Row>)

  datatype Snapshot = Snapshot(namespace: string, storeId: string, generation: int, entries: seq<Entry>, root: Hash)

  /** A fresh read of the committed state. */
  function Snap(s: Store): Snapshot {
    Snapshot(s.namespace, s.storeId, s.generation, SortEntries(s.kv), StateRoot(s.namespace, s.generation, s.kv))
  }

  /** The applied row of an intent, if it has one. */
  function AppliedRow(applied: seq<Row>, id: string): (r: Option<Row>)
    ensures r.Some? ==> r.value in applied && r.value.intentId == id
    ensures r.None? ==> forall row | row in applied :: row.intentId != id
  {
    if applied == [] then None
    else if applied[0].intentId == id then Some(applied[0])
    else AppliedRow(applied[1..], id)
  }

  // ---------------------------------------------------------------- the kv table

  ghost predicate DistinctKeys(kv: seq<Entry>) {
    forall i, j | 0 <= i < j < |kv| :: kv[i].key != kv[j].key
  }

  /** INSERT ... ON CONFLICT (key) DO UPDATE: replaces the row of the key, or adds one. */
  function Upsert(kv: seq<Entry>, key: string, value: string): (kv': seq<Entry>)
    decreases |kv|
  {
    if kv == [] then [Entry(key, value)]
    else if kv[0].key == key then [Entry(key, value)] + kv[1..]
    else [kv[0]] + Upsert(kv[1..], key, value)
  }

  /** The table as a map. */
  ghost function View(kv: seq<Entry>): (m: map<string, string>) {
    if kv == [] then map[] else View(kv[1..])[kv[0].key := kv[0].value]
  }

  lemma {:induction false} UpsertRows(kv: seq<Entry>, key: string, value: string)
    ensures forall e | e in Upsert(kv, key, value) :: e.key == key || e in kv
    decreases |kv|
  {
    if kv != [] {
      UpsertRows(kv[1..], key, value);
      assert kv == [kv[0]] + kv[1..];
    }
  }

  /** The primary key is kept. */
  lemma {:induction false} UpsertKeys(kv: seq<Entry>, key: string, value: string)
    requires DistinctKeys(kv)
    ensures DistinctKeys(Upsert(kv, key, value))
    decreases |kv|
  {
    if kv != [] && kv[0].key != key {
      UpsertKeys(kv[1..], key, value);
      var t := Upsert(kv[1..], key, value);
      UpsertRows(kv[1..], key, value);
      forall i | 0 <= i < |t|
        ensures t[i].key != kv[0].key
      {
        assert t[i] in t;
      }
    }
  }

  /** The upsert sets one key of the map and keeps the rest. */
  lemma {:induction false} UpsertView(kv: seq<Entry>, key: string, value: string)
    ensures View(Upsert(kv, key, value)) == View(kv)[key := value]
    decreases |kv|
  {
    if kv != [] && kv[0].key != key {
      UpsertView(kv[1..], key, value);
      var t := [kv[0]] + Upsert(kv[1..], key, value);
      assert t[1..] == Upsert(kv[1..], key, value);
    } else if kv != [] {
      assert ([Entry(key, value)] + kv[1..])[1..] == kv[1..];
    }
  }

  lemma {:induction false} WithoutAbsent(kv: seq<Entry>, key: string)
    requires forall e | e in kv :: e.key != key
    ensures WithoutKey(kv, key) == kv
    decreases |kv|
  {
    if kv != [] {
      assert kv == [kv[0]] + kv[1..];
      WithoutAbsent(kv[1..], key);
    }
  }

  /** As a bag of rows, the upsert replaces whatever the key had by the new row. */
  lemma {:induction false} UpsertBag(kv: seq<Entry>, key: string, value: string)
    requires DistinctKeys(kv)
    ensures multiset(Upsert(kv, key, value)) == multiset(WithoutKey(kv, key)) + multiset{Entry(key, value)}
    decreases |kv|
  {
    if kv != [] {
      assert kv == [kv[0]] + kv[1..];
      if kv[0].key == key {
        forall e | e in kv[1..] ensures e.key != key {}
        WithoutAbsent(kv[1..], key);
      } else {
        UpsertBag(kv[1..], key, value);
      }
    }
  }


  /** Dropping a key depends only on the bag of rows. */
  lemma {:induction false} WithoutKeyBag(kv: seq<Entry>, key: string, e: Entry)
    ensures multiset(WithoutKey(kv, key))[e] == if e.key != key then multiset(kv)[e] else 0
    decreases |kv|
  {
    if kv != [] {
      assert kv == [kv[0]] + kv[1..];
      WithoutKeyBag(kv[1..], key, e);
    }
  }

  /** The entries read after an UPSERT are the signed UPSERT applied to the entries read before it. */
  lemma {:induction false} UpsertEntries(kv: seq<Entry>, key: string, value: string)
    requires DistinctKeys(kv)
    ensures SortEntries(Upsert(kv, key, value)) == PostEntries(SortEntries(kv), key, value)
  {
    var pre := SortEntries(kv);
    Sorting.SortPermutes(kv, EntryLe);
    UpsertBag(kv, key, value);
    forall e
      ensures multiset(WithoutKey(kv, key))[e] == multiset(WithoutKey(pre, key))[e]
    {
      WithoutKeyBag(kv, key, e);
      WithoutKeyBag(pre, key, e);
    }
    assert multiset(WithoutKey(kv, key)) == multiset(WithoutKey(pre, key));
    EntryLeTotal();
    Sorting.SortCanonical(Upsert(kv, key, value), WithoutKey(pre, key) + [Entry(key, value)], EntryLe);
  }

  lemma {:induction false} ViewMembers(kv: seq<Entry>)
    requires DistinctKeys(kv)
    ensures forall k :: k in View(kv) <==> exists i :: 0 <= i < |kv| && kv[i].key == k
    ensures forall i | 0 <= i < |kv| :: kv[i].key in View(kv) && View(kv)[kv[i].key] == kv[i].value
    decreases |kv|
  {
    if kv != [] {
      var rest := kv[1..];
      ViewMembers(rest);
      forall k | k in View(rest) ensures exists i :: 0 <= i < |kv| && kv[i].key == k {
        var i :| 0 <= i < |rest| && rest[i].key == k;
        assert kv[i + 1].key == k;
      }
      forall i | 0 < i < |kv| ensures kv[i].key in View(kv) && View(kv)[kv[i].key] == kv[i].value {
        assert rest[i - 1] == kv[i];
      }
    }
  }

  lemma {:induction false} DropRow(a: seq<Entry>, i: nat)
    requires DistinctKeys(a) && i < |a|
    ensures var rest := a[..i] + a[i + 1..];
            && DistinctKeys(rest) && multiset(rest) == multiset(a) - multiset{a[i]}
            && forall e | e in multiset(rest) :: e.key != a[i].key
  {
    var rest := a[..i] + a[i + 1..];
    assert a == a[..i] + [a[i]] + a[i + 1..];
    forall n | 0 <= n < |rest| ensures rest[n].key != a[i].key {
      assert rest[n] == a[if n < i then n else n + 1];
    }
  }

  lemma {:induction false} ConsRow(e: Entry, rest: seq<Entry>)
    requires DistinctKeys(rest) && forall x | x in multiset(rest) :: x.key != e.key
    ensures DistinctKeys([e] + rest)
  {
    forall k | 0 <= k < |rest| ensures rest[k].key != e.key {
      assert rest[k] in multiset(rest);
    }
  }

  lemma {:induction false} BagKeepsKeys(a: seq<Entry>, b: seq<Entry>)
    requires DistinctKeys(a) && multiset(a) == multiset(b)
    ensures DistinctKeys(b)
    decreases |b|
  {
    if b != [] {
      var e, rest := b[0], b[1..];
      assert b == [e] + rest;
      assert multiset(rest) == multiset(b) - multiset{e};
      assert e in multiset(a);
      var i :| 0 <= i < |a| && a[i] == e;
      DropRow(a, i);
      BagKeepsKeys(a[..i] + a[i + 1..], rest);
      ConsRow(e, rest);
    }
  }

  /** The map of a table does not depend on the order of its rows. */
  lemma {:induction false} ViewOfBag(a: seq<Entry>, b: seq<Entry>)
    requires DistinctKeys(a) && multiset(a) == multiset(b)
    ensures View(a) == View(b)
  {
    BagKeepsKeys(a, b);
    ViewMembers(a);
    ViewMembers(b);
    forall k | k in View(a)
      ensures k in View(b) && View(b)[k] == View(a)[k]
    {
      var i :| 0 <= i < |a| && a[i].key == k;
      assert a[i] in multiset(b);
      var n :| 0 <= n < |b| && b[n] == a[i];
    }
    forall k | k in View(b)
      ensures k in View(a)
    {
      var i :| 0 <= i < |b| && b[i].key == k;
      assert b[i] in multiset(a);
      var n :| 0 <= n < |a| && a[n] == b[i];
    }
  }

  /** As maps, the signed UPSERT sets one key and keeps the rest. */
  lemma {:induction false} PostView(pre: seq<Entry>, post: seq<Entry>, key: string, value: string)
    requires DistinctKeys(pre) && SortEntries(post) == PostEntries(pre, key, value)
    ensures View(post) == View(pre)[key := value]
  {
    UpsertBag(pre, key, value);
    UpsertKeys(pre, key, value);
    UpsertView(pre, key, value);
    Sorting.SortPermutes(post, EntryLe);
    Sorting.SortPermutes(WithoutKey(pre, key) + [Entry(key, value)], EntryLe);
    ViewOfBag(Upsert(pre, key, value), post);
  }

  lemma {:induction false} SortEntriesIdempotent(entries: seq<Entry>)
    ensures SortEntries(SortEntries(entries)) == SortEntries(entries)
  {
    Sorting.SortPermutes(entries, EntryLe);
    EntryLeTotal();
    Sorting.SortCanonical(SortEntries(entries), entries, EntryLe);
  }

  // ---------------------------------------------------------------- the conditional UPSERT

  /** What the transaction comes to before COMMIT. */
  datatype Transaction =
    | PreconditionFailed(reason: Reason)
    /** The applied insert hit its primary key or its unique generation. */
    | ConstraintViolated
    | Mutated(store: Store)

  predicate Violates(applied: seq<Row>, row: Row) {
    exists r | r in applied :: r.intentId == row.intentId || r.generation == row.generation
  }

  /** apply_upsert up to `before_commit`. */
  function Mutate(s: Store, id: string, hash: Hash, key: string, value: string, expectedGeneration: int,
                  expectedRoot: Hash): (t: Transaction)
  {
    if s.generation != expectedGeneration then PreconditionFailed(E_STALE_GENERATION)
    else if Snap(s).root != expectedRoot then PreconditionFailed(E_ROOT_MISMATCH)
    else
      var kv, generation := Upsert(s.kv, key, value), s.generation + 1;
      var row := Row(id, hash, generation, StateRoot(s.namespace, generation, kv));
      if Violates(s.applied, row) then ConstraintViolated
      else Mutated(s.(generation := generation, kv := kv, applied := s.applied + [row]))
  }

  /** The adapter: committed tables, and the tables as the open transaction sees them. */
  class StateAdapter {
    var store: Store
    var open: Option<Store>
    var executeCalls: nat
    var commitCalls: nat

    constructor (namespace: string, storeId: string)
      ensures store == Store(namespace, storeId, 0, [], []) && open.None?
      ensures executeCalls == 0 && commitCalls == 0
    {
      store := Store(namespace, storeId, 0, [], []);
      open, executeCalls, commitCalls := None, 0, 0;
    }

    method ReadApplied(id: string) returns (row: Option<Row>)
      ensures row == AppliedRow(store.applied, id)
    {
      for i := 0 to |store.applied|
        invariant AppliedRow(store.applied, id) == AppliedRow(store.applied[i..], id)
      {
        if store.applied[i].intentId == id {
          return Some(store.applied[i]);
        }
        assert store.applied[i..][1..] == store.applied[i + 1..];
      }
      return None;
    }

    /** BEGIN IMMEDIATE and the mutation; a failed precondition or constraint rolls back. */
    method Begin(id: string, hash: Hash, key: string, value: string, expectedGeneration: int, expectedRoot: Hash)
      returns (t: Transaction)
      modifies this
      ensures t == Mutate(old(store), id, hash, key, value, expectedGeneration, expectedRoot)
      ensures open == if t.Mutated? then Some(t.store) else None
      ensures store == old(store) && executeCalls == old(executeCalls) + 1 && commitCalls == old(commitCalls)
    {
      executeCalls := executeCalls + 1;
      t := Mutate(store, id, hash, key, value, expectedGeneration, expectedRoot);
      open := if t.Mutated? then Some(t.store) else None;
    }

    /** COMMIT: the open transaction becomes the committed state, all of it at once. */
    method Commit()
      requires open.Some?
      modifies this
      ensures store == old(open).value && open.None?
      ensures executeCalls == old(executeCalls) && commitCalls == old(commitCalls) + 1
    {
      commitCalls := commitCalls + 1;
      store, open := open.value, None;
    }

    /** The process dies: the open transaction is lost. */
    method Crash()
      modifies this
      ensures store == old(store) && open.None?
      ensures executeCalls == old(executeCalls) && commitCalls == old(commitCalls)
    {
      open := None;
    }
  }
}
