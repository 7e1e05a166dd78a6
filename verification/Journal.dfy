/** The append-only, hash-chained journal (vdb_c1/journal.py), at the level of records. */
module Journals {
  import opened States
  import opened Canon

  predicate Linked(r: Record, seqno: nat, prev: Hash) {
    r.protocol == JournalV1 && r.seqno == seqno && r.prev == prev && r.hash == RecordHash(r)
  }

  function HeadHash(j: seq<Record>): Hash {
    if j == [] then GENESIS else j[|j| - 1].hash
  }

  /** One unbroken hash chain from genesis. */
  predicate Chain(j: seq<Record>) {
    forall i | 0 <= i < |j| :: Linked(j[i], i, HeadHash(j[..i]))
  }

  /** The record that `append` writes. */
  function NextRecord(j: seq<Record>, kind: Label, intentId: string, body: Body, at: Stamp): Record {
    var prev := HeadHash(j);
    Record(JournalV1, |j|, prev, at, kind, intentId, body,
           Digest(RecordObject(JournalV1, |j|, prev, at, kind, intentId, body)))
  }

  function Append(j: seq<Record>, kind: Label, intentId: string, body: Body, at: Stamp): seq<Record> {
    j + [NextRecord(j, kind, intentId, body, at)]
  }

  lemma {:induction false} ChainPrefix(j: seq<Record>, n: nat)
    requires Chain(j) && n <= |j|
    ensures Chain(j[..n])
  {
    forall i | 0 <= i < n
      ensures Linked(j[..n][i], i, HeadHash(j[..n][..i]))
    {
      assert j[..n][..i] == j[..i];
    }
  }

  lemma {:induction false} AppendKeepsChain(j: seq<Record>, kind: Label, intentId: string, body: Body, at: Stamp)
    requires Chain(j)
    ensures Chain(Append(j, kind, intentId, body, at))
  {
    var j' := Append(j, kind, intentId, body, at);
    forall i | 0 <= i < |j'|
      ensures Linked(j'[i], i, HeadHash(j'[..i]))
    {
      assert j'[..i] == if i < |j| then j[..i] else j;
    }
  }

  /** A chained head commits to the whole history before it: equal hashes at n, equal records up to n. */
  lemma {:induction false} HeadCommits(a: seq<Record>, b: seq<Record>, n: nat)
    requires Chain(a) && Chain(b) && n < |a| && n < |b| && a[n].hash == b[n].hash
    ensures a[..n + 1] == b[..n + 1]
  {
    assert Linked(a[n], n, HeadHash(a[..n])) && Linked(b[n], n, HeadHash(b[..n]));
    assert a[n] == b[n];
    if n > 0 {
      assert a[n - 1].hash == b[n - 1].hash;
      HeadCommits(a, b, n - 1);
    }
    assert a[..n + 1] == a[..n] + [a[n]] && b[..n + 1] == b[..n] + [b[n]];
  }

  // ---------------------------------------------------------------- per-intent views

  predicate Binds(r: Record, id: string) {
    r.intentId == id && IsBinding(r.kind)
  }

  /** The binding records of one intent, in order. */
  function Binding(j: seq<Record>, id: string): (recs: seq<Record>) {
    if j == [] then []
    else
      var r := j[|j| - 1];
      Binding(j[..|j| - 1], id) + (if Binds(r, id) then [r] else [])
  }

  function Kinds(recs: seq<Record>): (kinds: seq<Label>)
    ensures |kinds| == |recs|
    ensures forall i | 0 <= i < |recs| :: kinds[i] == recs[i].kind
  {
    seq(|recs|, i requires 0 <= i < |recs| => recs[i].kind)
  }

  lemma {:induction false} BindingSnoc(j: seq<Record>, r: Record, id: string)
    ensures Binding(j + [r], id) == if Binds(r, id) then Binding(j, id) + [r] else Binding(j, id)
  {
    assert (j + [r])[..|j|] == j;
  }

  lemma {:induction false} BindingMembers(j: seq<Record>, id: string)
    ensures forall r :: r in Binding(j, id) <==> r in j && Binds(r, id)
  {
    if j != [] {
      BindingMembers(j[..|j| - 1], id);
      assert j == j[..|j| - 1] + [j[|j| - 1]];
    }
  }

  lemma {:induction false} BindingConcat(a: seq<Record>, b: seq<Record>, id: string)
    ensures Binding(a + b, id) == Binding(a, id) + Binding(b, id)
  {
    if b == [] {
      assert a + b == a;
    } else {
      assert (a + b)[..|a + b| - 1] == a + b[..|b| - 1];
      BindingConcat(a, b[..|b| - 1], id);
    }
  }

  lemma {:induction false} KindsSnoc(recs: seq<Record>, r: Record)
    ensures Kinds(recs + [r]) == Kinds(recs) + [r.kind]
  {
  }
}
