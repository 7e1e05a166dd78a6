/** Pages of 4096 bytes, and runs of them: the unit of revocation (vre15/revoke.py) and snapshots (vre1/snapshot.py). */
module Pages {
  import opened Bytes

  const PAGE: nat := 4096

  ghost predicate IsBlock(b: seq<Byte>) { |b| == PAGE }

  ghost predicate Blocks(image: seq<seq<Byte>>) {
    |image| < WORD && forall i | 0 <= i < |image| :: IsBlock(image[i])
  }

  // ---------------------------------------------------------------- the bytes of pages

  /** The bytes of some pages. */
  function Flatten(blocks: seq<seq<Byte>>): (bytes: seq<Byte>) {
    if blocks == [] then [] else Flatten(blocks[..|blocks| - 1]) + blocks[|blocks| - 1]
  }

  /** An ideal SHA-256: its digest determines the message. */
  datatype Digest = Sha256(message: seq<Byte>)

  lemma {:induction false} Regroup(a: seq<Byte>, b: seq<Byte>, c: seq<Byte>)
    ensures a + (b + c) == a + b + c
  {
  }

  lemma {:induction false} FlattenLength(blocks: seq<seq<Byte>>)
    requires forall i | 0 <= i < |blocks| :: IsBlock(blocks[i])
    ensures |Flatten(blocks)| == PAGE * |blocks|
  {
    if blocks != [] {
      FlattenLength(blocks[..|blocks| - 1]);
    }
  }

  lemma {:induction false} FlattenInjective(a: seq<seq<Byte>>, b: seq<seq<Byte>>)
    requires |a| == |b| && Flatten(a) == Flatten(b)
    requires forall i | 0 <= i < |a| :: IsBlock(a[i])
    requires forall i | 0 <= i < |b| :: IsBlock(b[i])
    ensures a == b
  {
    if a != [] {
      var n := |a| - 1;
      FlattenLength(a[..n]);
      FlattenLength(b[..n]);
      assert Flatten(a[..n]) == Flatten(a)[..PAGE * n] && Flatten(b[..n]) == Flatten(b)[..PAGE * n];
      assert a[n] == Flatten(a)[PAGE * n..] && b[n] == Flatten(b)[PAGE * n..];
      FlattenInjective(a[..n], b[..n]);
      assert a == a[..n] + [a[n]] && b == b[..n] + [b[n]];
    }
  }

  lemma {:induction false} FlattenConcat(a: seq<seq<Byte>>, b: seq<seq<Byte>>)
    ensures Flatten(a + b) == Flatten(a) + Flatten(b)
  {
    if b == [] {
      assert a + b == a;
    } else {
      var b', x := b[..|b| - 1], b[|b| - 1];
      assert (a + b)[..|a + b| - 1] == a + b';
      FlattenConcat(a, b');
      Regroup(Flatten(a), Flatten(b'), x);
    }
  }

  ghost predicate InRange(runs: seq<Run>, size: nat) {
    forall i | 0 <= i < |runs| :: runs[i].first + runs[i].count <= size
  }

  /** The pages of one run. */
  function Slice(blocks: seq<seq<Byte>>, r: Run): (pages: seq<seq<Byte>>)
    requires r.first + r.count <= |blocks|
    ensures |pages| == r.count
  {
    blocks[r.first..r.first + r.count]
  }

  /** pwrite of whole pages. */
  function Write(image: seq<seq<Byte>>, first: nat, data: seq<seq<Byte>>): (image': seq<seq<Byte>>)
    requires first + |data| <= |image|
    ensures |image'| == |image|
    ensures forall i | 0 <= i < |image| ::
              image'[i] == if first <= i < first + |data| then data[i - first] else image[i]
  {
    image[..first] + data + image[first + |data|..]
  }

  // ---------------------------------------------------------------- increasing page numbers

  ghost predicate Increasing(pages: seq<nat>) {
    forall i, j | 0 <= i < j < |pages| :: pages[i] < pages[j]
  }

  lemma {:induction false} HeadIn(a: seq<nat>, b: seq<nat>)
    requires forall p: nat :: p in a ==> p in b
    ensures a == [] || a[0] in b
  {
    if a != [] {
      assert a[0] in a;
    }
  }

  lemma {:induction false} IncreasingUnique(a: seq<nat>, b: seq<nat>)
    requires Increasing(a) && Increasing(b) && forall p: nat :: p in a <==> p in b
    ensures a == b
    decreases |a|
  {
    HeadIn(a, b);
    HeadIn(b, a);
    if a != [] && b != [] {
      SameGreatest(a, b);
      var a', b', x := a[..|a| - 1], b[..|b| - 1], a[|a| - 1];
      assert a == a' + [x] && b == b' + [x];
      WithoutGreatest(a', x);
      WithoutGreatest(b', x);
      IncreasingUnique(a', b');
    }
  }

  lemma {:induction false} SameGreatest(a: seq<nat>, b: seq<nat>)
    requires Increasing(a) && Increasing(b) && a != [] && b != [] && forall p: nat :: p in a <==> p in b
    ensures a[|a| - 1] == b[|b| - 1]
  {
    assert a[|a| - 1] in b && b[|b| - 1] in a;
  }

  lemma {:induction false} WithoutGreatest(a: seq<nat>, x: nat)
    requires Increasing(a + [x])
    ensures Increasing(a) && forall p: nat :: p in a <==> p in a + [x] && p != x
  {
    forall i | 0 <= i < |a|
      ensures a[i] < x
    {
      assert (a + [x])[i] < (a + [x])[|a|];
    }
    forall i, j | 0 <= i < j < |a|
      ensures a[i] < a[j]
    {
      assert (a + [x])[i] < (a + [x])[j];
    }
  }

  // ---------------------------------------------------------------- runs

  datatype Run = Run(first: nat, count: nat)

  function Span(r: Run): (pages: seq<nat>) {
    seq(r.count, i requires 0 <= i < r.count => r.first + i)
  }

  /** The pages of some runs, run by run. */
  function Expand(runs: seq<Run>): (pages: seq<nat>) {
    if runs == [] then [] else Expand(runs[..|runs| - 1]) + Span(runs[|runs| - 1])
  }

  ghost predicate NonEmpty(runs: seq<Run>) {
    forall i | 0 <= i < |runs| :: runs[i].count >= 1
  }

  /** In order, with at least one page between two runs. */
  ghost predicate Separated(runs: seq<Run>) {
    NonEmpty(runs) && forall i, j | 0 <= i < j < |runs| :: runs[i].first + runs[i].count < runs[j].first
  }

  lemma {:induction false} ExpandSnoc(runs: seq<Run>, r: Run)
    ensures Expand(runs + [r]) == Expand(runs) + Span(r)
  {
    assert (runs + [r])[..|runs|] == runs;
  }

  /** A page is in the expansion exactly when some run covers it. */
  lemma {:induction false} ExpandMembers(runs: seq<Run>, p: nat)
    ensures p in Expand(runs) <==> exists i :: 0 <= i < |runs| && runs[i].first <= p < runs[i].first + runs[i].count
  {
    if runs != [] {
      var before, r := runs[..|runs| - 1], runs[|runs| - 1];
      ExpandMembers(before, p);
      if r.first <= p < r.first + r.count {
        assert Span(r)[p - r.first] == p;
      }
      if p in Expand(before) {
        var i :| 0 <= i < |before| && before[i].first <= p < before[i].first + before[i].count;
        assert runs[i] == before[i];
      }
    }
  }

  lemma {:induction false} LastPage(runs: seq<Run>)
    requires runs != [] && NonEmpty(runs)
    ensures var r := runs[|runs| - 1];
            Expand(runs) != [] && Expand(runs)[|Expand(runs)| - 1] == r.first + r.count - 1
  {
    var r := runs[|runs| - 1];
    assert Span(r)[|Span(r)| - 1] == r.first + r.count - 1;
  }

  /** No separated run covers the page before the last one. */
  lemma {:induction false} GapBeforeLast(runs: seq<Run>)
    requires Separated(runs) && runs != [] && runs[|runs| - 1].first > 0
    ensures runs[|runs| - 1].first - 1 !in Expand(runs)
  {
    var n := |runs| - 1;
    var p := runs[n].first - 1;
    ExpandMembers(runs, p);
    forall i | 0 <= i < |runs|
      ensures !(runs[i].first <= p < runs[i].first + runs[i].count)
    {
      if i < n {
        assert runs[i].first + runs[i].count < runs[n].first;
      }
    }
  }

  lemma {:induction false} LastNoLonger(a: seq<Run>, b: seq<Run>)
    requires Separated(b) && a != [] && b != [] && Expand(a) == Expand(b)
    requires a[|a| - 1].first + a[|a| - 1].count == b[|b| - 1].first + b[|b| - 1].count
    ensures b[|b| - 1].count >= 1 ==> b[|b| - 1].first <= a[|a| - 1].first
  {
    var r, q := a[|a| - 1], b[|b| - 1];
    if r.first < q.first && q.count >= 1 {
      assert Span(r)[q.first - 1 - r.first] == q.first - 1;
      assert q.first - 1 in Expand(a);
      GapBeforeLast(b);
    }
  }

  lemma {:induction false} SamePrefix(a: seq<nat>, b: seq<nat>, c: seq<nat>)
    requires a + c == b + c
    ensures a == b
  {
    assert a == (a + c)[..|a|] && b == (b + c)[..|b|];
  }

  lemma {:induction false} SameLast(a: seq<Run>, b: seq<Run>)
    requires Separated(a) && Separated(b) && a != [] && b != [] && Expand(a) == Expand(b)
    ensures a[|a| - 1] == b[|b| - 1]
  {
    LastPage(a);
    LastPage(b);
    LastNoLonger(a, b);
    LastNoLonger(b, a);
  }

  lemma {:induction false} SameRest(a: seq<Run>, b: seq<Run>, r: Run)
    requires Separated(a + [r]) && Separated(b + [r]) && Expand(a + [r]) == Expand(b + [r])
    ensures Separated(a) && Separated(b) && Expand(a) == Expand(b)
  {
    ExpandSnoc(a, r);
    ExpandSnoc(b, r);
    SamePrefix(Expand(a), Expand(b), Span(r));
    forall i | 0 <= i < |a|
      ensures a[i] == (a + [r])[i]
    {
    }
    forall i | 0 <= i < |b|
      ensures b[i] == (b + [r])[i]
    {
    }
  }

  /** Only one list of separated runs has given pages, so `runs_of` finds the maximal runs. */
  lemma {:induction false} RunsUnique(a: seq<Run>, b: seq<Run>)
    requires Separated(a) && Separated(b) && Expand(a) == Expand(b)
    ensures a == b
    decreases |a|
  {
    if a != [] {
      LastPage(a);
    }
    if b != [] {
      LastPage(b);
    }
    if a != [] && b != [] {
      SameLast(a, b);
      var a', b', r := a[..|a| - 1], b[..|b| - 1], a[|a| - 1];
      assert a == a' + [r] && b == b' + [r];
      SameRest(a', b', r);
      RunsUnique(a', b');
    }
  }
}
