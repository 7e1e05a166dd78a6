/**
 Checkpoint on revocation (vre15/revoke.py). A governed region is mapped copy-on-write over an
 image file; `revoke` writes the modified pages back, drops every private page and returns a
 receipt of exactly what it wrote.
 */
module Revocation {
  import opened Options
  import opened Bytes
  import opened Pages

  /** One page as the process's page table shows it. */
  datatype Entry =
    /** Neither present nor swapped: reading it faults the image's page in. */
    | Absent
    /** Present, and backed by the image file. */
    | Clean
    /** Present and anonymous: written since it was mapped. */
    | Private(block: seq<Byte>)
    /** Written and swapped out. */
    | Swapped(block: seq<Byte>)

  /** The pagemap bits 63, 62 and 61. */
  predicate Present(e: Entry) { e.Clean? || e.Private? }

  predicate InSwap(e: Entry) { e.Swapped? }

  predicate FilePage(e: Entry) { e.Clean? }

  predicate Modified(e: Entry) { InSwap(e) || (Present(e) && !FilePage(e)) }

  predicate Held(e: Entry) { Present(e) || InSwap(e) }

  /** An image file, by pages, and the page table of the region mapped over it. */
  datatype Mapping = Mapping(image: seq<seq<Byte>>, table: seq<Entry>)

  ghost predicate Valid(m: Mapping) {
    && |m.image| == |m.table| < WORD
    && (forall i | 0 <= i < |m.image| :: IsBlock(m.image[i]))
    && (forall i | 0 <= i < |m.table| && Modified(m.table[i]) :: IsBlock(m.table[i].block))
  }

  /** What the tenant reads at a page. */
  function Read(m: Mapping, i: nat): seq<Byte>
    requires i < |m.table| && i < |m.image|
  {
    if Modified(m.table[i]) then m.table[i].block else m.image[i]
  }

  /** What the tenant reads. */
  function Visible(m: Mapping): (v: seq<seq<Byte>>)
    requires |m.image| == |m.table|
    ensures |v| == |m.table|
  {
    seq(|m.table|, i requires 0 <= i < |m.table| => Read(m, i))
  }

  /** No page is present in, or swapped from, the process. */
  ghost predicate Dropped(m: Mapping) {
    forall i | 0 <= i < |m.table| :: !Held(m.table[i])
  }

  // ---------------------------------------------------------------- pages and runs

  /** modified_pages: every page with private state, in order. */
  method ModifiedPages(table: seq<Entry>) returns (pages: seq<nat>)
    ensures Increasing(pages)
    ensures forall i: nat :: i in pages <==> i < |table| && Modified(table[i])
  {
    pages := [];
    for i := 0 to |table|
      invariant Increasing(pages) && forall k | 0 <= k < |pages| :: pages[k] < i
      invariant forall k: nat :: k in pages <==> k < i && Modified(table[k])
    {
      if Modified(table[i]) {
        pages := pages + [i];
      }
    }
  }

  /** held_privately: every page present or swapped, in order. */
  method HeldPrivately(table: seq<Entry>) returns (pages: seq<nat>)
    ensures Increasing(pages)
    ensures forall i: nat :: i in pages <==> i < |table| && Held(table[i])
    ensures pages == [] <==> forall i | 0 <= i < |table| :: !Held(table[i])
  {
    pages := [];
    for i := 0 to |table|
      invariant Increasing(pages) && forall k | 0 <= k < |pages| :: pages[k] < i
      invariant forall k: nat :: k in pages <==> k < i && Held(table[k])
    {
      if Held(table[i]) {
        pages := pages + [i];
      }
    }
    if pages != [] {
      assert pages[0] in pages;
    }
  }

  /** runs_of: contiguous runs, whose pages are the given ones in the given order; maximal if those are sorted. */
  method RunsOf(pages: seq<nat>) returns (runs: seq<Run>)
    ensures Expand(runs) == pages && NonEmpty(runs)
    ensures Increasing(pages) ==> Separated(runs)
  {
    runs := [];
    for k := 0 to |pages|
      invariant Expand(runs) == pages[..k] && NonEmpty(runs)
      invariant Increasing(pages) ==> Separated(runs)
    {
      var i, n := pages[k], |runs|;
      assert pages[..k + 1] == pages[..k] + [i];
      if n > 0 && runs[n - 1].first + runs[n - 1].count == i {
        ghost var before := runs;
        runs := runs[n - 1 := Run(runs[n - 1].first, runs[n - 1].count + 1)];
        assert runs[..n - 1] == before[..n - 1];
        assert Span(runs[n - 1]) == Span(before[n - 1]) + [i];
      } else {
        ExpandSnoc(runs, Run(i, 1));
        if n > 0 {
          LastPage(runs);
        }
        runs := runs + [Run(i, 1)];
      }
    }
    assert pages[..|pages|] == pages;
  }

  // ---------------------------------------------------------------- the receipt digest

  /** One run of the message: its first page, its page count and its bytes. */
  function Chunk(r: Run, blocks: seq<seq<Byte>>): (bytes: seq<Byte>)
    requires r.first + r.count <= |blocks| < WORD
  {
    Pack(r.first) + Pack(r.count) + Flatten(Slice(blocks, r))
  }

  /** What the digest covers. */
  function Message(runs: seq<Run>, blocks: seq<seq<Byte>>): (bytes: seq<Byte>)
    requires InRange(runs, |blocks|) && |blocks| < WORD
  {
    if runs == [] then [] else Chunk(runs[0], blocks) + Message(runs[1..], blocks)
  }

  datatype Receipt = Receipt(pages: nat, digest: Digest, runs: seq<Run>)

  lemma {:induction false} MessageSnoc(runs: seq<Run>, r: Run, blocks: seq<seq<Byte>>)
    requires InRange(runs, |blocks|) && r.first + r.count <= |blocks| < WORD
    ensures InRange(runs + [r], |blocks|)
    ensures Message(runs + [r], blocks) == Message(runs, blocks) + Chunk(r, blocks)
  {
    if runs == [] {
      assert runs + [r] == [r];
      assert [r][1..] == [];
    } else {
      MessageSnoc(runs[1..], r, blocks);
      assert (runs + [r])[1..] == runs[1..] + [r];
      Regroup(Chunk(runs[0], blocks), Message(runs[1..], blocks), Chunk(r, blocks));
    }
  }

  // ---------------------------------------------------------------- revoke

  /** Every page of some runs. */
  ghost predicate AllModified(m: Mapping, runs: seq<Run>) {
    forall k, p | 0 <= k < |runs| && runs[k].first <= p < runs[k].first + runs[k].count ::
      p < |m.table| && Modified(m.table[p])
  }

  lemma {:induction false} RunsModified(m: Mapping, runs: seq<Run>)
    requires forall p: nat :: p in Expand(runs) <==> p < |m.table| && Modified(m.table[p])
    requires NonEmpty(runs)
    ensures AllModified(m, runs) && InRange(runs, |m.table|)
  {
    forall k, p | 0 <= k < |runs| && runs[k].first <= p < runs[k].first + runs[k].count
      ensures p < |m.table| && Modified(m.table[p])
    {
      var q: nat := p;
      ExpandMembers(runs, q);
      assert q in Expand(runs);
    }
    forall k | 0 <= k < |runs|
      ensures runs[k].first + runs[k].count <= |m.table|
    {
      var p := runs[k].first + runs[k].count - 1;
      ExpandMembers(runs, p);
      assert p in Expand(runs);
    }
  }

  /** Writing a run of modified pages back leaves what the tenant reads unchanged. */
  lemma {:induction false} WriteBackInvisible(m: Mapping, first: nat, count: nat)
    requires Valid(m) && first + count <= |m.table|
    requires forall p | first <= p < first + count :: Modified(m.table[p])
    ensures var m' := m.(image := Write(m.image, first, Visible(m)[first..first + count]));
            Valid(m') && Visible(m') == Visible(m)
  {
    var image' := Write(m.image, first, Visible(m)[first..first + count]);
    var m' := m.(image := image');
    forall i | 0 <= i < |m.table|
      ensures IsBlock(image'[i]) && Read(m', i) == Read(m, i)
    {
      if first <= i < first + count {
        assert image'[i] == Visible(m)[i];
      }
    }
  }

  /** What a revocation promises. */
  ghost predicate Revoked(m: Mapping, m': Mapping, r: Receipt) {
    && Valid(m) && Valid(m')
    // the tenant's state is unchanged, the image holds it, and no page is held
    && Visible(m') == Visible(m) && m'.image == Visible(m) && Dropped(m') && |m'.table| == |m.table|
    // the receipt covers exactly the modified pages, with the bytes the image now holds
    && Separated(r.runs) && InRange(r.runs, |m'.image|)
    && (forall p: nat :: p in Expand(r.runs) <==> p < |m.table| && Modified(m.table[p]))
    && Increasing(Expand(r.runs)) && r.pages == |Expand(r.runs)|
    && r.digest == Sha256(Message(r.runs, m'.image))
  }

  /** A fresh mapping of the image. */
  function Remap(image: seq<seq<Byte>>): Mapping {
    Mapping(image, seq(|image|, _ => Absent))
  }

  /** revoke: None where RegionError is raised, with nothing written. */
  method Revoke(m: Mapping) returns (r: Option<(Mapping, Receipt)>)
    requires |m.image| == |m.table| ==> Valid(m)
    ensures r.None? <==> |m.table| == 0 || |m.image| != |m.table|
    ensures r.Some? ==> Revoked(m, r.value.0, r.value.1)
  {
    if |m.table| == 0 {
      return None;
    }
    var dirty := ModifiedPages(m.table);
    if |m.image| != |m.table| {
      return None;
    }
    var runs := RunsOf(dirty);
    RunsModified(m, runs);
    var image, h := WriteBack(m, runs);
    r := Some((Remap(image), Receipt(|dirty|, Sha256(h), runs)));
  }

  /** The image holds what the tenant reads at the pages of some runs, and at every page that is not modified. */
  ghost predicate HoldsRuns(m: Mapping, image: seq<seq<Byte>>, runs: seq<Run>) {
    && Valid(m) && |image| == |m.image|
    && forall p: nat | p < |image| && (p in Expand(runs) || !Modified(m.table[p])) :: image[p] == Read(m, p)
  }

  lemma {:induction false} HoldsOneMore(m: Mapping, image: seq<seq<Byte>>, runs: seq<Run>, r: Run)
    requires HoldsRuns(m, image, runs) && r.first + r.count <= |image|
    ensures HoldsRuns(m, Write(image, r.first, Visible(m)[r.first..r.first + r.count]), runs + [r])
  {
    ExpandSnoc(runs, r);
  }

  lemma {:induction false} HoldsAll(m: Mapping, image: seq<seq<Byte>>, runs: seq<Run>)
    requires HoldsRuns(m, image, runs)
    requires forall p: nat | p < |m.table| && Modified(m.table[p]) :: p in Expand(runs)
    ensures image == Visible(m)
  {
  }

  /** Some runs are written back and digested. */
  ghost predicate Written(m: Mapping, image: seq<seq<Byte>>, h: seq<Byte>, runs: seq<Run>) {
    && HoldsRuns(m, image, runs) && InRange(runs, |m.image|)
    && Valid(m.(image := image)) && Visible(m.(image := image)) == Visible(m)
    && h == Message(runs, Visible(m))
  }

  lemma {:induction false} WrittenOneMore(m: Mapping, image: seq<seq<Byte>>, h: seq<Byte>, runs: seq<Run>, r: Run)
    requires Written(m, image, h, runs) && r.first + r.count <= |image|
    requires forall p | r.first <= p < r.first + r.count :: Modified(m.table[p])
    ensures var v := Visible(m.(image := image));
            Written(m, Write(image, r.first, Slice(v, r)), h + Chunk(r, v), runs + [r])
  {
    WriteBackInvisible(m.(image := image), r.first, r.count);
    HoldsOneMore(m, image, runs, r);
    MessageSnoc(runs, r, Visible(m));
  }

  /** The loop of revoke: each run goes to the image and into the digest. */
  method WriteBack(m: Mapping, runs: seq<Run>) returns (image: seq<seq<Byte>>, h: seq<Byte>)
    requires Valid(m) && AllModified(m, runs) && InRange(runs, |m.image|)
    requires forall p: nat | p < |m.table| && Modified(m.table[p]) :: p in Expand(runs)
    ensures image == Visible(m) && h == Message(runs, image)
  {
    image, h := m.image, [];
    for k := 0 to |runs|
      invariant Written(m, image, h, runs[..k])
    {
      WrittenOneMore(m, image, h, runs[..k], runs[k]);
      assert runs[..k + 1] == runs[..k] + [runs[k]];
      var r, v := runs[k], Visible(m.(image := image));
      image, h := Write(image, r.first, Slice(v, r)), h + Chunk(r, v);
    }
    assert runs[..|runs|] == runs;
    HoldsAll(m, image, runs);
  }

  // ---------------------------------------------------------------- what a receipt proves

  lemma {:induction false} HeaderParses(r: Run, s: Run, x: seq<Byte>, y: seq<Byte>)
    requires r.first < WORD && r.count < WORD && s.first < WORD && s.count < WORD
    requires Pack(r.first) + Pack(r.count) + x == Pack(s.first) + Pack(s.count) + y
    ensures r == s && x == y
  {
    var m, n := Pack(r.first) + Pack(r.count) + x, Pack(s.first) + Pack(s.count) + y;
    assert m[..4] == Pack(r.first) && m[4..8] == Pack(r.count) && m[8..] == x;
    assert n[..4] == Pack(s.first) && n[4..8] == Pack(s.count) && n[8..] == y;
    PackUnpacks(r.first);
    PackUnpacks(s.first);
    PackUnpacks(r.count);
    PackUnpacks(s.count);
  }

  lemma {:induction false} DataParses(u: seq<seq<Byte>>, v: seq<seq<Byte>>, x: seq<Byte>, y: seq<Byte>)
    requires |u| == |v| && Flatten(u) + x == Flatten(v) + y
    requires forall i | 0 <= i < |u| :: IsBlock(u[i])
    requires forall i | 0 <= i < |v| :: IsBlock(v[i])
    ensures u == v && x == y
  {
    FlattenLength(u);
    FlattenLength(v);
    var m, n := Flatten(u) + x, Flatten(v) + y;
    assert m[..|Flatten(u)|] == Flatten(u) && n[..|Flatten(u)|] == Flatten(v);
    assert m[|Flatten(u)|..] == x && n[|Flatten(u)|..] == y;
    FlattenInjective(u, v);
  }

  /** A message parses from the front: its first chunk is determined. */
  lemma {:induction false} ChunkParses(r: Run, s: Run, a: seq<seq<Byte>>, b: seq<seq<Byte>>, x: seq<Byte>, y: seq<Byte>)
    requires Blocks(a) && Blocks(b) && r.first + r.count <= |a| && s.first + s.count <= |b|
    requires Chunk(r, a) + x == Chunk(s, b) + y
    ensures r == s && x == y && Slice(a, r) == Slice(b, s)
  {
    Regroup(Pack(r.first) + Pack(r.count), Flatten(Slice(a, r)), x);
    Regroup(Pack(s.first) + Pack(s.count), Flatten(Slice(b, s)), y);
    HeaderParses(r, s, Flatten(Slice(a, r)) + x, Flatten(Slice(b, s)) + y);
    DataParses(Slice(a, r), Slice(b, s), x, y);
  }

  /** The digest of a receipt determines the runs it covers and the bytes written to them. */
  lemma {:induction false} DigestDetermines(a: seq<Run>, b: seq<Run>, image: seq<seq<Byte>>, image': seq<seq<Byte>>)
    requires Blocks(image) && Blocks(image') && InRange(a, |image|) && InRange(b, |image'|)
    requires Sha256(Message(a, image)) == Sha256(Message(b, image'))
    ensures a == b
    ensures forall k | 0 <= k < |a| :: Slice(image, a[k]) == Slice(image', a[k])
    decreases |a|
  {
    if a != [] && b != [] {
      ChunkParses(a[0], b[0], image, image', Message(a[1..], image), Message(b[1..], image'));
      DigestDetermines(a[1..], b[1..], image, image');
      assert a == [a[0]] + a[1..] && b == [b[0]] + b[1..];
    }
  }

  /** Identical writes give identical receipts. */
  lemma {:induction false} ReceiptsAgree(m: Mapping, m': Mapping, n: Mapping, n': Mapping, r: Receipt, q: Receipt)
    requires Revoked(m, m', r) && Revoked(n, n', q) && Visible(m) == Visible(n)
    requires forall p: nat | p < |m.table| :: Modified(m.table[p]) == Modified(n.table[p])
    ensures r == q
  {
    IncreasingUnique(Expand(r.runs), Expand(q.runs));
    RunsUnique(r.runs, q.runs);
  }
}
