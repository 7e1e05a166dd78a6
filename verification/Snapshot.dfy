/**
 Snapshot and restore of a guest's memory and globals (vre1/snapshot.py): a bitmap of the
 non-zero blocks and those blocks only, decoded into maximal runs to copy into fresh memory.
 */
module Snapshots {
  import opened Options
  import opened Bytes
  import opened Pages
  import opened Guests

  /** A block is 4 KiB, like a page of the host. A Wasm page is 64 KiB. */
  const WASM_PAGE: nat := 65536

  function Zero(): (z: seq<Byte>)
    ensures |z| == PAGE
  {
    seq(PAGE, _ => 0)
  }

  // ---------------------------------------------------------------- memory by blocks

  function BlockOf(mem: seq<Byte>, i: nat): (b: seq<Byte>)
    requires (i + 1) * PAGE <= |mem|
    ensures |b| == PAGE
  {
    mem[i * PAGE..(i + 1) * PAGE]
  }

  /** The blocks of a memory. */
  function Split(mem: seq<Byte>): (blocks: seq<seq<Byte>>)
    ensures |blocks| == |mem| / PAGE
    ensures forall i | 0 <= i < |blocks| :: blocks[i] == BlockOf(mem, i) && IsBlock(blocks[i])
  {
    seq(|mem| / PAGE, i requires 0 <= i < |mem| / PAGE => BlockOf(mem, i))
  }

  lemma {:induction false} SplitTake(mem: seq<Byte>, n: nat)
    requires n * PAGE <= |mem|
    ensures n <= |mem| / PAGE && Flatten(Split(mem)[..n]) == mem[..n * PAGE]
  {
    if n > 0 {
      SplitTake(mem, n - 1);
      assert Split(mem)[..n] == Split(mem)[..n - 1] + [BlockOf(mem, n - 1)];
      assert Split(mem)[..n][..n - 1] == Split(mem)[..n - 1];
      assert mem[..n * PAGE] == mem[..(n - 1) * PAGE] + BlockOf(mem, n - 1);
    }
  }

  lemma {:induction false} SplitJoins(mem: seq<Byte>)
    requires |mem| % PAGE == 0
    ensures Flatten(Split(mem)) == mem
  {
    var n := |mem| / PAGE;
    SplitTake(mem, n);
    assert Split(mem)[..n] == Split(mem) && mem[..n * PAGE] == mem;
  }

  // ---------------------------------------------------------------- the bitmap

  /** The set bits below n, in order. */
  function Ones(bits: seq<Byte>, n: nat): (ones: seq<nat>)
    requires n <= 8 * |bits|
  {
    if n == 0 then [] else Ones(bits, n - 1) + if Bit(bits, n - 1) then [n - 1] else []
  }

  /** The blocks below n that are not zero, in order. */
  function NonZeros(blocks: seq<seq<Byte>>, n: nat): (ones: seq<nat>)
    requires n <= |blocks|
  {
    if n == 0 then [] else NonZeros(blocks, n - 1) + if blocks[n - 1] != Zero() then [n - 1] else []
  }

  /** The stored blocks: those at some indices. */
  function Pick(blocks: seq<seq<Byte>>, ones: seq<nat>): (stored: seq<seq<Byte>>)
    requires forall k | 0 <= k < |ones| :: ones[k] < |blocks|
    ensures |stored| == |ones|
  {
    seq(|ones|, k requires 0 <= k < |ones| => blocks[ones[k]])
  }

  lemma {:induction false} NonZerosIn(blocks: seq<seq<Byte>>, n: nat)
    requires n <= |blocks|
    ensures forall k | 0 <= k < |NonZeros(blocks, n)| :: NonZeros(blocks, n)[k] < n
    ensures forall p: nat :: p in NonZeros(blocks, n) <==> p < n && blocks[p] != Zero()
  {
    if n > 0 {
      NonZerosIn(blocks, n - 1);
    }
  }

  lemma {:induction false} OnesIn(bits: seq<Byte>, n: nat)
    requires n <= 8 * |bits|
    ensures forall k | 0 <= k < |Ones(bits, n)| :: Ones(bits, n)[k] < n
  {
    if n > 0 {
      OnesIn(bits, n - 1);
    }
  }

  /** Two bitmaps with the same bits below n. */
  lemma {:induction false} OnesAre(bits: seq<Byte>, blocks: seq<seq<Byte>>, n: nat)
    requires n <= 8 * |bits| && n <= |blocks|
    requires forall i: nat | i < n :: Bit(bits, i) == (blocks[i] != Zero())
    ensures Ones(bits, n) == NonZeros(blocks, n)
  {
    if n > 0 {
      OnesAre(bits, blocks, n - 1);
    }
  }

  lemma {:induction false} PickSnoc(blocks: seq<seq<Byte>>, ones: seq<nat>, p: nat)
    requires p < |blocks| && forall k | 0 <= k < |ones| :: ones[k] < |blocks|
    ensures forall k | 0 <= k < |ones + [p]| :: (ones + [p])[k] < |blocks|
    ensures Flatten(Pick(blocks, ones + [p])) == Flatten(Pick(blocks, ones)) + blocks[p]
  {
    var picked := Pick(blocks, ones + [p]);
    assert picked == Pick(blocks, ones) + [blocks[p]];
    assert picked[..|ones|] == Pick(blocks, ones);
  }

  /** What a bitmap says about the first n blocks of a memory. */
  ghost predicate Maps(mem: seq<Byte>, n: nat, bits: seq<Byte>, blocks: seq<Byte>) {
    && n <= |mem| / PAGE && |mem| / PAGE <= 8 * |bits|
    && (forall i: nat | i < |mem| / PAGE :: Bit(bits, i) == (i < n && BlockOf(mem, i) != Zero()))
    && (forall k | 0 <= k < |NonZeros(Split(mem), n)| :: NonZeros(Split(mem), n)[k] < |Split(mem)|)
    && blocks == Flatten(Pick(Split(mem), NonZeros(Split(mem), n)))
  }

  lemma {:induction false} MapsNext(mem: seq<Byte>, n: nat, bits: seq<Byte>, blocks: seq<Byte>)
    requires n < |mem| / PAGE && Maps(mem, n, bits, blocks)
    ensures var chunk := BlockOf(mem, n);
            if chunk != Zero() then Maps(mem, n + 1, SetBit(bits, n), blocks + chunk)
            else Maps(mem, n + 1, bits, blocks)
  {
    var ones, next := NonZeros(Split(mem), n), NonZeros(Split(mem), n + 1);
    if BlockOf(mem, n) != Zero() {
      forall i: nat | i < |mem| / PAGE
        ensures Bit(SetBit(bits, n), i) == (i < n + 1 && BlockOf(mem, i) != Zero())
      {
        SetBitSets(bits, n, i);
      }
      PickSnoc(Split(mem), ones, n);
      assert next == ones + [n];
    } else {
      assert next == ones;
    }
  }

  lemma {:induction false} MapsNothing(mem: seq<Byte>, bits: seq<Byte>)
    requires |mem| / PAGE <= 8 * |bits| && forall k | 0 <= k < |bits| :: bits[k] == 0
    ensures Maps(mem, 0, bits, [])
  {
    forall i: nat | i < |mem| / PAGE
      ensures !Bit(bits, i)
    {
      ClearBits(bits, i);
    }
  }

  /** _bitmap: the bit of a block is set exactly when it is not zero, and exactly those blocks are stored. */
  method Bitmap(mem: seq<Byte>) returns (bits: seq<Byte>, blocks: seq<Byte>)
    ensures |bits| == (|mem| / PAGE + 7) / 8
    ensures Maps(mem, |mem| / PAGE, bits, blocks)
  {
    var n := |mem| / PAGE;
    bits, blocks := Zeros((n + 7) / 8), [];
    MapsNothing(mem, bits);
    for i := 0 to n
      invariant |bits| == (n + 7) / 8 && Maps(mem, i, bits, blocks)
    {
      MapsNext(mem, i, bits, blocks);
      var chunk := BlockOf(mem, i);
      if chunk != Zero() {
        bits, blocks := SetBit(bits, i), blocks + chunk;
      }
    }
  }

  // ---------------------------------------------------------------- runs of the bitmap

  /** One run to copy: where, and what. */
  datatype Piece = Piece(offset: nat, data: seq<Byte>)

  /** The pieces of some runs of blocks, whose bytes follow each other in the payload. */
  function PiecesOf(runs: seq<Run>, blocks: seq<Byte>): (pieces: seq<Piece>)
    ensures |pieces| == |runs|
  {
    if runs == [] then []
    else
      var before, r := runs[..|runs| - 1], runs[|runs| - 1];
      var pos := PAGE * |Expand(before)|;
      PiecesOf(before, blocks) + [Piece(r.first * PAGE, Cut(blocks, pos, pos + PAGE * r.count))]
  }

  lemma {:induction false} PiecesSnoc(runs: seq<Run>, r: Run, blocks: seq<Byte>)
    ensures var pos := PAGE * |Expand(runs)|;
            PiecesOf(runs + [r], blocks) ==
            PiecesOf(runs, blocks) + [Piece(r.first * PAGE, Cut(blocks, pos, pos + PAGE * r.count))]
  {
    assert (runs + [r])[..|runs|] == runs;
  }

  /** The scan is between runs, or inside the run that starts at a block and whose bytes start at a position. */
  datatype Cursor = Between | Inside(first: nat, runPos: nat)

  /** Where the scan stands after n bits, with some runs closed. */
  ghost predicate Scanned(bits: seq<Byte>, n: nat, runs: seq<Run>, cursor: Cursor, pos: nat) {
    && n <= 8 * |bits| && Separated(runs) && pos == PAGE * |Ones(bits, n)|
    && match cursor
       case Between => Expand(runs) == Ones(bits, n) && EndsBefore(runs, n)
       case Inside(first, runPos) =>
         && first < n && EndsBefore(runs, first) && runPos == PAGE * |Expand(runs)|
         && Expand(runs) + Span(Run(first, n - first)) == Ones(bits, n)
  }

  /** Every run ends before a block that is not in it, nor adjacent to it. */
  ghost predicate EndsBefore(runs: seq<Run>, n: nat) {
    forall i | 0 <= i < |runs| :: runs[i].first + runs[i].count < n
  }

  /** A set bit opens a run or extends it. */
  lemma {:induction false} ScanOne(bits: seq<Byte>, n: nat, runs: seq<Run>, cursor: Cursor, pos: nat)
    requires n < 8 * |bits| && Scanned(bits, n, runs, cursor, pos) && Bit(bits, n)
    ensures Scanned(bits, n + 1, runs, if cursor.Between? then Inside(n, pos) else cursor, pos + PAGE)
  {
    if cursor.Between? {
      assert Span(Run(n, 1)) == [n];
    } else {
      var first := cursor.first;
      assert Span(Run(first, n + 1 - first)) == Span(Run(first, n - first)) + [n];
    }
  }

  /** The run that a cursor is inside of, after n bits. */
  ghost function Open(cursor: Cursor, n: nat): Run
    requires cursor.Inside? && cursor.first <= n
  {
    Run(cursor.first, n - cursor.first)
  }

  lemma {:induction false} OpenRun(bits: seq<Byte>, n: nat, runs: seq<Run>, cursor: Cursor, pos: nat)
    requires cursor.Inside? && Scanned(bits, n, runs, cursor, pos)
    ensures Separated(runs + [Open(cursor, n)]) && Expand(runs + [Open(cursor, n)]) == Ones(bits, n)
    ensures cursor.runPos == PAGE * |Expand(runs)| && pos == cursor.runPos + PAGE * Open(cursor, n).count
  {
    ExpandSnoc(runs, Open(cursor, n));
    assert |Ones(bits, n)| == |Expand(runs)| + Open(cursor, n).count;
  }

  /** Closing the open run gives the runs of all the bits so far, and its piece. */
  lemma {:induction false} CloseRun(bits: seq<Byte>, n: nat, runs: seq<Run>, cursor: Cursor, pos: nat,
                                    blocks: seq<Byte>)
    requires cursor.Inside? && Scanned(bits, n, runs, cursor, pos)
    ensures Separated(runs + [Open(cursor, n)]) && Expand(runs + [Open(cursor, n)]) == Ones(bits, n)
    ensures cursor.runPos <= pos
    ensures PiecesOf(runs + [Open(cursor, n)], blocks) ==
            PiecesOf(runs, blocks) + [Piece(cursor.first * PAGE, Cut(blocks, cursor.runPos, pos))]
  {
    OpenRun(bits, n, runs, cursor, pos);
    PiecesSnoc(runs, Open(cursor, n), blocks);
  }

  /** A clear bit ends a run. */
  lemma {:induction false} ScanZero(bits: seq<Byte>, n: nat, runs: seq<Run>, cursor: Cursor, pos: nat)
    requires n < 8 * |bits| && Scanned(bits, n, runs, cursor, pos) && !Bit(bits, n)
    ensures cursor.Between? ==> Scanned(bits, n + 1, runs, Between, pos)
    ensures cursor.Inside? ==> Scanned(bits, n + 1, runs + [Open(cursor, n)], Between, pos)
  {
    if cursor.Inside? {
      CloseRun(bits, n, runs, cursor, pos, []);
    }
  }

  /** The loop of decode: the maximal runs of set bits, each with the next stored blocks. */
  method Scan(bits: seq<Byte>, blocks: seq<Byte>, n: nat) returns (pieces: seq<Piece>, pos: nat, ghost runs: seq<Run>)
    requires n <= 8 * |bits|
    ensures Separated(runs) && Expand(runs) == Ones(bits, n) && pos == PAGE * |Ones(bits, n)|
    ensures pieces == PiecesOf(runs, blocks)
  {
    pieces, pos, runs := [], 0, [];
    var cursor := Between;
    for i := 0 to n
      invariant Scanned(bits, i, runs, cursor, pos) && pieces == PiecesOf(runs, blocks)
    {
      if Bit(bits, i) {
        ScanOne(bits, i, runs, cursor, pos);
        if cursor.Between? {
          cursor := Inside(i, pos);
        }
        pos := pos + PAGE;
      } else {
        ScanZero(bits, i, runs, cursor, pos);
        if cursor.Inside? {
          CloseRun(bits, i, runs, cursor, pos, blocks);
          pieces := pieces + [Piece(cursor.first * PAGE, Cut(blocks, cursor.runPos, pos))];
          runs := runs + [Open(cursor, i)];
          cursor := Between;
        }
      }
    }
    if cursor.Inside? {
      CloseRun(bits, n, runs, cursor, pos, blocks);
      pieces, runs := pieces + [Piece(cursor.first * PAGE, Cut(blocks, cursor.runPos, pos))], runs + [Open(cursor, n)];
    }
  }

  // ---------------------------------------------------------------- copying runs into memory

  function Zeros(n: nat): (mem: seq<Byte>)
    ensures |mem| == n && forall i | 0 <= i < n :: mem[i] == 0
  {
    seq(n, _ => 0)
  }

  predicate Fits(p: Piece, size: nat) {
    p.offset + |p.data| <= size
  }

  /** memmove of one piece. */
  function Poke(mem: seq<Byte>, p: Piece): (mem': seq<Byte>)
    requires Fits(p, |mem|)
    ensures |mem'| == |mem|
  {
    mem[..p.offset] + p.data + mem[p.offset + |p.data|..]
  }

  ghost predicate AllFit(pieces: seq<Piece>, size: nat) {
    forall i | 0 <= i < |pieces| :: Fits(pieces[i], size)
  }

  function Apply(mem: seq<Byte>, pieces: seq<Piece>): (mem': seq<Byte>)
    requires AllFit(pieces, |mem|)
    ensures |mem'| == |mem|
  {
    if pieces == [] then mem else Poke(Apply(mem, pieces[..|pieces| - 1]), pieces[|pieces| - 1])
  }

  /** The same by blocks: the k-th block of the runs becomes the k-th stored block. */
  ghost function Paint(image: seq<seq<Byte>>, runs: seq<Run>, stored: seq<seq<Byte>>): (image': seq<seq<Byte>>)
    requires InRange(runs, |image|) && |stored| >= |Expand(runs)|
    ensures |image'| == |image|
  {
    if runs == [] then image
    else
      var before, r := runs[..|runs| - 1], runs[|runs| - 1];
      Write(Paint(image, before, stored), r.first, stored[|Expand(before)|..|Expand(runs)|])
  }

  lemma {:induction false} SpanMembers(r: Run, p: nat)
    ensures r.first <= p < r.first + r.count ==> p in Span(r)
  {
    if r.first <= p < r.first + r.count {
      assert Span(r)[p - r.first] == p;
    }
  }

  lemma {:induction false} PaintedElsewhere(image: seq<seq<Byte>>, runs: seq<Run>, stored: seq<seq<Byte>>, p: nat)
    requires InRange(runs, |image|) && |stored| >= |Expand(runs)| && p < |image| && p !in Expand(runs)
    ensures Paint(image, runs, stored)[p] == image[p]
  {
    if runs != [] {
      var before, r := runs[..|runs| - 1], runs[|runs| - 1];
      PaintedElsewhere(image, before, stored, p);
      SpanMembers(r, p);
    }
  }

  lemma {:induction false} PaintedAt(image: seq<seq<Byte>>, runs: seq<Run>, stored: seq<seq<Byte>>, k: nat)
    requires Separated(runs) && InRange(runs, |image|) && |stored| >= |Expand(runs)| && k < |Expand(runs)|
    ensures Expand(runs)[k] < |image| && Paint(image, runs, stored)[Expand(runs)[k]] == stored[k]
  {
    var before, r := runs[..|runs| - 1], runs[|runs| - 1];
    if k < |Expand(before)| {
      PaintedAt(image, before, stored, k);
      BeforeLast(runs, k);
    }
  }

  lemma {:induction false} BeforeLast(runs: seq<Run>, k: nat)
    requires Separated(runs) && runs != [] && k < |Expand(runs[..|runs| - 1])|
    ensures Expand(runs)[k] < runs[|runs| - 1].first
  {
    var before, n := runs[..|runs| - 1], |runs| - 1;
    var p := Expand(before)[k];
    ExpandMembers(before, p);
    var i :| 0 <= i < |before| && before[i].first <= p < before[i].first + before[i].count;
    assert runs[i].first + runs[i].count < runs[n].first;
  }

  lemma {:induction false} PokeIsWrite(image: seq<seq<Byte>>, first: nat, data: seq<seq<Byte>>)
    requires first + |data| <= |image|
    requires forall i | 0 <= i < |image| :: IsBlock(image[i])
    requires forall i | 0 <= i < |data| :: IsBlock(data[i])
    ensures Fits(Piece(first * PAGE, Flatten(data)), |Flatten(image)|)
    ensures Poke(Flatten(image), Piece(first * PAGE, Flatten(data))) == Flatten(Write(image, first, data))
  {
    var a, u, c := image[..first], image[first..first + |data|], image[first + |data|..];
    assert image == a + u + c;
    FlattenConcat(a + u, c);
    FlattenConcat(a, u);
    FlattenConcat(a + data, c);
    FlattenConcat(a, data);
    FlattenLength(a);
    FlattenLength(u);
    FlattenLength(data);
    FlattenLength(c);
    var m := Flatten(a) + Flatten(u) + Flatten(c);
    assert m[..first * PAGE] == Flatten(a);
    assert m[(first + |data|) * PAGE..] == Flatten(c);
  }

  /** The bytes of the stored blocks that a run takes. */
  lemma {:induction false} CutIsBlocks(stored: seq<seq<Byte>>, from: nat, to: nat)
    requires from <= to <= |stored| && forall i | 0 <= i < |stored| :: IsBlock(stored[i])
    ensures Cut(Flatten(stored), PAGE * from, PAGE * to) == Flatten(stored[from..to])
  {
    var a, u, c := stored[..from], stored[from..to], stored[to..];
    assert stored == a + u + c;
    FlattenConcat(a + u, c);
    FlattenConcat(a, u);
    FlattenLength(a);
    FlattenLength(u);
    FlattenLength(c);
    assert (Flatten(a) + Flatten(u) + Flatten(c))[PAGE * from..PAGE * to] == Flatten(u);
  }

  lemma {:induction false} PaintedBlocks(image: seq<seq<Byte>>, runs: seq<Run>, stored: seq<seq<Byte>>)
    requires InRange(runs, |image|) && |stored| >= |Expand(runs)|
    requires forall i | 0 <= i < |image| :: IsBlock(image[i])
    requires forall i | 0 <= i < |stored| :: IsBlock(stored[i])
    ensures forall i | 0 <= i < |image| :: IsBlock(Paint(image, runs, stored)[i])
  {
    if runs != [] {
      PaintedBlocks(image, runs[..|runs| - 1], stored);
    }
  }

  lemma {:induction false} ApplySnoc(mem: seq<Byte>, pieces: seq<Piece>, p: Piece)
    requires AllFit(pieces, |mem|) && Fits(p, |mem|)
    ensures AllFit(pieces + [p], |mem|) && Apply(mem, pieces + [p]) == Poke(Apply(mem, pieces), p)
  {
    assert (pieces + [p])[..|pieces|] == pieces;
  }

  lemma {:induction false} PaintSnoc(image: seq<seq<Byte>>, runs: seq<Run>, r: Run, stored: seq<seq<Byte>>)
    requires InRange(runs, |image|) && r.first + r.count <= |image| && |stored| >= |Expand(runs)| + r.count
    ensures InRange(runs + [r], |image|) && |Expand(runs + [r])| == |Expand(runs)| + r.count
    ensures Paint(image, runs + [r], stored) ==
            Write(Paint(image, runs, stored), r.first, stored[|Expand(runs)|..|Expand(runs)| + r.count])
  {
    assert (runs + [r])[..|runs|] == runs;
  }

  lemma {:induction false} PiecesNext(runs: seq<Run>, r: Run, stored: seq<seq<Byte>>)
    requires |stored| >= |Expand(runs)| + r.count && forall i | 0 <= i < |stored| :: IsBlock(stored[i])
    ensures var from := |Expand(runs)|;
            PiecesOf(runs + [r], Flatten(stored)) ==
            PiecesOf(runs, Flatten(stored)) + [Piece(r.first * PAGE, Flatten(stored[from..from + r.count]))]
  {
    var from, pos := |Expand(runs)|, PAGE * |Expand(runs)|;
    CutIsBlocks(stored, from, from + r.count);
    Distribute(from, r.count);
    PiecesSnoc(runs, r, Flatten(stored));
  }

  lemma {:induction false} Distribute(a: nat, b: nat)
    ensures PAGE * (a + b) == PAGE * a + PAGE * b
  {
  }

  /** One more piece copied is one more run painted. */
  lemma {:induction false} OneMorePiece(mem: seq<Byte>, pieces: seq<Piece>, pieces': seq<Piece>, image: seq<seq<Byte>>,
                                        image': seq<seq<Byte>>, first: nat, data: seq<seq<Byte>>)
    requires AllFit(pieces, |mem|) && Apply(mem, pieces) == Flatten(image) && first + |data| <= |image|
    requires forall i | 0 <= i < |image| :: IsBlock(image[i])
    requires forall i | 0 <= i < |data| :: IsBlock(data[i])
    requires pieces' == pieces + [Piece(first * PAGE, Flatten(data))] && image' == Write(image, first, data)
    ensures AllFit(pieces', |mem|) && Apply(mem, pieces') == Flatten(image')
  {
    PokeIsWrite(image, first, data);
    ApplySnoc(mem, pieces, Piece(first * PAGE, Flatten(data)));
  }

  /** The pieces of the runs, copied into a memory, paint its blocks. */
  ghost predicate Paints(image: seq<seq<Byte>>, runs: seq<Run>, stored: seq<seq<Byte>>, mem: seq<Byte>)
    requires InRange(runs, |image|) && |stored| >= |Expand(runs)|
  {
    && AllFit(PiecesOf(runs, Flatten(stored)), |mem|)
    && Apply(mem, PiecesOf(runs, Flatten(stored))) == Flatten(Paint(image, runs, stored))
  }

  lemma {:induction false} SliceBlocks(stored: seq<seq<Byte>>, from: nat, to: nat)
    requires from <= to <= |stored| && forall i | 0 <= i < |stored| :: IsBlock(stored[i])
    ensures forall i | 0 <= i < to - from :: IsBlock(stored[from..to][i])
  {
  }

  lemma {:induction false} PaintsNext(image: seq<seq<Byte>>, runs: seq<Run>, r: Run, stored: seq<seq<Byte>>,
                                      mem: seq<Byte>)
    requires InRange(runs, |image|) && r.first + r.count <= |image| && |stored| >= |Expand(runs)| + r.count
    requires forall i | 0 <= i < |image| :: IsBlock(image[i])
    requires forall i | 0 <= i < |stored| :: IsBlock(stored[i])
    requires Paints(image, runs, stored, mem)
    ensures InRange(runs + [r], |image|) && |stored| >= |Expand(runs + [r])|
    ensures Paints(image, runs + [r], stored, mem)
  {
    var from := |Expand(runs)|;
    var data := stored[from..from + r.count];
    var pieces, painted := PiecesOf(runs, Flatten(stored)), Paint(image, runs, stored);
    PiecesNext(runs, r, stored);
    var pieces' := PiecesOf(runs + [r], Flatten(stored));
    assert pieces' == pieces + [Piece(r.first * PAGE, Flatten(data))];
    PaintSnoc(image, runs, r, stored);
    var painted' := Paint(image, runs + [r], stored);
    assert painted' == Write(painted, r.first, data);
    PaintedBlocks(image, runs, stored);
    SliceBlocks(stored, from, from + r.count);
    OneMorePiece(mem, pieces, pieces', painted, painted', r.first, data);
  }

  /** Copying the pieces, byte by byte, paints the blocks. */
  lemma {:induction false} ApplyIsPaint(image: seq<seq<Byte>>, runs: seq<Run>, stored: seq<seq<Byte>>, mem: seq<Byte>)
    requires InRange(runs, |image|) && |stored| >= |Expand(runs)| && mem == Flatten(image)
    requires forall i | 0 <= i < |image| :: IsBlock(image[i])
    requires forall i | 0 <= i < |stored| :: IsBlock(stored[i])
    ensures Paints(image, runs, stored, mem)
    decreases |runs|
  {
    if runs != [] {
      var before, r := runs[..|runs| - 1], runs[|runs| - 1];
      assert runs == before + [r];
      ExpandSnoc(before, r);
      ApplyIsPaint(image, before, stored, mem);
      PaintsNext(image, before, r, stored, mem);
    }
  }

  // ---------------------------------------------------------------- round trip of the sparse form

  function Blank(n: nat): (image: seq<seq<Byte>>)
    ensures |image| == n && forall i | 0 <= i < n :: image[i] == Zero()
  {
    seq(n, _ => Zero())
  }

  lemma {:induction false} BlankIsZero(n: nat)
    ensures Flatten(Blank(n)) == Zeros(n * PAGE)
  {
    if n > 0 {
      BlankIsZero(n - 1);
      assert Blank(n)[..n - 1] == Blank(n - 1);
      assert Zeros(n * PAGE) == Zeros((n - 1) * PAGE) + Zero();
    }
  }

  lemma {:induction false} OnesInRange(runs: seq<Run>, n: nat)
    requires NonEmpty(runs) && forall k | 0 <= k < |Expand(runs)| :: Expand(runs)[k] < n
    ensures InRange(runs, n)
  {
    forall i | 0 <= i < |runs|
      ensures runs[i].first + runs[i].count <= n
    {
      var p := runs[i].first + runs[i].count - 1;
      ExpandMembers(runs, p);
      var k :| 0 <= k < |Expand(runs)| && Expand(runs)[k] == p;
    }
  }

  lemma {:induction false} PaintedBlock(blocks: seq<seq<Byte>>, runs: seq<Run>, p: nat)
    requires Separated(runs) && InRange(runs, |blocks|) && p < |blocks|
    requires forall k | 0 <= k < |Expand(runs)| :: Expand(runs)[k] < |blocks|
    requires p in Expand(runs) <==> blocks[p] != Zero()
    ensures Paint(Blank(|blocks|), runs, Pick(blocks, Expand(runs)))[p] == blocks[p]
  {
    var stored := Pick(blocks, Expand(runs));
    if p in Expand(runs) {
      var k :| 0 <= k < |Expand(runs)| && Expand(runs)[k] == p;
      PaintedAt(Blank(|blocks|), runs, stored, k);
    } else {
      PaintedElsewhere(Blank(|blocks|), runs, stored, p);
    }
  }

  /** The m-th set bit of the bitmap receives the m-th stored block, and every other block stays zero: the memory. */
  lemma {:induction false} PaintedMemory(blocks: seq<seq<Byte>>, runs: seq<Run>)
    requires Separated(runs) && Expand(runs) == NonZeros(blocks, |blocks|)
    requires forall k | 0 <= k < |Expand(runs)| :: Expand(runs)[k] < |blocks|
    ensures InRange(runs, |blocks|)
    ensures Paint(Blank(|blocks|), runs, Pick(blocks, Expand(runs))) == blocks
  {
    OnesInRange(runs, |blocks|);
    NonZerosIn(blocks, |blocks|);
    forall p | 0 <= p < |blocks|
      ensures Paint(Blank(|blocks|), runs, Pick(blocks, Expand(runs)))[p] == blocks[p]
    {
      PaintedBlock(blocks, runs, p);
    }
  }

  lemma {:induction false} MapsOnes(mem: seq<Byte>, bits: seq<Byte>, blocks: seq<Byte>)
    requires Maps(mem, |mem| / PAGE, bits, blocks)
    ensures Ones(bits, |mem| / PAGE) == NonZeros(Split(mem), |mem| / PAGE)
  {
    var n, all := |mem| / PAGE, Split(mem);
    assert forall i: nat | i < n :: Bit(bits, i) == (all[i] != Zero());
    OnesAre(bits, all, n);
  }

  lemma {:induction false} BlocksRestore(all: seq<seq<Byte>>, runs: seq<Run>)
    requires forall i | 0 <= i < |all| :: IsBlock(all[i])
    requires Separated(runs) && Expand(runs) == NonZeros(all, |all|)
    requires forall k | 0 <= k < |Expand(runs)| :: Expand(runs)[k] < |all|
    ensures var pieces := PiecesOf(runs, Flatten(Pick(all, Expand(runs))));
            AllFit(pieces, |all| * PAGE) && Apply(Zeros(|all| * PAGE), pieces) == Flatten(all)
  {
    PaintedMemory(all, runs);
    BlankIsZero(|all|);
    ApplyIsPaint(Blank(|all|), runs, Pick(all, Expand(runs)), Zeros(|all| * PAGE));
  }

  /** What the scan of a memory's own bitmap finds, copied into zero memory, is the memory. */
  lemma {:induction false} SparseRestores(mem: seq<Byte>, bits: seq<Byte>, blocks: seq<Byte>, runs: seq<Run>)
    requires |mem| % PAGE == 0 && Maps(mem, |mem| / PAGE, bits, blocks)
    requires Separated(runs) && Expand(runs) == Ones(bits, |mem| / PAGE)
    ensures AllFit(PiecesOf(runs, blocks), |mem|)
    ensures Apply(Zeros(|mem|), PiecesOf(runs, blocks)) == mem
  {
    MapsOnes(mem, bits, blocks);
    BlocksRestore(Split(mem), runs);
    SplitJoins(mem);
  }

  // ---------------------------------------------------------------- what decode accepts

  /** Sorted, disjoint, inside the memory, whole blocks, and with a gap after every piece: maximal. */
  ghost predicate Tidy(pieces: seq<Piece>, size: nat) {
    && (forall i | 0 <= i < |pieces| ::
          pieces[i].data != [] && |pieces[i].data| % PAGE == 0 && pieces[i].offset % PAGE == 0 && Fits(pieces[i], size))
    && (forall i, j | 0 <= i < j < |pieces| :: pieces[i].offset + |pieces[i].data| < pieces[j].offset)
  }

  lemma {:induction false} PieceAt(runs: seq<Run>, blocks: seq<Byte>, i: nat)
    requires i < |runs| && |blocks| >= PAGE * |Expand(runs)|
    ensures PiecesOf(runs, blocks)[i].offset == runs[i].first * PAGE
    ensures |PiecesOf(runs, blocks)[i].data| == PAGE * runs[i].count
  {
    var before, r := runs[..|runs| - 1], runs[|runs| - 1];
    Distribute(|Expand(before)|, r.count);
    if i < |before| {
      PieceAt(before, blocks, i);
    }
  }

  /** Whatever bitmap and blocks decode accepts, the runs it returns are tidy. */
  lemma {:induction false} AcceptedIsTidy(bits: seq<Byte>, n: nat, blocks: seq<Byte>, runs: seq<Run>)
    requires n <= 8 * |bits| && Separated(runs) && Expand(runs) == Ones(bits, n) && |blocks| == PAGE * |Ones(bits, n)|
    ensures Tidy(PiecesOf(runs, blocks), n * PAGE)
  {
    OnesIn(bits, n);
    OnesInRange(runs, n);
    forall i | 0 <= i < |runs|
      ensures At(PiecesOf(runs, blocks)[i], runs[i])
    {
      PieceAt(runs, blocks, i);
    }
    PiecesTidy(PiecesOf(runs, blocks), runs, n);
  }

  /** The piece copies the blocks of a run. */
  ghost predicate At(p: Piece, r: Run) {
    p.offset == r.first * PAGE && |p.data| == PAGE * r.count
  }

  lemma {:induction false} PiecesTidy(pieces: seq<Piece>, runs: seq<Run>, n: nat)
    requires |pieces| == |runs| && Separated(runs) && InRange(runs, n)
    requires forall i | 0 <= i < |runs| :: At(pieces[i], runs[i])
    ensures Tidy(pieces, n * PAGE)
  {
    forall i | 0 <= i < |pieces|
      ensures pieces[i].data != [] && |pieces[i].data| % PAGE == 0 && pieces[i].offset % PAGE == 0
      ensures Fits(pieces[i], n * PAGE)
    {
      assert At(pieces[i], runs[i]) && runs[i].count >= 1 && runs[i].first + runs[i].count <= n;
    }
    forall i, j | 0 <= i < j < |pieces|
      ensures pieces[i].offset + |pieces[i].data| < pieces[j].offset
    {
      assert At(pieces[i], runs[i]) && At(pieces[j], runs[j]) && runs[i].first + runs[i].count < runs[j].first;
    }
  }

  // ---------------------------------------------------------------- the file format

  datatype Codec = Raw | Sparse | SparseZlib1 | UnknownCodec

  datatype Protocol = SnapshotV1 | UnknownProtocol

  datatype Header = Header(protocol: Protocol, codec: Codec, moduleDigest: string, pages: int, globals: Globals,
                           memoryDigest: seq<Byte>, payloadDigest: seq<Byte>)

  /** JSON, zlib and SHA-256. Only the round trips matter; the digest may be any function. */
  datatype Formats = Formats(json: Header -> seq<Byte>, parse: seq<Byte> -> Option<Header>,
                             deflate: seq<Byte> -> seq<Byte>, inflate: seq<Byte> -> Option<seq<Byte>>,
                             sha256: seq<Byte> -> seq<Byte>)

  ghost predicate RoundTrips(f: Formats) {
    (forall h :: HeaderTrips(f, h)) && (forall x :: BytesTrip(f, x))
  }

  ghost predicate HeaderTrips(f: Formats, h: Header) { f.parse(f.json(h)) == Some(h) }

  ghost predicate BytesTrip(f: Formats, x: seq<Byte>) { f.inflate(f.deflate(x)) == Some(x) }

  /** The sparse payload before compression. */
  function SparseBody(bits: seq<Byte>, blocks: seq<Byte>): seq<Byte>
    requires |bits| < WORD
  {
    PackBig(|bits|) + bits + blocks
  }

  function BlobOf(f: Formats, h: Header, payload: seq<Byte>): seq<Byte>
    requires |f.json(h)| < WORD
  {
    PackBig(|f.json(h)|) + f.json(h) + payload
  }

  /** split: the header and the payload, or None where SnapshotRejected is raised. */
  function SplitBlob(f: Formats, blob: seq<Byte>): Option<(Header, seq<Byte>)> {
    if |blob| < 4 then None
    else
      var hlen := UnpackBig(blob[..4]);
      match f.parse(Cut(blob, 4, 4 + hlen))
      case None => None
      case Some(h) => Some((h, Cut(blob, 4 + hlen, 4 + hlen + |blob|)))
  }

  /** The bitmap and the blocks of a sparse payload, or None where struct.error is raised. */
  function SplitBody(body: seq<Byte>): Option<(seq<Byte>, seq<Byte>)> {
    if |body| < 4 then None
    else
      var blen := UnpackBig(body[..4]);
      Some((Cut(body, 4, 4 + blen), Cut(body, 4 + blen, 4 + blen + |body|)))
  }

  lemma {:induction false} FramedSplits(a: seq<Byte>, b: seq<Byte>)
    requires |a| < WORD
    ensures var x := PackBig(|a|) + a + b;
            |x| >= 4 && UnpackBig(x[..4]) == |a| && Cut(x, 4, 4 + |a|) == a && Cut(x, 4 + |a|, 4 + |a| + |x|) == b
  {
    var x := PackBig(|a|) + a + b;
    assert x[..4] == PackBig(|a|);
    PackBigUnpacks(|a|);
    assert x[4..4 + |a|] == a && x[4 + |a|..] == b;
  }

  /** encode: None where ValueError or struct.error is raised. */
  method Encode(f: Formats, mem: seq<Byte>, globals: Globals, moduleDigest: string, codec: Codec)
    returns (blob: Option<seq<Byte>>, ghost bits: seq<Byte>, ghost blocks: seq<Byte>)
    ensures codec.UnknownCodec? ==> blob.None?
    ensures blob.None? ==>
              codec.UnknownCodec? || (|mem| / PAGE + 7) / 8 >= WORD ||
              exists payload :: |f.json(HeaderOf(f, mem, globals, moduleDigest, codec, payload))| >= WORD
    ensures blob.Some? ==> IsSnapshot(f, mem, globals, moduleDigest, codec, bits, blocks, blob.value)
  {
    bits, blocks := [], [];
    if codec.UnknownCodec? {
      return None, bits, blocks;
    }
    var payload := mem;
    if !codec.Raw? {
      var bitmap, stored := Bitmap(mem);
      bits, blocks := bitmap, stored;
      if |bitmap| >= WORD {
        return None, bits, blocks;
      }
      payload := SparseBody(bitmap, stored);
      if codec.SparseZlib1? {
        payload := f.deflate(payload);
      }
    }
    var h := HeaderOf(f, mem, globals, moduleDigest, codec, payload);
    if |f.json(h)| >= WORD {
      return None, bits, blocks;
    }
    blob := Some(BlobOf(f, h, payload));
  }

  function Payload(f: Formats, mem: seq<Byte>, codec: Codec, bits: seq<Byte>, blocks: seq<Byte>): seq<Byte>
    requires codec.Raw? || |bits| < WORD
  {
    match codec
    case Raw => mem
    case SparseZlib1 => f.deflate(SparseBody(bits, blocks))
    case _ => SparseBody(bits, blocks)
  }

  function HeaderOf(f: Formats, mem: seq<Byte>, globals: Globals, moduleDigest: string, codec: Codec,
                    payload: seq<Byte>): Header {
    Header(SnapshotV1, codec, moduleDigest, |mem| / WASM_PAGE, globals, f.sha256(mem), f.sha256(payload))
  }

  /** What encode writes. */
  ghost predicate IsSnapshot(f: Formats, mem: seq<Byte>, globals: Globals, moduleDigest: string, codec: Codec,
                             bits: seq<Byte>, blocks: seq<Byte>, blob: seq<Byte>) {
    && !codec.UnknownCodec? && (codec.Raw? || (|bits| < WORD && Maps(mem, |mem| / PAGE, bits, blocks)))
    && var payload := Payload(f, mem, codec, bits, blocks);
    && var h := HeaderOf(f, mem, globals, moduleDigest, codec, payload);
    |f.json(h)| < WORD && blob == BlobOf(f, h, payload)
  }

  /** size // PAGE, and no block for a negative page count. */
  function BlockCount(pages: int): nat {
    if pages < 0 then 0 else pages * WASM_PAGE / PAGE
  }

  function Inflated(f: Formats, codec: Codec, payload: seq<Byte>): Option<seq<Byte>> {
    if codec.SparseZlib1? then f.inflate(payload) else Some(payload)
  }

  ghost predicate HeaderOk(f: Formats, h: Header, payload: seq<Byte>, verify: bool) {
    h.protocol.SnapshotV1? && !h.codec.UnknownCodec? && (verify ==> f.sha256(payload) == h.payloadDigest)
  }

  /** The bitmap covers the memory, and there are as many blocks as set bits. */
  ghost predicate BodyOk(bits: seq<Byte>, blocks: seq<Byte>, pages: int) {
    BlockCount(pages) <= 8 * |bits| && |blocks| == PAGE * |Ones(bits, BlockCount(pages))|
  }

  /** What decode accepts. */
  ghost predicate Acceptable(f: Formats, blob: seq<Byte>, verify: bool) {
    match SplitBlob(f, blob)
    case None => false
    case Some((h, payload)) =>
      && HeaderOk(f, h, payload, verify)
      && if h.codec.Raw? then |payload| == h.pages * WASM_PAGE
         else
           var body := Inflated(f, h.codec, payload);
           && body.Some? && SplitBody(body.value).Some?
           && BodyOk(SplitBody(body.value).value.0, SplitBody(body.value).value.1, h.pages)
  }

  /** What decode returns. */
  ghost predicate Decodes(f: Formats, blob: seq<Byte>, h: Header, runs: seq<Run>, pieces: seq<Piece>) {
    match SplitBlob(f, blob)
    case None => false
    case Some((header, payload)) =>
      && h == header
      && if h.codec.Raw? then pieces == [Piece(0, payload)]
         else
           var body := Inflated(f, h.codec, payload);
           && body.Some? && SplitBody(body.value).Some?
           && var (bits, blocks) := SplitBody(body.value).value;
           && BodyOk(bits, blocks, h.pages) && Separated(runs) && Expand(runs) == Ones(bits, BlockCount(h.pages))
           && pieces == PiecesOf(runs, blocks)
  }

  /** decode: None where an exception is raised. */
  method Decode(f: Formats, blob: seq<Byte>, verify: bool)
    returns (r: Option<(Header, seq<Piece>)>, ghost runs: seq<Run>)
    ensures r.Some? <==> Acceptable(f, blob, verify)
    ensures r.Some? ==> Decodes(f, blob, r.value.0, runs, r.value.1)
  {
    r, runs := None, [];
    var parts := SplitBlob(f, blob);
    if parts.None? {
      return;
    }
    var (h, payload) := parts.value;
    if !h.protocol.SnapshotV1? || h.codec.UnknownCodec? || (verify && f.sha256(payload) != h.payloadDigest) {
      return;
    }
    if h.codec.Raw? {
      if |payload| == h.pages * WASM_PAGE {
        r := Some((h, [Piece(0, payload)]));
      }
      return;
    }
    var body := Inflated(f, h.codec, payload);
    if body.None? || SplitBody(body.value).None? {
      return;
    }
    var (bits, blocks) := SplitBody(body.value).value;
    if BlockCount(h.pages) <= 8 * |bits| {
      var pieces, pos;
      pieces, pos, runs := Scan(bits, blocks, BlockCount(h.pages));
      if pos == |blocks| {
        r := Some((h, pieces));
      }
    }
  }

  /** Any sparse blob decode accepts yields runs that are sorted, disjoint, maximal and inside the memory. */
  lemma {:induction false} DecodedIsTidy(f: Formats, blob: seq<Byte>, h: Header, runs: seq<Run>, pieces: seq<Piece>)
    requires Decodes(f, blob, h, runs, pieces) && !h.codec.Raw?
    ensures Tidy(pieces, BlockCount(h.pages) * PAGE)
  {
    var payload := SplitBlob(f, blob).value.1;
    var (bits, blocks) := SplitBody(Inflated(f, h.codec, payload).value).value;
    AcceptedIsTidy(bits, BlockCount(h.pages), blocks, runs);
  }

  /** Decoding finds the header and the payload that were encoded. */
  lemma {:induction false} SnapshotSplits(f: Formats, mem: seq<Byte>, globals: Globals, moduleDigest: string,
                                          codec: Codec, bits: seq<Byte>, blocks: seq<Byte>, blob: seq<Byte>)
    requires RoundTrips(f) && IsSnapshot(f, mem, globals, moduleDigest, codec, bits, blocks, blob)
    ensures var payload := Payload(f, mem, codec, bits, blocks);
            && SplitBlob(f, blob) == Some((HeaderOf(f, mem, globals, moduleDigest, codec, payload), payload))
            && (!codec.Raw? ==>
                  && Inflated(f, codec, payload) == Some(SparseBody(bits, blocks))
                  && SplitBody(SparseBody(bits, blocks)) == Some((bits, blocks)))
  {
    var payload := Payload(f, mem, codec, bits, blocks);
    var h := HeaderOf(f, mem, globals, moduleDigest, codec, payload);
    FramedSplits(f.json(h), payload);
    assert HeaderTrips(f, h);
    if !codec.Raw? {
      FramedSplits(bits, blocks);
      assert BytesTrip(f, SparseBody(bits, blocks));
    }
  }

  lemma {:induction false} WholePages(mem: seq<Byte>)
    requires |mem| % WASM_PAGE == 0
    ensures |mem| % PAGE == 0 && |mem| / WASM_PAGE * WASM_PAGE == |mem|
    ensures BlockCount(|mem| / WASM_PAGE) == |mem| / PAGE
  {
    assert WASM_PAGE == 16 * PAGE;
    var pages := |mem| / WASM_PAGE;
    assert |mem| == pages * 16 * PAGE;
  }

  /** Every memory of whole Wasm pages survives every codec: its snapshot is accepted, digest checked or not, ... */
  lemma {:induction false} SnapshotAccepted(f: Formats, mem: seq<Byte>, globals: Globals, moduleDigest: string,
                                            codec: Codec, bits: seq<Byte>, blocks: seq<Byte>, blob: seq<Byte>,
                                            verify: bool)
    requires RoundTrips(f) && |mem| % WASM_PAGE == 0
    requires IsSnapshot(f, mem, globals, moduleDigest, codec, bits, blocks, blob)
    ensures Acceptable(f, blob, verify)
  {
    SnapshotSplits(f, mem, globals, moduleDigest, codec, bits, blocks, blob);
    WholePages(mem);
    if !codec.Raw? {
      MapsCounts(mem, bits, blocks);
    }
  }

  lemma {:induction false} MapsCounts(mem: seq<Byte>, bits: seq<Byte>, blocks: seq<Byte>)
    requires Maps(mem, |mem| / PAGE, bits, blocks)
    ensures |mem| / PAGE <= 8 * |bits| && |blocks| == PAGE * |Ones(bits, |mem| / PAGE)|
  {
    var n, all := |mem| / PAGE, Split(mem);
    MapsOnes(mem, bits, blocks);
    FlattenLength(Pick(all, NonZeros(all, n)));
  }

  /** ... and what decode returns for it, copied into zero memory, is the memory. */
  lemma {:induction false} SnapshotRestores(f: Formats, mem: seq<Byte>, globals: Globals, moduleDigest: string,
                                            codec: Codec, bits: seq<Byte>, blocks: seq<Byte>, blob: seq<Byte>,
                                            h: Header, runs: seq<Run>, pieces: seq<Piece>)
    requires RoundTrips(f) && |mem| % WASM_PAGE == 0
    requires IsSnapshot(f, mem, globals, moduleDigest, codec, bits, blocks, blob)
    requires Decodes(f, blob, h, runs, pieces)
    ensures h.pages * WASM_PAGE == |mem| && h.globals == globals && h.moduleDigest == moduleDigest
    ensures AllFit(pieces, |mem|) && Apply(Zeros(|mem|), pieces) == mem
  {
    SnapshotSplits(f, mem, globals, moduleDigest, codec, bits, blocks, blob);
    WholePages(mem);
    if codec.Raw? {
      assert pieces[..0] == [];
      assert pieces == [] + [Piece(0, mem)];
      ApplySnoc(Zeros(|mem|), [], Piece(0, mem));
    } else {
      SparseRestores(mem, bits, blocks, runs);
    }
  }

  /** A piece that can be copied: it fits, and there is something to copy, since an empty buffer has no address. */
  predicate Copyable(p: Piece, size: nat) {
    p.data != [] && Fits(p, size)
  }

  ghost predicate AllCopyable(pieces: seq<Piece>, size: nat) {
    forall i | 0 <= i < |pieces| :: Copyable(pieces[i], size)
  }

  /** restore_into: None where the snapshot is for another module, memory cannot shrink, or a run cannot be copied. */
  method RestoreInto(h: Header, pieces: seq<Piece>, moduleDigest: string, minPages: nat)
    returns (r: Option<(seq<Byte>, Globals)>)
    ensures r.Some? <==>
            && h.moduleDigest == moduleDigest && h.pages >= minPages && AllCopyable(pieces, h.pages * WASM_PAGE)
    ensures r.Some? ==>
              AllFit(pieces, h.pages * WASM_PAGE) && r.value == (Apply(Zeros(h.pages * WASM_PAGE), pieces), h.globals)
  {
    if h.moduleDigest != moduleDigest || h.pages < minPages {
      return None;
    }
    var mem := Zeros(h.pages * WASM_PAGE);
    for k := 0 to |pieces|
      invariant AllCopyable(pieces[..k], |mem|) && AllFit(pieces[..k], |mem|) && |mem| == h.pages * WASM_PAGE
      invariant mem == Apply(Zeros(h.pages * WASM_PAGE), pieces[..k])
    {
      if !Copyable(pieces[k], |mem|) {
        return None;
      }
      ApplySnoc(Zeros(h.pages * WASM_PAGE), pieces[..k], pieces[k]);
      assert pieces[..k + 1] == pieces[..k] + [pieces[k]];
      mem := Poke(mem, pieces[k]);
    }
    assert pieces[..|pieces|] == pieces;
    r := Some((mem, h.globals));
  }

  lemma {:induction false} OneCopyable(pieces: seq<Piece>, mem: seq<Byte>)
    requires pieces == [Piece(0, mem)]
    ensures AllCopyable(pieces, |mem|) <==> mem != []
  {
    assert Copyable(pieces[0], |mem|) <==> mem != [];
  }

  lemma {:induction false} TidyCopyable(pieces: seq<Piece>, size: nat)
    requires Tidy(pieces, size)
    ensures AllCopyable(pieces, size)
  {
  }

  /**
   The round trip through restore_into: a snapshot of a memory of whole Wasm pages can be restored if and only if it is
   not the raw snapshot of an empty memory, whose one run is empty.
   */
  lemma {:induction false} RestoresExactly(f: Formats, mem: seq<Byte>, globals: Globals, moduleDigest: string,
                                           codec: Codec, bits: seq<Byte>, blocks: seq<Byte>, blob: seq<Byte>,
                                           h: Header, runs: seq<Run>, pieces: seq<Piece>)
    requires RoundTrips(f) && |mem| % WASM_PAGE == 0
    requires IsSnapshot(f, mem, globals, moduleDigest, codec, bits, blocks, blob)
    requires Decodes(f, blob, h, runs, pieces)
    ensures AllCopyable(pieces, |mem|) <==> !(codec.Raw? && mem == [])
  {
    SnapshotSplits(f, mem, globals, moduleDigest, codec, bits, blocks, blob);
    WholePages(mem);
    if codec.Raw? {
      OneCopyable(pieces, mem);
    } else {
      DecodedIsTidy(f, blob, h, runs, pieces);
      TidyCopyable(pieces, |mem|);
    }
  }
}
