/**
 The journal as a file of bytes (vdb_c1/journal.py): one canonical line per record, torn
 tails dropped on open, anything else that is not the chain refused.
 */
module JournalFile {
  import opened Bytes
  import opened Options
  import opened States
  import opened Canon
  import opened Journals

  const LF: Byte := 10
  const CR: Byte := 13

  /**
   The line codec: RFC 8785 encoding and JSON parsing. Parsing accepts any formatting, so
   only the round trip is required. Section 3.2.2.2 of RFC 8785 escapes control characters,
   so an encoded line holds no line break.
   */
  datatype Codec = Codec(encode: Record -> seq<Byte>, decode: seq<Byte> -> Option<Record>)

  /** The round trip, and no line break; PlainLines holds a codec of this kind. */
  ghost predicate LineCodec(c: Codec) {
    forall r :: c.decode(c.encode(r)) == Some(r) && LF !in c.encode(r) && CR !in c.encode(r)
  }

  function EncodeLine(c: Codec, r: Record): seq<Byte> {
    c.encode(r) + [LF]
  }

  /** The bytes of a list of records. */
  function EncodeAll(c: Codec, recs: seq<Record>): seq<Byte> {
    if recs == [] then [] else EncodeAll(c, recs[..|recs| - 1]) + EncodeLine(c, recs[|recs| - 1])
  }

  // ---------------------------------------------------------------- lines

  predicate IsBreak(b: Byte) { b == LF || b == CR }

  /** The end of the first line. */
  function LineEnd(data: seq<Byte>): (n: nat)
    ensures n <= |data|
    ensures forall i | 0 <= i < n :: !IsBreak(data[i])
    ensures n < |data| ==> IsBreak(data[n])
  {
    if data == [] || IsBreak(data[0]) then 0 else 1 + LineEnd(data[1..])
  }

  lemma {:induction false} LineEndIs(data: seq<Byte>, n: nat)
    requires n <= |data| && (forall i | 0 <= i < n :: !IsBreak(data[i])) && (n < |data| ==> IsBreak(data[n]))
    ensures LineEnd(data) == n
  {
    if n > 0 {
      LineEndIs(data[1..], n - 1);
    }
  }

  /** Where the line after the first one starts. */
  function LineAfter(data: seq<Byte>, n: nat): (k: nat)
    requires n < |data|
    ensures n < k <= |data|
  {
    if data[n] == CR && n + 1 < |data| && data[n + 1] == LF then n + 2 else n + 1
  }

  /** bytes.splitlines: lines end at LF, CR or CR LF. */
  function Splitlines(data: seq<Byte>): seq<seq<Byte>>
    decreases |data|
  {
    if data == [] then []
    else
      var n := LineEnd(data);
      [data[..n]] + if n == |data| then [] else Splitlines(data[LineAfter(data, n)..])
  }

  /** The length up to and including the last LF (data.rfind + 1). */
  function Complete(data: seq<Byte>): (n: nat)
    ensures n <= |data|
    ensures n > 0 ==> data[n - 1] == LF
    ensures LF !in data[n..]
  {
    if data == [] then 0
    else if data[|data| - 1] == LF then |data|
    else
      assert data == data[..|data| - 1] + [data[|data| - 1]];
      Complete(data[..|data| - 1])
  }

  /**
   A line is a record that continues the chain. The coordinator also demands that it is the
   record's canonical encoding (`strict`); the witness does not.
   */
  function ParseLine(c: Codec, line: seq<Byte>, seqno: nat, prev: Hash, strict: bool): Option<Record> {
    match c.decode(line)
    case None => None
    case Some(r) => if Linked(r, seqno, prev) && (strict ==> c.encode(r) == line) then Some(r) else None
  }

  /** The records of a list of lines, or None where reading them is refused. */
  function ParseLines(c: Codec, lines: seq<seq<Byte>>, strict: bool): Option<seq<Record>> {
    if lines == [] then Some([])
    else
      match ParseLines(c, lines[..|lines| - 1], strict)
      case None => None
      case Some(recs) =>
        match ParseLine(c, lines[|lines| - 1], |recs|, HeadHash(recs), strict)
        case None => None
        case Some(r) => Some(recs + [r])
  }

  /** _load: the torn tail is dropped, then every line must parse. */
  function LoadRecords(c: Codec, data: seq<Byte>): Option<seq<Record>> {
    ParseLines(c, Splitlines(data[..Complete(data)]), true)
  }

  // ---------------------------------------------------------------- encoded files load

  lemma {:induction false} FirstLine(line: seq<Byte>, rest: seq<Byte>)
    requires LF !in line && CR !in line
    ensures Splitlines(line + [LF] + rest) == [line] + Splitlines(rest)
  {
    var data := line + [LF] + rest;
    NoBreak(line);
    LineEndIs(data, |line|);
    assert data[..|line|] == line && data[|line| + 1..] == rest;
  }

  lemma {:induction false} NoBreak(line: seq<Byte>)
    requires LF !in line && CR !in line
    ensures forall i | 0 <= i < |line| :: !IsBreak(line[i])
  {
    forall i | 0 <= i < |line| ensures !IsBreak(line[i]) {
      assert line[i] in line;
    }
  }

  lemma {:induction false} SplitAppend(c: Codec, recs: seq<Record>, tail: seq<Byte>)
    requires LineCodec(c)
    ensures Splitlines(EncodeAll(c, recs) + tail) == EncodedLines(c, recs) + Splitlines(tail)
    decreases |recs|
  {
    if recs == [] {
      assert EncodeAll(c, recs) + tail == tail;
      assert EncodedLines(c, recs) + Splitlines(tail) == Splitlines(tail);
    } else {
      var before, r := recs[..|recs| - 1], recs[|recs| - 1];
      SplitAppend(c, before, EncodeLine(c, r) + tail);
      assert EncodeAll(c, recs) + tail == EncodeAll(c, before) + (EncodeLine(c, r) + tail);
      assert EncodeLine(c, r) + tail == c.encode(r) + [LF] + tail;
      FirstLine(c.encode(r), tail);
      assert EncodedLines(c, recs) + Splitlines(tail) == EncodedLines(c, before) + ([c.encode(r)] + Splitlines(tail));
    }
  }

  function EncodedLines(c: Codec, recs: seq<Record>): (lines: seq<seq<Byte>>) {
    if recs == [] then [] else EncodedLines(c, recs[..|recs| - 1]) + [c.encode(recs[|recs| - 1])]
  }

  lemma {:induction false} ParseEncoded(c: Codec, recs: seq<Record>, strict: bool)
    requires LineCodec(c) && Chain(recs)
    ensures ParseLines(c, EncodedLines(c, recs), strict) == Some(recs)
    decreases |recs|
  {
    if recs != [] {
      var before, r := recs[..|recs| - 1], recs[|recs| - 1];
      assert recs == before + [r];
      ChainSnoc(before, r);
      ParseEncoded(c, before, strict);
      ParseSnoc(c, EncodedLines(c, before), before, r, strict);
    }
  }

  lemma {:induction false} ParseSnoc(c: Codec, lines: seq<seq<Byte>>, recs: seq<Record>, r: Record, strict: bool)
    requires LineCodec(c) && ParseLines(c, lines, strict) == Some(recs) && Linked(r, |recs|, HeadHash(recs))
    ensures ParseLines(c, lines + [c.encode(r)], strict) == Some(recs + [r])
  {
    assert (lines + [c.encode(r)])[..|lines|] == lines;
  }

  lemma {:induction false} EncodedIsComplete(c: Codec, recs: seq<Record>, torn: seq<Byte>)
    requires LF !in torn
    ensures Complete(EncodeAll(c, recs) + torn) == |EncodeAll(c, recs)|
    decreases |torn|
  {
    var all := EncodeAll(c, recs);
    if torn == [] {
      assert all + torn == all;
    } else {
      assert torn[|torn| - 1] in torn;
      assert (all + torn)[..|all + torn| - 1] == all + torn[..|torn| - 1];
      EncodedIsComplete(c, recs, torn[..|torn| - 1]);
    }
  }

  /**
   Torn-tail recovery: after a crash in the middle of appending any further record, opening
   the file gives exactly the records before it and truncates the file to their encoding.
   */
  lemma {:induction false} TornTailDropped(c: Codec, recs: seq<Record>, r: Record, torn: seq<Byte>)
    requires LineCodec(c) && Chain(recs)
    requires torn < EncodeLine(c, r)
    ensures var data := EncodeAll(c, recs) + torn;
            && LoadRecords(c, data) == Some(recs)
            && data[..Complete(data)] == EncodeAll(c, recs)
  {
    forall i | 0 <= i < |torn|
      ensures torn[i] != LF
    {
      assert torn[i] == EncodeLine(c, r)[i] == c.encode(r)[i];
      assert c.encode(r)[i] in c.encode(r);
    }
    EncodedIsComplete(c, recs, torn);
    var data := EncodeAll(c, recs) + torn;
    assert data[..Complete(data)] == EncodeAll(c, recs) + [];
    SplitAppend(c, recs, []);
    assert EncodedLines(c, recs) + Splitlines([]) == EncodedLines(c, recs);
    ParseEncoded(c, recs, true);
    assert EncodeAll(c, recs) + [] == EncodeAll(c, recs);
  }

  // ---------------------------------------------------------------- what loads is the encoding

  /** A line list that parses is a chain; parsed strictly, it is the encoding of one. */
  lemma {:induction false} ParsedIsChain(c: Codec, lines: seq<seq<Byte>>, strict: bool)
    requires ParseLines(c, lines, strict).Some?
    ensures var recs := ParseLines(c, lines, strict).value; Chain(recs) && (strict ==> EncodedLines(c, recs) == lines)
    decreases |lines|
  {
    if lines != [] {
      var before, line := lines[..|lines| - 1], lines[|lines| - 1];
      ParsedIsChain(c, before, strict);
      var recs := ParseLines(c, before, strict).value;
      var r := ParseLine(c, line, |recs|, HeadHash(recs), strict).value;
      ChainSnoc(recs, r);
      assert (recs + [r])[..|recs|] == recs;
      assert lines == before + [line];
    }
  }

  lemma {:induction false} ChainSnoc(recs: seq<Record>, r: Record)
    ensures Chain(recs + [r]) <==> Chain(recs) && Linked(r, |recs|, HeadHash(recs))
  {
    var all := recs + [r];
    assert all[..|recs|] == recs && all[|recs|] == r;
    forall i | 0 <= i < |recs|
      ensures Linked(all[i], i, HeadHash(all[..i])) == Linked(recs[i], i, HeadHash(recs[..i]))
    {
      assert all[..i] == recs[..i];
    }
    if Chain(all) {
      assert Linked(all[|recs|], |recs|, HeadHash(all[..|recs|]));
      ChainPrefix(all, |recs|);
    }
  }

  /** Joining lines with LF. */
  function Join(lines: seq<seq<Byte>>): seq<Byte> {
    if lines == [] then [] else Join(lines[..|lines| - 1]) + (lines[|lines| - 1] + [LF])
  }

  lemma {:induction false} JoinCons(line: seq<Byte>, lines: seq<seq<Byte>>)
    ensures Join([line] + lines) == line + [LF] + Join(lines)
    decreases |lines|
  {
    if lines == [] {
      assert [line] + lines == [line];
      assert [line][..0] == [];
    } else {
      assert ([line] + lines)[..|lines|] == [line] + lines[..|lines| - 1];
      JoinCons(line, lines[..|lines| - 1]);
    }
  }

  lemma {:induction false} JoinSplit(data: seq<Byte>)
    requires CR !in data && (data == [] || data[|data| - 1] == LF)
    ensures Join(Splitlines(data)) == data
    decreases |data|
  {
    if data != [] {
      var n := LineEnd(data);
      FirstLineOf(data);
      JoinSplit(data[n + 1..]);
      JoinCons(data[..n], Splitlines(data[n + 1..]));
    }
  }

  lemma {:induction false} FirstLineOf(data: seq<Byte>)
    requires CR !in data && data != [] && data[|data| - 1] == LF
    ensures var n := LineEnd(data);
            && n < |data| && CR !in data[n + 1..] && (n + 1 < |data| ==> data[n + 1..][|data| - n - 2] == LF)
            && data == data[..n] + [LF] + data[n + 1..]
            && Splitlines(data) == [data[..n]] + Splitlines(data[n + 1..])
  {
    LastIsBreak(data);
    assert data[LineEnd(data)] in data;
  }

  lemma {:induction false} LastIsBreak(data: seq<Byte>)
    requires data != [] && data[|data| - 1] == LF
    ensures LineEnd(data) < |data|
    ensures data[LineEnd(data)] == CR ==> LineEnd(data) + 1 < |data|
  {
    assert IsBreak(data[|data| - 1]);
  }

  lemma {:induction false} JoinEncoded(c: Codec, recs: seq<Record>)
    ensures Join(EncodedLines(c, recs)) == EncodeAll(c, recs)
  {
    if recs != [] {
      JoinEncoded(c, recs[..|recs| - 1]);
      var lines := EncodedLines(c, recs);
      assert lines[..|lines| - 1] == EncodedLines(c, recs[..|recs| - 1]);
    }
  }

  lemma {:induction false} EncodedHasNoCr(c: Codec, recs: seq<Record>)
    requires LineCodec(c)
    ensures CR !in EncodeAll(c, recs)
  {
    if recs != [] {
      EncodedHasNoCr(c, recs[..|recs| - 1]);
    }
  }

  /**
   Nothing but the chain's own encoding loads, up to line endings: a file that loads keeps
   exactly the encoding of its records if and only if it holds no carriage return.
   */
  lemma {:induction false} LoadedIsEncoding(c: Codec, data: seq<Byte>)
    requires LineCodec(c) && LoadRecords(c, data).Some?
    ensures var recs, kept := LoadRecords(c, data).value, data[..Complete(data)];
            Chain(recs) && (kept == EncodeAll(c, recs) <==> CR !in kept)
  {
    var recs, kept := LoadRecords(c, data).value, data[..Complete(data)];
    ParsedIsChain(c, Splitlines(kept), true);
    EncodedHasNoCr(c, recs);
    if CR !in kept {
      JoinSplit(kept);
      JoinEncoded(c, recs);
    }
  }

  /** The exception is real: CR LF line ends load, and are kept as they are. */
  lemma {:induction false} CarriageReturnsLoad(c: Codec, r: Record)
    requires LineCodec(c) && Chain([r])
    ensures var data := c.encode(r) + [CR, LF];
            && LoadRecords(c, data) == Some([r])
            && data[..Complete(data)] == data != EncodeAll(c, [r])
  {
    var line := c.encode(r);
    var data := line + [CR, LF];
    assert Complete(data) == |data|;
    assert data[..|data|] == data;
    NoBreak(line);
    LineEndIs(data, |line|);
    assert data[..|line|] == line && data[|line| + 2..] == [];
    assert Splitlines(data) == [line] + [];
    assert EncodedLines(c, [r]) == [line] by {
      assert [r][..0] == [];
    }
    ParseEncoded(c, [r], true);
    EncodedHasNoCr(c, [r]);
    assert data[|line|] == CR;
  }

  // ---------------------------------------------------------------- the journal object

  /** The loop of _load and _read_journal, with its running hash. */
  method ParseAll(c: Codec, lines: seq<seq<Byte>>, strict: bool) returns (r: Option<seq<Record>>)
    ensures r == ParseLines(c, lines, strict)
  {
    var recs: seq<Record>, prev := [], GENESIS;
    for i := 0 to |lines|
      invariant ParseLines(c, lines[..i], strict) == Some(recs) && prev == HeadHash(recs) && |recs| == i
    {
      assert lines[..i + 1][..i] == lines[..i];
      var rec := ParseLine(c, lines[i], i, prev, strict);
      if rec.None? {
        CorruptStays(c, lines, i + 1, strict);
        return None;
      }
      recs := recs + [rec.value];
      prev := rec.value.hash;
    }
    assert lines[..|lines|] == lines;
    return Some(recs);
  }

  lemma {:induction false} CompleteConcat(data: seq<Byte>, tail: seq<Byte>)
    requires Complete(data) == |data| && LF !in tail
    ensures Complete(data + tail) == |data|
    decreases |tail|
  {
    if tail == [] {
      assert data + tail == data;
    } else {
      var shorter := tail[..|tail| - 1];
      assert (data + tail)[..|data + tail| - 1] == data + shorter;
      CompleteConcat(data, shorter);
    }
  }

  /** A cut line adds no complete line. */
  lemma {:induction false} TornKeeps(c: Codec, data: seq<Byte>, r: Record, cut: nat)
    requires LineCodec(c) && Complete(data) == |data| && cut < |EncodeLine(c, r)|
    ensures var torn := data + EncodeLine(c, r)[..cut];
            Complete(torn) == |data| && torn[..|data|] == data && LoadRecords(c, torn) == LoadRecords(c, data)
  {
    var tail := EncodeLine(c, r)[..cut];
    assert tail == c.encode(r)[..cut];
    CompleteConcat(data, tail);
    assert (data + tail)[..|data|] == data == data[..|data|];
  }

  class Journal {
    const codec: Codec
    /** None while the file does not exist. */
    var file: Option<seq<Byte>>
    var records: seq<Record>
    var tornTailBytes: nat

    /** The records in memory are the chain the file holds. */
    ghost predicate Valid()
      reads this
    {
      && LineCodec(codec)
      && Chain(records)
      && (if file.None? then records == []
          else LoadRecords(codec, file.value) == Some(records) && Complete(file.value) == |file.value|)
    }

    constructor (codec: Codec, file: Option<seq<Byte>>)
      ensures this.codec == codec && this.file == file && records == [] && tornTailBytes == 0
    {
      this.codec, this.file := codec, file;
      records, tornTailBytes := [], 0;
    }

    /** _load: repairs a torn tail, then checks every line; false where JournalCorrupt is raised. */
    method Load() returns (ok: bool)
      requires LineCodec(codec)
      modifies this
      ensures ok == (old(file).None? || LoadRecords(codec, old(file).value).Some?)
      ensures ok ==> Valid()
      ensures ok ==> records == if old(file).None? then [] else LoadRecords(codec, old(file).value).value
      ensures file == if old(file).None? then None else Some(old(file).value[..Complete(old(file).value)])
      ensures tornTailBytes == if old(file).None? then 0 else |old(file).value| - Complete(old(file).value)
    {
      tornTailBytes := 0;
      if file.None? {
        records := [];
        return true;
      }
      var data := file.value;
      var keep := Complete(data);
      tornTailBytes := |data| - keep;
      data := data[..keep];
      file := Some(data);
      CompleteAgain(old(file).value);
      var recs := ParseAll(codec, Splitlines(data), true);
      if recs.None? {
        return false;
      }
      ParsedIsChain(codec, Splitlines(data), true);
      records := recs.value;
      return true;
    }

    /** The process dies inside append: some bytes of the line, but not its end, reach the file. Load undoes that. */
    method AppendTorn(kind: Label, intentId: string, body: Body, at: Stamp, cut: nat)
      requires Valid() && cut < |EncodeLine(codec, NextRecord(records, kind, intentId, body, at))|
      modifies this`file
      ensures file.Some? && LoadRecords(codec, file.value) == Some(records)
      ensures file.value[..Complete(file.value)] == if old(file).None? then [] else old(file).value
      ensures |file.value| == Complete(file.value) + cut
    {
      var line := EncodeLine(codec, NextRecord(records, kind, intentId, body, at));
      var data := if file.None? then [] else file.value;
      TornKeeps(codec, data, NextRecord(records, kind, intentId, body, at), cut);
      file := Some(data + line[..cut]);
    }

    /** append: one encoded line at the end of the file, one record at the end of the list. */
    method Append(kind: Label, intentId: string, body: Body, at: Stamp) returns (r: Record)
      requires Valid()
      modifies this
      ensures Valid()
      ensures r == NextRecord(old(records), kind, intentId, body, at) && records == old(records) + [r]
      ensures file == Some((if old(file).None? then [] else old(file).value) + EncodeLine(codec, r))
    {
      r := NextRecord(records, kind, intentId, body, at);
      AppendKeepsChain(records, kind, intentId, body, at);
      var data := if file.None? then [] else file.value;
      AppendLoads(codec, data, records, r);
      file := Some(data + EncodeLine(codec, r));
      records := records + [r];
    }
  }

  lemma {:induction false} CompleteAgain(data: seq<Byte>)
    ensures Complete(data[..Complete(data)]) == Complete(data)
    ensures data[..Complete(data)][..Complete(data)] == data[..Complete(data)]
  {
    var n := Complete(data);
    if n > 0 {
      assert data[..n][n - 1] == LF;
    }
  }

  lemma {:induction false} CorruptStays(c: Codec, lines: seq<seq<Byte>>, n: nat, strict: bool)
    requires n <= |lines| && ParseLines(c, lines[..n], strict).None?
    ensures ParseLines(c, lines, strict).None?
    decreases |lines|
  {
    if n == |lines| {
      assert lines[..n] == lines;
    } else {
      assert lines[..|lines| - 1][..n] == lines[..n];
      CorruptStays(c, lines[..|lines| - 1], n, strict);
    }
  }

  /** Splitting is compositional at a line end. */
  lemma {:induction false} SplitConcat(data: seq<Byte>, line: seq<Byte>)
    requires (data == [] || data[|data| - 1] == LF) && LF !in line && CR !in line
    ensures Splitlines(data + (line + [LF])) == Splitlines(data) + [line]
    decreases |data|
  {
    if data == [] {
      assert data + (line + [LF]) == line + [LF] + [];
      FirstLine(line, []);
    } else {
      var first, rest := SplitStep(data, line + [LF]);
      SplitConcat(rest, line);
      assert [first] + (Splitlines(rest) + [line]) == [first] + Splitlines(rest) + [line];
    }
  }

  lemma {:induction false} SplitFirst(data: seq<Byte>, n: nat)
    requires n < |data| && LineEnd(data) == n
    ensures Splitlines(data) == [data[..n]] + Splitlines(data[LineAfter(data, n)..])
  {
  }

  lemma {:induction false} SameFirst(data: seq<Byte>, more: seq<Byte>)
    requires data != [] && data[|data| - 1] == LF
    ensures var n := LineEnd(data);
            n < |data| && LineEnd(data + more) == n && LineAfter(data + more, n) == LineAfter(data, n)
  {
    LastIsBreak(data);
    LineEndIs(data + more, LineEnd(data));
  }

  lemma {:induction false} SliceConcat(a: seq<Byte>, b: seq<Byte>, n: nat, k: nat)
    requires n <= |a| && k <= |a|
    ensures (a + b)[..n] == a[..n] && (a + b)[k..] == a[k..] + b
  {
  }

  /** The first line of a file that ends a line does not depend on what is appended. */
  lemma {:induction false} SplitStep(data: seq<Byte>, more: seq<Byte>) returns (first: seq<Byte>, rest: seq<Byte>)
    requires data != [] && data[|data| - 1] == LF
    ensures |rest| < |data| && (rest == [] || rest[|rest| - 1] == LF)
    ensures Splitlines(data) == [first] + Splitlines(rest)
    ensures Splitlines(data + more) == [first] + Splitlines(rest + more)
  {
    SameFirst(data, more);
    var n := LineEnd(data);
    var k := LineAfter(data, n);
    first, rest := data[..n], data[k..];
    assert rest == [] || rest[|rest| - 1] == data[|data| - 1];
    SplitFirst(data, n);
    SliceConcat(data, more, n, k);
    SplitFirst(data + more, n);
  }

  /** An appended record is loaded after the ones before it. */
  lemma {:induction false} AppendLoads(c: Codec, data: seq<Byte>, recs: seq<Record>, r: Record)
    requires LineCodec(c) && Linked(r, |recs|, HeadHash(recs))
    requires data == [] ==> recs == []
    requires LoadRecords(c, data) == Some(recs) && Complete(data) == |data|
    ensures var data' := data + EncodeLine(c, r);
            LoadRecords(c, data') == Some(recs + [r]) && Complete(data') == |data'|
  {
    var data' := data + EncodeLine(c, r);
    assert data'[|data'| - 1] == LF;
    assert data[..|data|] == data && data'[..|data'|] == data';
    SplitConcat(data, c.encode(r));
    ParseSnoc(c, Splitlines(data), recs, r, true);
  }
}
