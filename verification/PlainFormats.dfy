/** Formats that meet everything the managed host asks of JSON, zlib and SHA-256: its hypotheses can be met. */
module PlainFormats {
  import opened Options
  import opened Bytes
  import opened Guests
  import opened Snapshots
  import Traces
  import opened ManagedHosts

  // ---------------------------------------------------------------- numbers as bytes

  /** Base 256, a 1 before every digit and a 0 at the end. */
  function Digits(n: nat): (bytes: seq<Byte>) {
    if n == 0 then [0] else [1, (n % 256) as Byte] + Digits(n / 256)
  }

  function ReadNumber(bytes: seq<Byte>): (r: (nat, seq<Byte>))
    ensures bytes != [] ==> |r.1| < |bytes|
    decreases |bytes|
  {
    if bytes == [] then (0, [])
    else if bytes[0] == 0 || |bytes| < 2 then (0, bytes[1..])
    else
      var (n, rest) := ReadNumber(bytes[2..]);
      (256 * n + bytes[1] as nat, rest)
  }

  lemma {:induction false} ReadDigits(n: nat, rest: seq<Byte>)
    ensures ReadNumber(Digits(n) + rest) == (n, rest)
  {
    if n == 0 {
      assert (Digits(n) + rest)[1..] == rest;
    } else {
      ReadDigits(n / 256, rest);
      assert (Digits(n) + rest)[2..] == Digits(n / 256) + rest;
    }
  }

  function Numbers(ns: seq<nat>): (bytes: seq<Byte>) {
    if ns == [] then [] else Digits(ns[0]) + Numbers(ns[1..])
  }

  function ReadNumbers(bytes: seq<Byte>): (ns: seq<nat>)
    decreases |bytes|
  {
    if bytes == [] then [] else [ReadNumber(bytes).0] + ReadNumbers(ReadNumber(bytes).1)
  }

  lemma {:induction false} ReadsBack(ns: seq<nat>)
    ensures ReadNumbers(Numbers(ns)) == ns
  {
    if ns != [] {
      ReadsBack(ns[1..]);
      ReadDigits(ns[0], Numbers(ns[1..]));
      assert Digits(ns[0]) != [];
    }
  }

  lemma {:induction false} DigitsShort(n: nat, k: nat)
    requires n < Power(8 * k)
    ensures |Digits(n)| <= 2 * k + 1
  {
    if n > 0 {
      assert Power(8 * k) == 256 * Power(8 * (k - 1)) by { PowerStep(8 * (k - 1)); }
      DigitsShort(n / 256, k - 1);
    }
  }

  lemma {:induction false} PowerStep(n: nat)
    ensures Power(n + 8) == 256 * Power(n)
  {
    assert Power(n + 2) == 4 * Power(n);
    assert Power(n + 4) == 4 * Power(n + 2);
    assert Power(n + 6) == 4 * Power(n + 4);
    assert Power(n + 8) == 4 * Power(n + 6);
  }

  lemma {:induction false} NumbersShort(ns: seq<nat>)
    requires forall i | 0 <= i < |ns| :: ns[i] < Power(72)
    ensures |Numbers(ns)| <= 19 * |ns|
  {
    if ns != [] {
      DigitsShort(ns[0], 9);
      NumbersShort(ns[1..]);
    }
  }

  // ---------------------------------------------------------------- headers as numbers

  function Fold(x: int): nat {
    if x >= 0 then 2 * x else -2 * x - 1
  }

  function Unfold(n: nat): int {
    if n % 2 == 0 then n / 2 else -(n / 2) - 1
  }

  function CodecNumber(c: Codec): nat {
    match c
    case Raw => 0
    case Sparse => 1
    case SparseZlib1 => 2
    case UnknownCodec => 3
  }

  function NumberCodec(n: nat): Codec {
    if n == 0 then Raw else if n == 1 then Sparse else if n == 2 then SparseZlib1 else UnknownCodec
  }

  function Text(s: string): (ns: seq<nat>)
    ensures |ns| == |s|
  {
    seq(|s|, i requires 0 <= i < |s| => s[i] as nat)
  }

  function ReadChar(n: nat): char {
    if n < 0xD800 || 0xE000 <= n < 0x11_0000 then n as char else 'x'
  }

  function ReadText(ns: seq<nat>): (s: string)
    ensures |s| == |ns|
  {
    seq(|ns|, i requires 0 <= i < |ns| => ReadChar(ns[i]))
  }

  function Octets(bytes: seq<Byte>): (ns: seq<nat>)
    ensures |ns| == |bytes|
  {
    seq(|bytes|, i requires 0 <= i < |bytes| => bytes[i] as nat)
  }

  function ReadOctets(ns: seq<nat>): (bytes: seq<Byte>)
    ensures |bytes| == |ns|
  {
    seq(|ns|, i requires 0 <= i < |ns| => if ns[i] < 256 then ns[i] as Byte else 0)
  }

  /** The scalars and two lengths, then the texts. */
  function Scalars(h: Header): (ns: seq<nat>)
    ensures |ns| == 7
  {
    [if h.protocol.SnapshotV1? then 0 else 1, CodecNumber(h.codec), Fold(h.pages), Fold(h.globals.seed as int),
     Fold(h.globals.steps as int), |h.moduleDigest|, |h.memoryDigest|]
  }

  function ToNumbers(h: Header): (ns: seq<nat>) {
    Scalars(h) + (Text(h.moduleDigest) + (Octets(h.memoryDigest) + Octets(h.payloadDigest)))
  }

  function ReadGlobal(n: nat): I64 {
    var x := Unfold(n);
    if -0x8000_0000_0000_0000 <= x < 0x8000_0000_0000_0000 then x as I64 else 0
  }

  function FromNumbers(ns: seq<nat>): Option<Header> {
    if |ns| < 7 || |ns| < 7 + ns[5] + ns[6] then None
    else
      var a, b := 7 + ns[5], 7 + ns[5] + ns[6];
      Some(Header(if ns[0] == 0 then SnapshotV1 else UnknownProtocol, NumberCodec(ns[1]), ReadText(ns[7..a]),
                  Unfold(ns[2]), Globals(ReadGlobal(ns[3]), ReadGlobal(ns[4])), ReadOctets(ns[a..b]),
                  ReadOctets(ns[b..])))
  }

  lemma {:induction false} TextReads(s: string)
    ensures ReadText(Text(s)) == s
  {
    forall i | 0 <= i < |s|
      ensures ReadChar(s[i] as nat) == s[i]
    {
    }
  }

  lemma {:induction false} OctetsRead(bytes: seq<Byte>)
    ensures ReadOctets(Octets(bytes)) == bytes
  {
  }

  lemma {:induction false} FromTo(h: Header)
    ensures FromNumbers(ToNumbers(h)) == Some(h)
  {
    var t, m, p := Text(h.moduleDigest), Octets(h.memoryDigest), Octets(h.payloadDigest);
    var ns := ToNumbers(h);
    var a := 7 + |t|;
    var b := a + |m|;
    assert forall i | 0 <= i < 7 :: ns[i] == Scalars(h)[i];
    assert ns[7..a] == t && ns[a..b] == m && ns[b..] == p;
    TextReads(h.moduleDigest);
    OctetsRead(h.memoryDigest);
    OctetsRead(h.payloadDigest);
  }

  lemma {:induction false} Bound()
    ensures Power(72) > 0x1_0000_0000_0000_0000
  {
    PowerStep(0);
    PowerStep(8);
    PowerStep(16);
    PowerStep(24);
    PowerStep(32);
    PowerStep(40);
    PowerStep(48);
    PowerStep(56);
    PowerStep(64);
  }

  lemma {:induction false} ArisingIsShort(h: Header, moduleDigest: string)
    requires Arises(h, moduleDigest) && |moduleDigest| == 64
    ensures |Numbers(ToNumbers(h))| < WORD
  {
    Bound();
    var ns := ToNumbers(h);
    forall i | 0 <= i < |ns|
      ensures ns[i] < Power(72)
    {
      assert ns[i] <= 0x1_0000_0000_0000_0000;
    }
    NumbersShort(ns);
  }

  // ---------------------------------------------------------------- the formats

  function Plain(): Formats {
    Formats(h => Numbers(ToNumbers(h)), bytes => FromNumbers(ReadNumbers(bytes)), x => x, x => Some(x), _ => Zeros(32))
  }

  /** What the managed host assumes of the formats holds of these, for every hexadecimal SHA-256 of a module. */
  lemma {:induction false} PlainIsOk(moduleDigest: string)
    requires |moduleDigest| == 64
    ensures FormatsOk(Plain(), moduleDigest)
  {
    var f := Plain();
    forall h
      ensures HeaderTrips(f, h) && HeaderFits(f, moduleDigest, h)
    {
      ReadsBack(ToNumbers(h));
      FromTo(h);
      if Arises(h, moduleDigest) {
        ArisingIsShort(h, moduleDigest);
      }
    }
  }

  ghost predicate AllSaved(f: Formats, moduleDigest: string, files: seq<seq<Byte>>, machines: seq<Machine>) {
    |files| == |machines| && forall t | 0 <= t < |machines| :: Saves(f, moduleDigest, files[t], machines[t])
  }

  method SaveAll(f: Formats, moduleDigest: string, machines: seq<Machine>) returns (files: seq<seq<Byte>>)
    requires FormatsOk(f, moduleDigest) && forall t | 0 <= t < |machines| :: Sized(machines[t], 0)
    ensures AllSaved(f, moduleDigest, files, machines)
  {
    files := [];
    for t := 0 to |machines|
      invariant AllSaved(f, moduleDigest, files, machines[..t])
    {
      var blob := Save(f, moduleDigest, machines[t], 0);
      files := files + [blob];
    }
    assert machines[..|machines|] == machines;
  }

  /** So a managed host exists, for any guest and any machines of a proper size. */
  method Launch(policy: Policy, env: seq<Traces.Envelope>, guest: Machine -> Machine, machines: seq<Machine>,
                moduleDigest: string, cap: nat, idle: real) returns (host: Host)
    requires IsGuest(guest) && |env| == |machines| && |moduleDigest| == 64 && cap >= 1
    requires forall t | 0 <= t < |machines| :: Sized(machines[t], 0)
    ensures fresh(host) && host.Valid() && host.env == env && host.guest == guest && host.start == machines
  {
    var f := Plain();
    PlainIsOk(moduleDigest);
    var files := SaveAll(f, moduleDigest, machines);
    host := new Host(policy, env, guest, f, moduleDigest, 0, cap, idle, files, [], machines);
  }
}
