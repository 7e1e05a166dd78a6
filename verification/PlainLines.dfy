/**
 A line codec: what the journal file asks of RFC 8785 and JSON parsing can be met. A record is written as a tree of
 numbers, and a tree as a prefix code that holds no line break.
 */
module PlainLines {
  import opened Bytes
  import opened Options
  import opened States
  import opened Canon
  import opened JournalFile

  datatype Tree = Number(n: int) | Pair(first: Tree, second: Tree)

  // ---------------------------------------------------------------- trees as bytes

  function Unary(n: int): (bytes: seq<Byte>)
    ensures forall b | b in bytes :: b < 4
    decreases if n < 0 then -n else n
  {
    if n == 0 then [0] else if n > 0 then [1] + Unary(n - 1) else [2] + Unary(n + 1)
  }

  function Write(t: Tree): (bytes: seq<Byte>)
    ensures bytes != [] && forall b | b in bytes :: b < 4
  {
    match t
    case Number(n) => Unary(n)
    case Pair(a, b) => [3] + (Write(a) + Write(b))
  }

  lemma {:induction false} UnaryIsPrefixFree(m: int, n: int, x: seq<Byte>, y: seq<Byte>)
    requires Unary(m) + x == Unary(n) + y
    ensures m == n && x == y
    decreases if m < 0 then -m else m
  {
    var s := Unary(m) + x;
    assert s[0] == Unary(m)[0] && s[0] == Unary(n)[0];
    if m == 0 {
      assert s[1..] == x && s[1..] == y;
    } else {
      var m', n' := if m > 0 then m - 1 else m + 1, if n > 0 then n - 1 else n + 1;
      assert s[1..] == Unary(m') + x && s[1..] == Unary(n') + y;
      UnaryIsPrefixFree(m', n', x, y);
    }
  }

  /** No tree is written as the beginning of another. */
  lemma {:induction false} WriteIsPrefixFree(t: Tree, u: Tree, x: seq<Byte>, y: seq<Byte>)
    requires Write(t) + x == Write(u) + y
    ensures t == u && x == y
  {
    var s := Write(t) + x;
    assert s[0] == Write(t)[0] && s[0] == Write(u)[0];
    match t
    case Number(m) => UnaryIsPrefixFree(m, u.n, x, y);
    case Pair(a, b) =>
      var c, d := u.first, u.second;
      assert s[1..] == Write(a) + (Write(b) + x) && s[1..] == Write(c) + (Write(d) + y);
      WriteIsPrefixFree(a, c, Write(b) + x, Write(d) + y);
      WriteIsPrefixFree(b, d, x, y);
  }

  // ---------------------------------------------------------------- texts and constants as trees

  function TextTree(s: string): Tree {
    if s == [] then Number(0) else Pair(Number(s[0] as int), TextTree(s[1..]))
  }

  lemma {:induction false} TextApart(s: string, t: string)
    requires TextTree(s) == TextTree(t)
    ensures s == t
  {
    if s != [] {
      TextApart(s[1..], t[1..]);
      assert s == [s[0]] + s[1..] && t == [t[0]] + t[1..];
    }
  }

  /** A constant, or another text. */
  function ChoiceTree(n: nat, text: Option<string>): Tree {
    Pair(Number(n), if text.None? then Number(0) else Pair(Number(1), TextTree(text.value)))
  }

  lemma {:induction false} ChoiceApart(m: nat, s: Option<string>, n: nat, t: Option<string>)
    requires ChoiceTree(m, s) == ChoiceTree(n, t)
    ensures m == n && s == t
  {
    if s.Some? {
      TextApart(s.value, t.value);
    }
  }

  function TagTree(tag: Tag): Tree {
    match tag
    case IntentV1 => ChoiceTree(0, None)
    case FinalityV1 => ChoiceTree(1, None)
    case JournalV1 => ChoiceTree(2, None)
    case BundleV1 => ChoiceTree(3, None)
    case CheckpointV1 => ChoiceTree(4, None)
    case OtherTag(text) => ChoiceTree(5, Some(text))
  }

  lemma {:induction false} TagApart(a: Tag, b: Tag)
    requires TagTree(a) == TagTree(b)
    ensures a == b
  {
    if a.OtherTag? {
      TextApart(a.text, b.text);
    }
  }

  function OperationTree(op: Operation): Tree {
    if op.UPSERT? then ChoiceTree(0, None) else ChoiceTree(1, Some(op.text))
  }

  function AlgorithmTree(alg: Algorithm): Tree {
    if alg.ED25519? then ChoiceTree(0, None) else ChoiceTree(1, Some(alg.text))
  }

  function PhysicalTree(p: Physical): Tree {
    Pair(if p.profile.WalFull? then ChoiceTree(0, None) else ChoiceTree(1, Some(p.profile.text)), TextTree(p.storeId))
  }

  function KidTree(kid: Kid): Tree {
    if kid.KidOf? then ChoiceTree(kid.key, None) else ChoiceTree(0, Some(kid.text))
  }

  function StampTree(at: Stamp): Tree {
    if at.Utc? then Number(at.at) else Pair(Number(0), TextTree(at.text))
  }

  lemma {:induction false} OperationApart(a: Operation, b: Operation)
    requires OperationTree(a) == OperationTree(b)
    ensures a == b
  {
    if a.OtherOperation? {
      TextApart(a.text, b.text);
    }
  }

  lemma {:induction false} AlgorithmApart(a: Algorithm, b: Algorithm)
    requires AlgorithmTree(a) == AlgorithmTree(b)
    ensures a == b
  {
    if a.OtherAlgorithm? {
      TextApart(a.text, b.text);
    }
  }

  lemma {:induction false} PhysicalApart(a: Physical, b: Physical)
    requires PhysicalTree(a) == PhysicalTree(b)
    ensures a == b
  {
    TextApart(a.storeId, b.storeId);
    if a.profile.OtherProfile? {
      TextApart(a.profile.text, b.profile.text);
    }
  }

  lemma {:induction false} KidApart(a: Kid, b: Kid)
    requires KidTree(a) == KidTree(b)
    ensures a == b
  {
    if a.OtherKid? {
      TextApart(a.text, b.text);
    }
  }

  lemma {:induction false} StampApart(a: Stamp, b: Stamp)
    requires StampTree(a) == StampTree(b)
    ensures a == b
  {
    if a.Unparsable? {
      TextApart(a.text, b.text);
    }
  }

  function LabelNumber(kind: Label): nat {
    match kind
    case Received => 0
    case AdmissionRejected => 1
    case Admitted => 2
    case PreconditionRejected => 3
    case Prepared => 4
    case Aborted => 5
    case Committing => 6
    case CommitUncertain => 7
    case Finalized => 8
    case Committed => 9
  }

  function ProblemNumber(p: Problem): nat {
    match p
    case AppliedRowDiffers => 0
    case StoreIdDiffers => 1
    case GenerationDiffers => 2
    case PostRootDiffers => 3
    case EntriesDiffer => 4
  }

  function ProblemsTree(ps: seq<Problem>): Tree {
    if ps == [] then Number(0) else Pair(Number(ProblemNumber(ps[0])), ProblemsTree(ps[1..]))
  }

  lemma {:induction false} ProblemsApart(ps: seq<Problem>, qs: seq<Problem>)
    requires ProblemsTree(ps) == ProblemsTree(qs)
    ensures ps == qs
  {
    if ps != [] {
      ProblemsApart(ps[1..], qs[1..]);
      assert ps == [ps[0]] + ps[1..] && qs == [qs[0]] + qs[1..];
    }
  }

  function ReasonTree(reason: Reason): Tree {
    match reason
    case E_SCHEMA => Number(0)
    case E_PROTOCOL => Number(1)
    case E_OP => Number(2)
    case E_NAMESPACE => Number(3)
    case E_KID_MISMATCH => Number(4)
    case E_UNTRUSTED_KEY => Number(5)
    case E_BAD_SIGNATURE => Number(6)
    case E_TTL => Number(7)
    case E_NOT_YET_VALID => Number(8)
    case E_EXPIRED => Number(9)
    case E_INTENT_CONFLICT => Number(10)
    case E_STALE_GENERATION => Number(11)
    case E_ROOT_MISMATCH => Number(12)
    case E_CRASH_BEFORE_STORAGE_TRANSACTION => Number(13)
    case E_OUTCOME_UNKNOWN_AFTER_CRASH => Number(14)
    case E_STORAGE_COMMIT_NOT_DURABLE => Number(15)
    case E_FRESH_READ_MISMATCH(problems) => Pair(Number(16), ProblemsTree(problems))
    case OtherReason(text) => Pair(Number(17), TextTree(text))
  }

  lemma {:induction false} ReasonApart(a: Reason, b: Reason)
    requires ReasonTree(a) == ReasonTree(b)
    ensures a == b
  {
    if a.E_FRESH_READ_MISMATCH? {
      ProblemsApart(a.problems, b.problems);
    } else if a.OtherReason? {
      TextApart(a.text, b.text);
    }
  }

  function EntriesTree(es: seq<Entry>): Tree {
    if es == [] then Number(0) else Pair(Pair(TextTree(es[0].key), TextTree(es[0].value)), EntriesTree(es[1..]))
  }

  lemma {:induction false} EntriesApart(es: seq<Entry>, fs: seq<Entry>)
    requires EntriesTree(es) == EntriesTree(fs)
    ensures es == fs
  {
    if es != [] {
      TextApart(es[0].key, fs[0].key);
      TextApart(es[0].value, fs[0].value);
      EntriesApart(es[1..], fs[1..]);
      assert es == [es[0]] + es[1..] && fs == [fs[0]] + fs[1..];
    }
  }

  // ---------------------------------------------------------------- hashes, payloads and bodies as trees

  function HashTree(h: Hash): Tree {
    match h
    case Digest(of) => Pair(Number(0), PreimageTree(of))
    case Text(text) => Pair(Number(1), TextTree(text))
  }

  function PreimageTree(p: Preimage): Tree {
    match p
    case StateObject(namespace, generation, entries) =>
      Pair(Number(0), Pair(TextTree(namespace), Pair(Number(generation), EntriesTree(entries))))
    case PayloadObject(op, key, value) =>
      Pair(Number(1), Pair(OperationTree(op), Pair(TextTree(key), TextTree(value))))
    case IntentObject(payload) => Pair(Number(2), PayloadTree(payload))
    case CertificateObject(certificate) => Pair(Number(3), SignedCertificateTree(certificate))
    case RecordObject(protocol, seqno, prev, at, kind, intentId, body) =>
      Pair(Number(4), Pair(MemberTree(protocol, seqno, at, kind, intentId), Pair(HashTree(prev), BodyTree(body))))
  }

  /** The members of a record that hold no hash. */
  function MemberTree(protocol: Tag, seqno: int, at: Stamp, kind: Label, intentId: string): Tree {
    Pair(Pair(TagTree(protocol), Number(seqno)),
         Pair(StampTree(at), Pair(Number(LabelNumber(kind)), TextTree(intentId))))
  }

  function PayloadTree(p: Payload): Tree {
    match p
    case NotAnObject => Number(0)
    case Loose(id, canonical, rest) => Pair(Number(1), Pair(ChoiceTree(rest, id), Number(if canonical then 1 else 0)))
    case Intent(protocol, intentId, namespace, op, key, value, generation, root, issuedAt, expiresAt, kid) =>
      Pair(Pair(Pair(TagTree(protocol), TextTree(intentId)), Pair(TextTree(namespace), OperationTree(op))),
           Pair(Pair(Pair(TextTree(key), TextTree(value)), Pair(Number(generation), HashTree(root))),
                Pair(StampTree(issuedAt), Pair(StampTree(expiresAt), KidTree(kid)))))
  }

  function RowTree(row: Row): Tree {
    Pair(Pair(TextTree(row.intentId), HashTree(row.intentHash)), Pair(Number(row.generation), HashTree(row.postRoot)))
  }

  function CertificateTree(c: Certificate): Tree {
    Pair(Pair(Pair(Pair(TagTree(c.protocol), TextTree(c.intentId)),
                   Pair(HashTree(c.intentHash), TextTree(c.namespace))),
              Pair(Pair(KidTree(c.authorityKid), Number(c.expectedGeneration)),
                   Pair(HashTree(c.preRoot), HashTree(c.payloadCommitment)))),
         Pair(Pair(Pair(Number(c.postGeneration), HashTree(c.postRoot)),
                   Pair(PhysicalTree(c.physical), RowTree(c.appliedRow))),
              Pair(Pair(Pair(Number(c.preparedSeq), HashTree(c.preparedHash)),
                        Pair(Number(c.committedSeq), HashTree(c.committedHash))),
                   Pair(StampTree(c.finalizedAt), KidTree(c.finalizerKid)))))
  }

  function SignedPayloadTree(s: Signed<Payload>): Tree {
    Pair(Pair(AlgorithmTree(s.alg), KidTree(s.kid)),
         Pair(PayloadTree(s.payload),
              match s.sig
              case Ed25519(key, message) => Pair(Number(key), PayloadTree(message))
              case Forged(bits) => Number(bits)))
  }

  function SignedCertificateTree(s: Signed<Certificate>): Tree {
    Pair(Pair(AlgorithmTree(s.alg), KidTree(s.kid)),
         Pair(CertificateTree(s.payload),
              match s.sig
              case Ed25519(key, message) => Pair(Number(key), CertificateTree(message))
              case Forged(bits) => Number(bits)))
  }

  function OptionTree(h: Option<Hash>): Tree {
    if h.None? then Number(0) else Pair(Number(1), HashTree(h.value))
  }

  function BodyTree(b: Body): Tree {
    match b
    case Rejection(hash, reason) => Pair(Number(0), Pair(OptionTree(hash), ReasonTree(reason)))
    case PreconditionRejection(hash, reason, signed, generation, root) =>
      Pair(Number(1), Pair(Pair(OptionTree(hash), ReasonTree(reason)),
                           Pair(SignedPayloadTree(signed), Pair(Number(generation), HashTree(root)))))
    case PreparedBody(hash, signed, at, storeId, generation, root, entries, commitment) =>
      Pair(Number(2), Pair(Pair(Pair(OptionTree(hash), SignedPayloadTree(signed)),
                                Pair(StampTree(at), TextTree(storeId))),
                           Pair(Pair(Number(generation), HashTree(root)),
                                Pair(EntriesTree(entries), HashTree(commitment)))))
    case CommittingBody(hash) => Pair(Number(3), OptionTree(hash))
    case ReasonBody(hash, reason) => Pair(Number(4), Pair(OptionTree(hash), ReasonTree(reason)))
    case CommittedBody(hash, generation, root, entries, row, physical, recovered) =>
      Pair(Number(5), Pair(Pair(Pair(OptionTree(hash), Number(generation)), Pair(HashTree(root), EntriesTree(entries))),
                           Pair(RowTree(row), Pair(PhysicalTree(physical), Number(if recovered then 1 else 0)))))
    case FinalizedBody(hash, certificate) => Pair(Number(6), Pair(OptionTree(hash), SignedCertificateTree(certificate)))
  }

  lemma {:induction false} HashApart(a: Hash, b: Hash)
    requires HashTree(a) == HashTree(b)
    ensures a == b
  {
    if a.Digest? {
      PreimageApart(a.of, b.of);
    } else {
      TextApart(a.text, b.text);
    }
  }

  lemma {:induction false} PreimageApart(a: Preimage, b: Preimage)
    requires PreimageTree(a) == PreimageTree(b)
    ensures a == b
  {
    match a
    case StateObject(namespace, _, entries) =>
      TextApart(namespace, b.namespace);
      EntriesApart(entries, b.entries);
    case PayloadObject(op, key, value) =>
      OperationApart(op, b.op);
      TextApart(key, b.key);
      TextApart(value, b.value);
    case IntentObject(payload) => PayloadApart(payload, b.payload);
    case CertificateObject(certificate) => SignedCertificateApart(certificate, b.certificate);
    case RecordObject(protocol, seqno, prev, at, kind, intentId, body) =>
      MembersApart(protocol, seqno, at, kind, intentId, b.protocol, b.seqno, b.at, b.kind, b.intentId);
      HashApart(prev, b.prev);
      BodyApart(body, b.body);
  }

  lemma {:induction false} MembersApart(protocol: Tag, seqno: int, at: Stamp, kind: Label, intentId: string,
                                        protocol': Tag, seqno': int, at': Stamp, kind': Label, intentId': string)
    requires MemberTree(protocol, seqno, at, kind, intentId) == MemberTree(protocol', seqno', at', kind', intentId')
    ensures protocol == protocol' && seqno == seqno' && at == at' && kind == kind' && intentId == intentId'
  {
    TagApart(protocol, protocol');
    StampApart(at, at');
    TextApart(intentId, intentId');
  }

  lemma {:induction false} PayloadApart(a: Payload, b: Payload)
    requires PayloadTree(a) == PayloadTree(b)
    ensures a == b
  {
    match a
    case NotAnObject =>
    case Loose(id, _, rest) => ChoiceApart(rest, id, b.rest, b.id);
    case Intent(protocol, intentId, namespace, op, key, value, _, root, issuedAt, expiresAt, kid) =>
      TagApart(protocol, b.protocol);
      TextApart(intentId, b.intentId);
      TextApart(namespace, b.namespace);
      OperationApart(op, b.op);
      TextApart(key, b.key);
      TextApart(value, b.value);
      HashApart(root, b.expectedRoot);
      StampApart(issuedAt, b.issuedAt);
      StampApart(expiresAt, b.expiresAt);
      KidApart(kid, b.authorityKid);
  }

  lemma {:induction false} RowApart(a: Row, b: Row)
    requires RowTree(a) == RowTree(b)
    ensures a == b
  {
    TextApart(a.intentId, b.intentId);
    HashApart(a.intentHash, b.intentHash);
    HashApart(a.postRoot, b.postRoot);
  }

  lemma {:induction false} CertificateApart(a: Certificate, b: Certificate)
    requires CertificateTree(a) == CertificateTree(b)
    ensures a == b
  {
    TagApart(a.protocol, b.protocol);
    TextApart(a.intentId, b.intentId);
    HashApart(a.intentHash, b.intentHash);
    TextApart(a.namespace, b.namespace);
    KidApart(a.authorityKid, b.authorityKid);
    HashApart(a.preRoot, b.preRoot);
    HashApart(a.payloadCommitment, b.payloadCommitment);
    HashApart(a.postRoot, b.postRoot);
    PhysicalApart(a.physical, b.physical);
    RowApart(a.appliedRow, b.appliedRow);
    HashApart(a.preparedHash, b.preparedHash);
    HashApart(a.committedHash, b.committedHash);
    StampApart(a.finalizedAt, b.finalizedAt);
    KidApart(a.finalizerKid, b.finalizerKid);
  }

  lemma {:induction false} SignedPayloadApart(a: Signed<Payload>, b: Signed<Payload>)
    requires SignedPayloadTree(a) == SignedPayloadTree(b)
    ensures a == b
  {
    AlgorithmApart(a.alg, b.alg);
    KidApart(a.kid, b.kid);
    PayloadApart(a.payload, b.payload);
    if a.sig.Ed25519? {
      PayloadApart(a.sig.message, b.sig.message);
    }
  }

  lemma {:induction false} SignedCertificateApart(a: Signed<Certificate>, b: Signed<Certificate>)
    requires SignedCertificateTree(a) == SignedCertificateTree(b)
    ensures a == b
  {
    AlgorithmApart(a.alg, b.alg);
    KidApart(a.kid, b.kid);
    CertificateApart(a.payload, b.payload);
    if a.sig.Ed25519? {
      CertificateApart(a.sig.message, b.sig.message);
    }
  }

  lemma {:induction false} OptionApart(a: Option<Hash>, b: Option<Hash>)
    requires OptionTree(a) == OptionTree(b)
    ensures a == b
  {
    if a.Some? {
      HashApart(a.value, b.value);
    }
  }

  lemma {:induction false} BodyApart(a: Body, b: Body)
    requires BodyTree(a) == BodyTree(b)
    ensures a == b
  {
    OptionApart(a.hash, b.hash);
    match a
    case CommittingBody(_) =>
    case Rejection(_, reason) => ReasonApart(reason, b.reason);
    case ReasonBody(_, reason) => ReasonApart(reason, b.reason);
    case PreconditionRejection(_, reason, signed, _, root) =>
      ReasonApart(reason, b.reason);
      SignedPayloadApart(signed, b.signedIntent);
      HashApart(root, b.observedRoot);
    case PreparedBody(_, signed, at, storeId, _, root, entries, commitment) =>
      SignedPayloadApart(signed, b.signedIntent);
      StampApart(at, b.admittedAt);
      TextApart(storeId, b.storeId);
      HashApart(root, b.preRoot);
      EntriesApart(entries, b.preEntries);
      HashApart(commitment, b.payloadCommitment);
    case CommittedBody(_, _, root, entries, row, physical, _) =>
      HashApart(root, b.postRoot);
      EntriesApart(entries, b.postEntries);
      RowApart(row, b.appliedRow);
      PhysicalApart(physical, b.physical);
    case FinalizedBody(_, certificate) => SignedCertificateApart(certificate, b.certificate);
  }

  // ---------------------------------------------------------------- records as lines

  function RecordTree(r: Record): Tree {
    Pair(MemberTree(r.protocol, r.seqno, r.at, r.kind, r.intentId),
         Pair(HashTree(r.prev), Pair(BodyTree(r.body), HashTree(r.hash))))
  }

  function WriteRecord(r: Record): seq<Byte> {
    Write(RecordTree(r))
  }

  /** Different records are written as different lines. */
  lemma {:induction false} RecordsApart(a: Record, b: Record)
    requires WriteRecord(a) == WriteRecord(b)
    ensures a == b
  {
    assert WriteRecord(a) + [] == WriteRecord(b) + [];
    WriteIsPrefixFree(RecordTree(a), RecordTree(b), [], []);
    MembersApart(a.protocol, a.seqno, a.at, a.kind, a.intentId, b.protocol, b.seqno, b.at, b.kind, b.intentId);
    HashApart(a.prev, b.prev);
    BodyApart(a.body, b.body);
    HashApart(a.hash, b.hash);
  }

  ghost function ReadRecord(line: seq<Byte>): (r: Option<Record>)
    ensures r.Some? ==> WriteRecord(r.value) == line
    ensures r.None? ==> forall x :: WriteRecord(x) != line
  {
    if exists x :: WriteRecord(x) == line then
      var x :| WriteRecord(x) == line;
      Some(x)
    else None
  }

  ghost function PlainCodec(): Codec {
    Codec(WriteRecord, line => ReadRecord(line))
  }

  /** What the journal file assumes of its line codec holds of this one. */
  lemma {:induction false} PlainIsLineCodec()
    ensures LineCodec(PlainCodec())
  {
    forall r: Record
      ensures ReadRecord(WriteRecord(r)) == Some(r) && LF !in WriteRecord(r) && CR !in WriteRecord(r)
    {
      RecordsApart(ReadRecord(WriteRecord(r)).value, r);
    }
  }
}
