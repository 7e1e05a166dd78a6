/**
 The objects VDB-C1 hashes and signs (vdb_c1/canon.py, vdb_c1/journal.py and the bodies
 written by vdb_c1/coordinator.py).

 A digest is a term that holds the canonical object it was taken of, so it is injective by
 construction. A signature is a term that holds the key and the message, so it verifies for
 exactly that key and message. Texts that are neither are kept apart as Text and Forged.
 */
module Canon {
  import opened Options
  import opened States
  import Sorting

  const GENESIS := Text("genesis")
  /** 600 s and 5 s, in microseconds. */
  const MAX_TTL: int := 600_000_000
  const CLOCK_SKEW: int := 5_000_000
  const MAX_KEY := 256
  const MAX_VALUE := 65536

  // ---------------------------------------------------------------- texts with a fixed meaning

  /** The `protocol` member. */
  datatype Tag = IntentV1 | FinalityV1 | JournalV1 | BundleV1 | CheckpointV1 | OtherTag(text: string)

  datatype Operation = UPSERT | OtherOperation(text: string)

  datatype Algorithm = ED25519 | OtherAlgorithm(text: string)

  /** The durability profile read back from the store: sqlite-wal/v1, journal_mode=wal, synchronous=FULL. */
  datatype Profile = WalFull | OtherProfile(text: string)

  datatype Problem = AppliedRowDiffers | StoreIdDiffers | GenerationDiffers | PostRootDiffers | EntriesDiffer

  datatype Reason =
    | E_SCHEMA | E_PROTOCOL | E_OP | E_NAMESPACE | E_KID_MISMATCH | E_UNTRUSTED_KEY | E_BAD_SIGNATURE
    | E_TTL | E_NOT_YET_VALID | E_EXPIRED | E_INTENT_CONFLICT | E_STALE_GENERATION | E_ROOT_MISMATCH
    | E_CRASH_BEFORE_STORAGE_TRANSACTION | E_OUTCOME_UNKNOWN_AFTER_CRASH | E_STORAGE_COMMIT_NOT_DURABLE
    | E_FRESH_READ_MISMATCH(problems: seq<Problem>) | OtherReason(text: string)

  // ---------------------------------------------------------------- digests and signatures

  datatype Hash = Digest(of: Preimage) | Text(text: string)

  datatype Preimage =
    | StateObject(namespace: string, generation: int, entries: seq<Entry>)
    | PayloadObject(op: Operation, key: string, value: string)
    | IntentObject(payload: Payload)
    | CertificateObject(certificate: Signed<Certificate>)
    | RecordObject(protocol: Tag, seqno: int, prev: Hash, at: Stamp, kind: Label, intentId: string, body: Body)

  type Key = nat

  /** A key id names a key by its digest; other texts name no key. */
  datatype Kid = KidOf(key: Key) | OtherKid(text: string)

  datatype Sig<P> = Ed25519(key: Key, message: P) | Forged(bits: nat)

  datatype Signed<P> = Signed(alg: Algorithm, kid: Kid, payload: P, sig: Sig<P>)

  function Sign<P>(payload: P, key: Key): Signed<P> {
    Signed(ED25519, KidOf(key), payload, Ed25519(key, payload))
  }

  /** verify_signed, for a payload that has a canonical form. */
  predicate VerifySigned<P(==)>(s: Signed<P>, trusted: map<Kid, Key>) {
    && s.kid in trusted
    && s.alg == ED25519
    && KidOf(trusted[s.kid]) == s.kid
    && s.sig == Ed25519(trusted[s.kid], s.payload)
  }

  lemma {:induction false} SignVerifies<P>(payload: P, key: Key, trusted: map<Kid, Key>)
    requires KidOf(key) in trusted && trusted[KidOf(key)] == key
    ensures VerifySigned(Sign(payload, key), trusted)
  {
  }

  // ---------------------------------------------------------------- time

  /** A timestamp text: the instant it denotes, in microseconds, or a text that does not parse. */
  datatype Stamp = Utc(at: int) | Unparsable(text: string)

  /** The microsecond nearest to a clock reading in seconds, the even one of two. */
  function Nearest(clock: real): int {
    var us := clock * 1000000.0;
    var n := us.Floor;
    if us - n as real < 0.5 || (us - n as real == 0.5 && n % 2 == 0) then n else n + 1
  }

  /** format_time: to the nearest microsecond, then cut to milliseconds. */
  function FormatTime(clock: real): Stamp {
    var us := Nearest(clock);
    Utc(us - us % 1000)
  }

  /** now < t, for a clock reading in seconds. */
  predicate Before(now: real, t: int) {
    now * 1000000.0 < t as real
  }

  // ---------------------------------------------------------------- payloads

  datatype Payload =
    | NotAnObject
    /** An object that does not have exactly the members and types of an intent. */
    | Loose(id: Option<string>, canonical: bool, rest: nat)
    | Intent(protocol: Tag, intentId: string, namespace: string, op: Operation, key: string, value: string,
             expectedGeneration: int, expectedRoot: Hash, issuedAt: Stamp, expiresAt: Stamp, authorityKid: Kid)

  /** RFC 8785 (section 3.2.2.3) numbers are IEEE doubles: larger integers have no canonical form here. */
  predicate Canonical(p: Payload) {
    match p
    case NotAnObject => false
    case Loose(_, canonical, _) => canonical
    case Intent(_, _, _, _, _, _, g, _, _, _, _) => -0x20_0000_0000_0000 < g < 0x20_0000_0000_0000
  }

  /** canon.digest(payload), or None where taking it raises. */
  function IntentHash(p: Payload): Option<Hash> {
    if Canonical(p) then Some(Digest(IntentObject(p))) else None
  }

  function Commitment(op: Operation, key: string, value: string): Hash {
    Digest(PayloadObject(op, key, value))
  }

  // ---------------------------------------------------------------- entries and roots

  datatype Entry = Entry(key: string, value: string)

  /** Unicode code-point order. */
  predicate StringLe(a: string, b: string) {
    if a == [] then true
    else if b == [] then false
    else a[0] < b[0] || (a[0] == b[0] && StringLe(a[1..], b[1..]))
  }

  predicate EntryLe(a: Entry, b: Entry) {
    if a.key == b.key then StringLe(a.value, b.value) else StringLe(a.key, b.key)
  }

  lemma {:induction false} StringLeTotal(a: string, b: string)
    ensures StringLe(a, b) || StringLe(b, a)
    ensures StringLe(a, b) && StringLe(b, a) ==> a == b
  {
    if a != [] && b != [] && a[0] == b[0] {
      StringLeTotal(a[1..], b[1..]);
      assert a == [a[0]] + a[1..] && b == [b[0]] + b[1..];
    }
  }

  lemma {:induction false} StringLeTransitive(a: string, b: string, c: string)
    requires StringLe(a, b) && StringLe(b, c)
    ensures StringLe(a, c)
  {
    if a != [] && b != [] && c != [] && a[0] == b[0] == c[0] {
      StringLeTransitive(a[1..], b[1..], c[1..]);
    }
  }

  lemma {:induction false} EntryLeTotal()
    ensures Sorting.TotalOrder(EntryLe)
  {
    forall a: Entry, b: Entry
      ensures EntryLe(a, b) || EntryLe(b, a)
      ensures EntryLe(a, b) && EntryLe(b, a) ==> a == b
    {
      StringLeTotal(a.key, b.key);
      StringLeTotal(a.value, b.value);
    }
    forall a: Entry, b: Entry, c: Entry | EntryLe(a, b) && EntryLe(b, c)
      ensures EntryLe(a, c)
    {
      EntryLeTransitive(a, b, c);
    }
  }

  lemma {:induction false} EntryLeTransitive(a: Entry, b: Entry, c: Entry)
    requires EntryLe(a, b) && EntryLe(b, c)
    ensures EntryLe(a, c)
  {
    if a.key == b.key == c.key {
      StringLeTransitive(a.value, b.value, c.value);
    } else if a.key != b.key && b.key != c.key {
      StringLeTransitive(a.key, b.key, c.key);
      StringLeTotal(a.key, b.key);
    }
  }

  function SortEntries(entries: seq<Entry>): seq<Entry> {
    Sorting.Sort(entries, EntryLe)
  }

  function StateRoot(namespace: string, generation: int, entries: seq<Entry>): Hash {
    Digest(StateObject(namespace, generation, SortEntries(entries)))
  }

  /** The entries whose key is not `key`. */
  function WithoutKey(entries: seq<Entry>, key: string): seq<Entry> {
    if entries == [] then []
    else (if entries[0].key != key then [entries[0]] else []) + WithoutKey(entries[1..], key)
  }

  /** The signed UPSERT applied to a sorted list of entries. */
  function PostEntries(pre: seq<Entry>, key: string, value: string): seq<Entry> {
    SortEntries(WithoutKey(pre, key) + [Entry(key, value)])
  }

  // ---------------------------------------------------------------- records

  datatype Row = Row(intentId: string, intentHash: Hash, generation: int, postRoot: Hash)

  datatype Physical = Physical(profile: Profile, storeId: string)

  datatype Certificate = Certificate(
    protocol: Tag, intentId: string, intentHash: Hash, namespace: string, authorityKid: Kid,
    expectedGeneration: int, preRoot: Hash, payloadCommitment: Hash, postGeneration: int, postRoot: Hash,
    physical: Physical, appliedRow: Row, preparedSeq: int, preparedHash: Hash, committedSeq: int,
    committedHash: Hash, finalizedAt: Stamp, finalizerKid: Kid)

  datatype Body =
    | Rejection(hash: Option<Hash>, reason: Reason)
    | PreconditionRejection(hash: Option<Hash>, reason: Reason, signedIntent: Signed<Payload>,
                            observedGeneration: int, observedRoot: Hash)
    | PreparedBody(hash: Option<Hash>, signedIntent: Signed<Payload>, admittedAt: Stamp, storeId: string,
                   preGeneration: int, preRoot: Hash, preEntries: seq<Entry>, payloadCommitment: Hash)
    | CommittingBody(hash: Option<Hash>)
    | ReasonBody(hash: Option<Hash>, reason: Reason)
    | CommittedBody(hash: Option<Hash>, postGeneration: int, postRoot: Hash, postEntries: seq<Entry>,
                    appliedRow: Row, physical: Physical, recovered: bool)
    | FinalizedBody(hash: Option<Hash>, certificate: Signed<Certificate>)

  datatype Record = Record(protocol: Tag, seqno: int, prev: Hash, at: Stamp, kind: Label, intentId: string,
                           body: Body, hash: Hash)

  /** record_hash: the digest of everything but the hash. */
  function RecordHash(r: Record): Hash {
    Digest(RecordObject(r.protocol, r.seqno, r.prev, r.at, r.kind, r.intentId, r.body))
  }
}
