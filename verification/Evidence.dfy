/** The offline verifier's checks of a revocation receipt (vre15/verify_evidence.py). */
module Evidence {
  import opened Options
  import opened Bytes
  import opened Pages
  import opened Revocation

  /** A run as a record claims it. */
  datatype Claim = Claim(first: int, count: int)

  function Claims(runs: seq<Run>): (claims: seq<Claim>)
    ensures |claims| == |runs|
    ensures forall i | 0 <= i < |runs| :: claims[i] == Claim(runs[i].first, runs[i].count)
  {
    seq(|runs|, i requires 0 <= i < |runs| => Claim(runs[i].first, runs[i].count))
  }

  function Total(claims: seq<Claim>): int {
    if claims == [] then 0 else Total(claims[..|claims| - 1]) + claims[|claims| - 1].count
  }

  /** Non-empty runs of the region, in order and disjoint. */
  ghost predicate WellShaped(claims: seq<Claim>, regionPages: int) {
    && (forall i | 0 <= i < |claims| ::
          0 <= claims[i].first && 1 <= claims[i].count && claims[i].first + claims[i].count <= regionPages)
    && (forall i, j | 0 <= i < j < |claims| :: claims[i].first + claims[i].count <= claims[j].first)
  }

  /** The receipt checks of check_record: false where REJECTED_RECEIPT_MALFORMED is raised. */
  method CheckRuns(claims: seq<Claim>, pages: int, regionPages: int) returns (ok: bool)
    ensures ok <==> WellShaped(claims, regionPages) && Total(claims) == pages
  {
    var total := 0;
    for k := 0 to |claims|
      invariant total == Total(claims[..k])
    {
      assert claims[..k + 1][..k] == claims[..k];
      total := total + claims[k].count;
    }
    assert claims[..|claims|] == claims;
    var prevEnd := -1;
    for k := 0 to |claims|
      invariant WellShaped(claims[..k], regionPages)
      invariant prevEnd == if k == 0 then -1 else claims[k - 1].first + claims[k - 1].count - 1
    {
      var c := claims[k];
      if c.first <= prevEnd || c.count < 1 || c.first + c.count > regionPages {
        Malformed(claims, k, regionPages);
        return false;
      }
      WellFormed(claims, k, regionPages);
      prevEnd := c.first + c.count - 1;
    }
    return total == pages;
  }

  lemma {:induction false} WellFormed(claims: seq<Claim>, k: nat, regionPages: int)
    requires k < |claims| && WellShaped(claims[..k], regionPages)
    requires var c := claims[k];
             var prevEnd := if k == 0 then -1 else claims[k - 1].first + claims[k - 1].count - 1;
             prevEnd < c.first && 1 <= c.count && c.first + c.count <= regionPages
    ensures WellShaped(claims[..k + 1], regionPages)
  {
    forall i | 0 <= i < k
      ensures claims[i].first + claims[i].count <= claims[k].first
    {
      assert claims[i] == claims[..k][i];
      if i < k - 1 {
        assert claims[..k][i].first + claims[..k][i].count <= claims[..k][k - 1].first;
        assert claims[..k][k - 1].count >= 1;
      }
    }
    forall i, j | 0 <= i < j < k
      ensures claims[i].first + claims[i].count <= claims[j].first
    {
      assert claims[..k][i].first + claims[..k][i].count <= claims[..k][j].first;
    }
    if k > 0 {
      assert claims[..k][k - 1].count >= 1;
    }
  }

  lemma {:induction false} Malformed(claims: seq<Claim>, k: nat, regionPages: int)
    requires k < |claims|
    requires var c := claims[k];
             var prevEnd := if k == 0 then -1 else claims[k - 1].first + claims[k - 1].count - 1;
             c.first <= prevEnd || c.count < 1 || c.first + c.count > regionPages
    ensures !WellShaped(claims, regionPages)
  {
  }

  // ---------------------------------------------------------------- the image pass

  ghost predicate Packable(runs: seq<Run>) {
    forall i | 0 <= i < |runs| :: runs[i].first < WORD && runs[i].count < WORD
  }

  function Recomputed(data: seq<Byte>, runs: seq<Run>): seq<Byte>
    requires Packable(runs)
  {
    if runs == [] then [] else Recomputed(data, runs[..|runs| - 1]) + Piece(data, runs[|runs| - 1])
  }

  /** One run of the message, cut from the file. */
  function Piece(data: seq<Byte>, r: Run): seq<Byte>
    requires r.first < WORD && r.count < WORD
  {
    Pack(r.first) + Pack(r.count) + Cut(data, r.first * PAGE, (r.first + r.count) * PAGE)
  }

  /** receipt_digest_from_image */
  method DigestFromImage(data: seq<Byte>, runs: seq<Run>) returns (digest: Digest)
    requires Packable(runs)
    ensures digest == Sha256(Recomputed(data, runs))
  {
    var h := [];
    for k := 0 to |runs|
      invariant h == Recomputed(data, runs[..k])
    {
      assert runs[..k + 1][..k] == runs[..k];
      h := h + Piece(data, runs[k]);
    }
    assert runs[..|runs|] == runs;
    digest := Sha256(h);
  }

  /** The bytes of a run of the image file are the bytes of its pages. */
  lemma {:induction false} CutIsSlice(image: seq<seq<Byte>>, r: Run)
    requires Blocks(image) && r.first + r.count <= |image|
    ensures Cut(Flatten(image), r.first * PAGE, (r.first + r.count) * PAGE) == Flatten(Slice(image, r))
    ensures Piece(Flatten(image), r) == Chunk(r, image)
  {
    var a, s, c := image[..r.first], Slice(image, r), image[r.first + r.count..];
    assert image == a + s + c;
    FlattenConcat(a + s, c);
    FlattenConcat(a, s);
    FlattenLength(a);
    FlattenLength(s);
    FlattenLength(image);
    assert (Flatten(a) + Flatten(s) + Flatten(c))[r.first * PAGE..(r.first + r.count) * PAGE] == Flatten(s);
  }

  /** The verifier recomputes, from the bytes of the image, what the revocation digested. */
  lemma {:induction false} RecomputedIsMessage(image: seq<seq<Byte>>, runs: seq<Run>)
    requires Blocks(image) && InRange(runs, |image|)
    ensures Packable(runs) && Recomputed(Flatten(image), runs) == Message(runs, image)
  {
    if runs != [] {
      var before, r := runs[..|runs| - 1], runs[|runs| - 1];
      RecomputedIsMessage(image, before);
      CutIsSlice(image, r);
      assert runs == before + [r];
      MessageSnoc(before, r, image);
      assert Packable(runs);
    }
  }

  // ---------------------------------------------------------------- what the verifier accepts

  /** The receipt passes the shape checks, and its digest recomputes from an image. */
  ghost predicate Passes(r: Receipt, image: seq<seq<Byte>>) {
    && WellShaped(Claims(r.runs), |image|) && Total(Claims(r.runs)) == r.pages
    && Packable(r.runs) && r.digest == Sha256(Recomputed(Flatten(image), r.runs))
  }

  lemma {:induction false} TotalIsPages(runs: seq<Run>)
    ensures Total(Claims(runs)) == |Expand(runs)|
  {
    if runs != [] {
      TotalIsPages(runs[..|runs| - 1]);
      assert Claims(runs)[..|runs| - 1] == Claims(runs[..|runs| - 1]);
    }
  }

  /** Every receipt of a revocation passes, against the image the revocation left. */
  lemma {:induction false} ReceiptPasses(m: Mapping, m': Mapping, r: Receipt)
    requires Revoked(m, m', r)
    ensures Passes(r, m'.image)
  {
    TotalIsPages(r.runs);
    RecomputedIsMessage(m'.image, r.runs);
  }

  /** The other way: an image file whose bytes recompute the digest holds, at those pages, what the revocation wrote. */
  lemma {:induction false} DigestBindsImage(m: Mapping, m': Mapping, r: Receipt, image: seq<seq<Byte>>)
    requires Revoked(m, m', r) && Blocks(image) && InRange(r.runs, |image|) && Packable(r.runs)
    requires r.digest == Sha256(Recomputed(Flatten(image), r.runs))
    ensures forall k | 0 <= k < |r.runs| :: Slice(image, r.runs[k]) == Slice(Visible(m), r.runs[k])
  {
    RecomputedIsMessage(image, r.runs);
    DigestDetermines(r.runs, r.runs, image, m'.image);
  }

  // ---------------------------------------------------------------- records

  /** A revocation record: whose authority ended when, when the revocation ran, its receipt and its post-condition. */
  datatype Record = Record(tenant: nat, endedAt: real, startedAt: real, completedAt: real, receipt: Receipt,
                           heldPrivately: nat, regionPages: nat)

  datatype Verdict = VALID | REJECTED_RECEIPT_MALFORMED | REJECTED_REVOKED_UNDER_AUTHORITY | REJECTED_TIME
                   | REJECTED_RESIDENCY_RETAINED | REJECTED_IMAGE_MISMATCH | REJECTED_INCOMPLETE_BUNDLE

  /** The record claims a well-formed receipt, after the authority ended, with nothing held. */
  ghost predicate Sound(r: Record) {
    && WellShaped(Claims(r.receipt.runs), r.regionPages) && Total(Claims(r.receipt.runs)) == r.receipt.pages
    && r.endedAt <= r.startedAt <= r.completedAt && r.heldPrivately == 0
  }

  /** check_record, without the envelope. */
  method CheckRecord(r: Record) returns (v: Verdict)
    ensures v.VALID? <==> Sound(r)
    ensures v.REJECTED_REVOKED_UNDER_AUTHORITY? ==> r.startedAt < r.endedAt
    ensures v.REJECTED_RESIDENCY_RETAINED? ==> r.heldPrivately != 0
    ensures !v.REJECTED_INCOMPLETE_BUNDLE?
  {
    var ok := CheckRuns(Claims(r.receipt.runs), r.receipt.pages, r.regionPages);
    if !ok {
      return REJECTED_RECEIPT_MALFORMED;
    }
    if r.startedAt < r.endedAt {
      return REJECTED_REVOKED_UNDER_AUTHORITY;
    }
    if r.completedAt < r.startedAt {
      return REJECTED_TIME;
    }
    if r.heldPrivately != 0 {
      return REJECTED_RESIDENCY_RETAINED;
    }
    return VALID;
  }

  ghost predicate InOrder(records: seq<Record>) {
    forall i, j | 0 <= i < j < |records| :: records[i].completedAt <= records[j].completedAt
  }

  /** The last record of a tenant. */
  function LastOf(records: seq<Record>, t: nat): (r: Option<Record>)
    ensures r.Some? ==> r.value in records && r.value.tenant == t
    ensures r.None? ==> forall q | q in records :: q.tenant != t
  {
    if records == [] then None
    else if records[|records| - 1].tenant == t then Some(records[|records| - 1])
    else LastOf(records[..|records| - 1], t)
  }

  /** The tenant's last receipt digest recomputes from the bytes of its image. */
  ghost predicate ImageHolds(records: seq<Record>, t: nat, data: seq<Byte>) {
    var last := LastOf(records, t);
    last.Some? ==>
      var receipt := last.value.receipt;
      Packable(receipt.runs) && receipt.digest == Sha256(Recomputed(data, receipt.runs))
  }

  /** Records complete in journal order. */
  method CheckOrder(records: seq<Record>) returns (ok: bool)
    ensures ok <==> InOrder(records)
  {
    for k := 0 to |records|
      invariant InOrder(records[..k])
    {
      if k > 0 && records[k].completedAt < records[k - 1].completedAt {
        return false;
      }
    }
    assert records[..|records|] == records;
    return true;
  }

  method CheckRecords(records: seq<Record>) returns (v: Verdict)
    ensures v.VALID? <==> AllSound(records)
    ensures !v.REJECTED_INCOMPLETE_BUNDLE?
  {
    for k := 0 to |records|
      invariant forall i | 0 <= i < k :: Sound(records[i])
    {
      v := CheckRecord(records[k]);
      if !v.VALID? {
        return;
      }
    }
    return VALID;
  }

  /** The image pass: every tenant's last receipt against its image file. */
  method CheckImages(records: seq<Record>, images: seq<seq<Byte>>) returns (ok: bool)
    requires forall r | r in records :: Packable(r.receipt.runs)
    ensures ok <==> forall t: nat | t < |images| :: ImageHolds(records, t, images[t])
  {
    for t := 0 to |images|
      invariant forall u: nat | u < t :: ImageHolds(records, u, images[u])
    {
      var last := LastOf(records, t);
      if last.Some? {
        var digest := DigestFromImage(images[t], last.value.receipt.runs);
        if digest != last.value.receipt.digest {
          assert !ImageHolds(records, t, images[t]);
          return false;
        }
      }
    }
    return true;
  }

  ghost predicate AllSound(records: seq<Record>) {
    forall i | 0 <= i < |records| :: Sound(records[i])
  }

  /** The ordering, record and image checks of verify_bundle, without the hash chain and the signatures. */
  method VerifyRecords(records: seq<Record>, images: seq<seq<Byte>>) returns (v: Verdict)
    requires forall r | r in records :: r.regionPages < WORD
    ensures v.VALID? <==>
            && records != [] && InOrder(records) && AllSound(records)
            && (forall t: nat | t < |images| :: ImageHolds(records, t, images[t]))
    ensures v.REJECTED_INCOMPLETE_BUNDLE? <==> records == []
  {
    if records == [] {
      return REJECTED_INCOMPLETE_BUNDLE;
    }
    var ok := CheckOrder(records);
    if !ok {
      return REJECTED_TIME;
    }
    v := CheckRecords(records);
    if !v.VALID? {
      return;
    }
    AllPack(records);
    ok := CheckImages(records, images);
    v := if ok then VALID else REJECTED_IMAGE_MISMATCH;
  }

  lemma {:induction false} AllPack(records: seq<Record>)
    requires AllSound(records) && forall r | r in records :: r.regionPages < WORD
    ensures forall r | r in records :: Packable(r.receipt.runs)
  {
    forall r | r in records
      ensures Packable(r.receipt.runs)
    {
      var i :| 0 <= i < |records| && records[i] == r;
      assert Sound(records[i]);
      SoundPacks(r);
    }
  }

  lemma {:induction false} SoundPacks(r: Record)
    requires Sound(r) && r.regionPages < WORD
    ensures Packable(r.receipt.runs)
  {
    var claims := Claims(r.receipt.runs);
    forall i | 0 <= i < |claims|
      ensures r.receipt.runs[i].first < WORD && r.receipt.runs[i].count < WORD
    {
      assert claims[i].first + claims[i].count <= r.regionPages;
    }
  }
}
