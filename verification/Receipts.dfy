/** Proof records and the ingest receipts that bind a lifecycle aggregate to the verified Gait
    adapter (core/store/lifecycle_receipt.go). Digests and signatures belong to a library whose
    code is not modelled; they are functions supplied by `Crypto`. */
module Receipts {
  import opened Prelude
  import opened Text

  datatype Signature = Signature(signedDigest: string, keyID: string, sig: string)
  const NO_SIGNATURE := Signature("", "", "")

  datatype SigningKey = SigningKey(keyID: string, public: string, private: string)

  datatype Receipt = Receipt(
    schemaID: string, schemaVersion: string, receiptID: string, recordID: string,
    recordContentDigest: string, sourceArtifactDigest: string, evidenceSetID: string,
    producerVersion: string, sourceCommit: string, issuedAt: string, signerKeyID: string,
    signature: Signature)

  /** A metadata value: text, flag, something that decodes as a receipt, or anything else. */
  datatype Value = Str(text: string) | Flag(flag: bool) | ReceiptValue(receipt: Receipt) | Other(json: string)

  datatype Integrity = Integrity(previousRecordHash: string, recordHash: string, signature: string,
                                 signingKeyID: string)
  const NO_INTEGRITY := Integrity("", "", "", "")

  datatype Record = Record(
    recordID: string, source: string, sourceProduct: string, recordType: string,
    event: string, rest: string, metadata: map<string, Value>, integrity: Integrity)

  /** The library functions the store relies on. */
  datatype Crypto = Crypto(
    contentDigest: Record -> Option<string>,
    receiptDigest: Receipt -> Option<string>,
    keyID: string -> string,
    sign: (string, string) -> Option<Signature>,
    verify: (string, Signature) -> bool)

  const RECEIPT_KEY := "gait_verification_receipt"
  const RECEIPT_SCHEMA_ID := "https://axym.dev/schemas/v1/governance/gait-verification-receipt.schema.json"
  const RECEIPT_SCHEMA_VERSION := "1"

  function StringValue(metadata: map<string, Value>, key: string): string {
    if key in metadata && metadata[key].Str? then Trim(metadata[key].text) else ""
  }

  predicate IsGaitLifecycle(r: Record) {
    r.sourceProduct == "gait" && StringValue(r.metadata, "evidence_kind") == "gait_lifecycle"
  }

  /** What the content digest covers: everything but the chain linkage and the receipt itself. */
  function Content(r: Record): Record {
    r.(integrity := NO_INTEGRITY, metadata := r.metadata - {RECEIPT_KEY})
  }

  function ContentDigest(c: Crypto, r: Record): Option<string> {
    match c.contentDigest(Content(r))
    case None => None
    case Some(d) => Some("sha256:" + WithoutPrefix(d))
  }

  function ReceiptDigest(c: Crypto, receipt: Receipt): Option<string> {
    match c.receiptDigest(receipt.(signature := NO_SIGNATURE))
    case None => None
    case Some(d) => Some("sha256:" + WithoutPrefix(d))
  }

  datatype ReceiptError =
    | NotLifecycle | AlreadyPresent | DigestFailed | ProvenanceIncomplete | SigningFailed
    | Undecodable | Malformed | ContentMismatch | DigestMismatch | SignatureInvalid | FieldMismatch

  datatype Result<+T> = Ok(value: T) | Err(error: ReceiptError)

  predicate Provenance(receipt: Receipt) {
    && receipt.sourceArtifactDigest != "" && receipt.evidenceSetID != "" && receipt.producerVersion != ""
    && receipt.sourceCommit != "" && receipt.issuedAt != ""
  }

  predicate WellFormed(c: Crypto, receipt: Receipt, recordID: string, public: string) {
    && receipt.schemaID == RECEIPT_SCHEMA_ID && receipt.schemaVersion == RECEIPT_SCHEMA_VERSION
    && receipt.recordID == recordID && receipt.signerKeyID == c.keyID(public)
    && receipt.recordContentDigest != "" && Provenance(receipt)
  }

  predicate FieldsMatch(receipt: Receipt, metadata: map<string, Value>) {
    && StringValue(metadata, "gait_source_artifact_digest") == receipt.sourceArtifactDigest
    && StringValue(metadata, "gait_evidence_set_id") == receipt.evidenceSetID
    && StringValue(metadata, "gait_producer_version") == receipt.producerVersion
    && StringValue(metadata, "gait_source_commit") == receipt.sourceCommit
  }

  function VerifyReceipt(c: Crypto, r: Record, public: string): Result<Receipt> {
    if !IsGaitLifecycle(r) then Err(NotLifecycle)
    else if RECEIPT_KEY !in r.metadata then Err(Malformed)
    else if !r.metadata[RECEIPT_KEY].ReceiptValue? then Err(Undecodable)
    else
      var receipt := r.metadata[RECEIPT_KEY].receipt;
      if !WellFormed(c, receipt, r.recordID, public) then Err(Malformed)
      else if ContentDigest(c, r) != Some(receipt.recordContentDigest) then Err(ContentMismatch)
      else
        var want := ReceiptDigest(c, receipt);
        if want.None? || receipt.signature.signedDigest != WithoutPrefix(want.value) then Err(DigestMismatch)
        else if !c.verify(public, receipt.signature) then Err(SignatureInvalid)
        else if !FieldsMatch(receipt, r.metadata) then Err(FieldMismatch)
        else Ok(receipt)
  }

  /** The receipt that signing builds, before its signature. */
  function Unsigned(r: Record, digest: string, key: SigningKey, issuedAt: string): Receipt {
    var bare := WithoutPrefix(digest);
    Receipt(RECEIPT_SCHEMA_ID, RECEIPT_SCHEMA_VERSION,
            "gait-ingest-receipt-v1:" + (if |bare| >= 16 then bare[..16] else bare),
            r.recordID, digest,
            StringValue(r.metadata, "gait_source_artifact_digest"),
            StringValue(r.metadata, "gait_evidence_set_id"),
            StringValue(r.metadata, "gait_producer_version"),
            StringValue(r.metadata, "gait_source_commit"),
            issuedAt, key.keyID, NO_SIGNATURE)
  }

  /** The record signing leaves behind. */
  function Signed(c: Crypto, r: Record, key: SigningKey, issuedAt: string): Result<Record> {
    if !IsGaitLifecycle(r) then Err(NotLifecycle)
    else if RECEIPT_KEY in r.metadata then Err(AlreadyPresent)
    else
      match ContentDigest(c, r)
      case None => Err(DigestFailed)
      case Some(digest) =>
        var receipt := Unsigned(r, digest, key, issuedAt);
        if !Provenance(receipt) then Err(ProvenanceIncomplete)
        else
          match ReceiptDigest(c, receipt)
          case None => Err(DigestFailed)
          case Some(d) =>
            match c.sign(key.private, WithoutPrefix(d))
            case None => Err(SigningFailed)
            case Some(signature) =>
              Ok(r.(metadata := r.metadata[RECEIPT_KEY := ReceiptValue(receipt.(signature := signature))]))
  }

  /** A record under translation; signing writes the receipt into its metadata. */
  class Draft {
    var record: Record

    constructor (record: Record)
      ensures this.record == record
    {
      this.record := record;
    }

    method SignLifecycleReceipt(c: Crypto, key: SigningKey, issuedAt: string) returns (error: Option<ReceiptError>)
      modifies this
      ensures match Signed(c, old(record), key, issuedAt)
              case Ok(signed) => error == None && record == signed
              case Err(e) => error == Some(e) && record == old(record)
    {
      if !IsGaitLifecycle(record) {
        return Some(NotLifecycle);
      }
      if RECEIPT_KEY in record.metadata {
        return Some(AlreadyPresent);
      }
      var content := ContentDigest(c, record);
      if content.None? {
        return Some(DigestFailed);
      }
      var receipt := Unsigned(record, content.value, key, issuedAt);
      if !Provenance(receipt) {
        return Some(ProvenanceIncomplete);
      }
      var digest := ReceiptDigest(c, receipt);
      if digest.None? {
        return Some(DigestFailed);
      }
      var signature := c.sign(key.private, WithoutPrefix(digest.value));
      if signature.None? {
        return Some(SigningFailed);
      }
      receipt := receipt.(signature := signature.value);
      record := record.(metadata := record.metadata[RECEIPT_KEY := ReceiptValue(receipt)]);
      return None;
    }
  }

  // ----- What a receipt guarantees -----

  /** The key pair works: its public half verifies what its private half signs. */
  ghost predicate KeyWorks(c: Crypto, key: SigningKey) {
    && key.keyID == c.keyID(key.public)
    && forall d :: c.sign(key.private, d).Some? ==>
         c.sign(key.private, d).value.signedDigest == d && c.verify(key.public, c.sign(key.private, d).value)
  }

  /** Signing completes verification, even after the record is re-linked into a chain. */
  lemma SignThenVerify(c: Crypto, r: Record, key: SigningKey, issuedAt: string, linkage: Integrity)
    requires KeyWorks(c, key) && Signed(c, r, key, issuedAt).Ok?
    ensures VerifyReceipt(c, Signed(c, r, key, issuedAt).value.(integrity := linkage), key.public).Ok?
  {
    var digest := ContentDigest(c, r).value;
    var receipt := Unsigned(r, digest, key, issuedAt);
    var signature := c.sign(key.private, WithoutPrefix(ReceiptDigest(c, receipt).value)).value;
    var stamped := receipt.(signature := signature);
    assert ReceiptDigest(c, stamped) == ReceiptDigest(c, receipt) by {
      assert stamped.(signature := NO_SIGNATURE) == receipt.(signature := NO_SIGNATURE);
    }
    AttachKeepsContent(c, r, stamped, linkage);
    var signed := Signed(c, r, key, issuedAt).value.(integrity := linkage);
    assert signed == Attached(r, stamped).(integrity := linkage);
    assert WellFormed(c, stamped, signed.recordID, key.public);
  }

  function Attached(r: Record, receipt: Receipt): Record {
    r.(metadata := r.metadata[RECEIPT_KEY := ReceiptValue(receipt)])
  }

  /** Attaching a receipt and re-linking leave the attested content and fields alone. */
  lemma AttachKeepsContent(c: Crypto, r: Record, receipt: Receipt, linkage: Integrity)
    requires RECEIPT_KEY !in r.metadata
    ensures var s := Attached(r, receipt).(integrity := linkage);
            && ContentDigest(c, s) == ContentDigest(c, r)
            && (IsGaitLifecycle(s) <==> IsGaitLifecycle(r))
            && (FieldsMatch(receipt, s.metadata) <==> FieldsMatch(receipt, r.metadata))
  {
    var s := Attached(r, receipt).(integrity := linkage);
    assert s.metadata - {RECEIPT_KEY} == r.metadata - {RECEIPT_KEY};
    assert Content(s) == Content(r);
    OtherKeys("evidence_kind", r.metadata, s.metadata);
    OtherKeys("gait_source_artifact_digest", r.metadata, s.metadata);
    OtherKeys("gait_evidence_set_id", r.metadata, s.metadata);
    OtherKeys("gait_producer_version", r.metadata, s.metadata);
    OtherKeys("gait_source_commit", r.metadata, s.metadata);
  }

  lemma OtherKeys(key: string, m: map<string, Value>, n: map<string, Value>)
    requires key != RECEIPT_KEY && m - {RECEIPT_KEY} == n - {RECEIPT_KEY}
    ensures StringValue(m, key) == StringValue(n, key)
  {
    assert key in m <==> key in m - {RECEIPT_KEY};
    assert key in n <==> key in n - {RECEIPT_KEY};
    assert key in m ==> m[key] == (m - {RECEIPT_KEY})[key] == n[key];
  }

  /** Re-linking a record changes neither verdict nor receipt. */
  lemma ReceiptIgnoresLinkage(c: Crypto, r: Record, public: string, linkage: Integrity)
    ensures VerifyReceipt(c, r.(integrity := linkage), public) == VerifyReceipt(c, r, public)
  {
    assert Content(r.(integrity := linkage)) == Content(r);
  }

  /** Distinct contents have distinct digests. */
  ghost predicate InjectiveContent(c: Crypto) {
    forall r, s {:trigger c.contentDigest(r), c.contentDigest(s)} ::
      c.contentDigest(r).Some? && c.contentDigest(s).Some?
      && WithoutPrefix(c.contentDigest(r).value) == WithoutPrefix(c.contentDigest(s).value)
      ==> r == s
  }

  lemma VerifiedDigest(c: Crypto, r: Record, public: string)
    requires VerifyReceipt(c, r, public).Ok?
    ensures RECEIPT_KEY in r.metadata && r.metadata[RECEIPT_KEY] == ReceiptValue(VerifyReceipt(c, r, public).value)
    ensures ContentDigest(c, r) == Some(VerifyReceipt(c, r, public).value.recordContentDigest)
  {
  }

  /** One receipt attests one content: no caller can change a record, linkage aside, and keep it. */
  lemma ReceiptBindsContent(c: Crypto, r: Record, s: Record, public: string)
    requires InjectiveContent(c)
    requires VerifyReceipt(c, r, public).Ok? && VerifyReceipt(c, s, public) == VerifyReceipt(c, r, public)
    ensures s == r.(integrity := s.integrity)
  {
    VerifiedDigest(c, r, public);
    VerifiedDigest(c, s, public);
    SameDigestSameContent(c, r, s);
    ContentAndReceipt(r, s);
  }

  /** A record is its content, its receipt and its linkage. */
  lemma ContentAndReceipt(r: Record, s: Record)
    requires Content(r) == Content(s)
    requires RECEIPT_KEY in r.metadata && RECEIPT_KEY in s.metadata &&
             r.metadata[RECEIPT_KEY] == s.metadata[RECEIPT_KEY]
    ensures s == r.(integrity := s.integrity)
  {
    assert Content(r).metadata == Content(s).metadata;
    SameRest(RECEIPT_KEY, r.metadata, s.metadata);
  }

  lemma SameRest(key: string, m: map<string, Value>, n: map<string, Value>)
    requires m - {key} == n - {key} && key in m && key in n && m[key] == n[key]
    ensures m == n
  {
    forall k ensures k in m <==> k in n {
      assert k in m - {key} <==> k in m && k != key;
      assert k in n - {key} <==> k in n && k != key;
    }
    forall k | k in m ensures m[k] == n[k] {
      if k != key { assert (m - {key})[k] == (n - {key})[k]; }
    }
  }

  lemma SameDigestSameContent(c: Crypto, r: Record, s: Record)
    requires InjectiveContent(c) && ContentDigest(c, r) == ContentDigest(c, s) && ContentDigest(c, r).Some?
    ensures Content(r) == Content(s)
  {
    var d, e := c.contentDigest(Content(r)).value, c.contentDigest(Content(s)).value;
    assert ("sha256:" + WithoutPrefix(d))[7..] == WithoutPrefix(d);
    assert ("sha256:" + WithoutPrefix(e))[7..] == WithoutPrefix(e);
  }
}
