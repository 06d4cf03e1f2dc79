/** What an accepted receipt and a registry entry attest, field by field. */
module ReceiptMeaning {
  import opened Prelude
  import opened Text
  import opened Sorting
  import opened Receipts
  import opened Disk
  import opened Registry

  /** The trimmed text at a metadata key, or nothing. */
  function Told(r: Record, key: string): string {
    if key in r.metadata && r.metadata[key].Str? then Trim(r.metadata[key].text) else ""
  }

  predicate IsLifecycle(r: Record) {
    r.sourceProduct == "gait" && Told(r, "evidence_kind") == "gait_lifecycle"
  }

  /** The record without its chain linkage and its receipt. */
  function Attested(r: Record): Record {
    r.(integrity := Integrity("", "", "", ""), metadata := r.metadata - {"gait_verification_receipt"})
  }

  /** A digest under its prefix, whether or not it came with one. */
  predicate Digests(d: Option<string>, text: string) {
    d.Some? && text == "sha256:" + if "sha256:" <= d.value then d.value[7..] else d.value
  }

  /** The receipt speaks of this record, this key and this content, and tells its origin. */
  predicate SpeaksOf(c: Crypto, receipt: Receipt, r: Record, public: string) {
    && receipt.schemaID == "https://axym.dev/schemas/v1/governance/gait-verification-receipt.schema.json"
    && receipt.schemaVersion == "1"
    && receipt.recordID == r.recordID && receipt.signerKeyID == c.keyID(public)
    && receipt.recordContentDigest != "" && receipt.sourceArtifactDigest != "" && receipt.evidenceSetID != ""
    && receipt.producerVersion != "" && receipt.sourceCommit != "" && receipt.issuedAt != ""
  }

  predicate Covers(c: Crypto, receipt: Receipt, r: Record) {
    Digests(c.contentDigest(Attested(r)), receipt.recordContentDigest)
  }

  /** The signature is over the receipt without its signature. */
  predicate SignsItself(c: Crypto, receipt: Receipt) {
    var d := c.receiptDigest(receipt.(signature := Signature("", "", "")));
    d.Some? && Digests(d, "sha256:" + receipt.signature.signedDigest)
  }

  predicate TellsOrigin(receipt: Receipt, r: Record) {
    && Told(r, "gait_source_artifact_digest") == receipt.sourceArtifactDigest
    && Told(r, "gait_evidence_set_id") == receipt.evidenceSetID
    && Told(r, "gait_producer_version") == receipt.producerVersion
    && Told(r, "gait_source_commit") == receipt.sourceCommit
  }

  lemma ToldIs(r: Record, key: string)
    ensures StringValue(r.metadata, key) == Told(r, key)
  {
  }

  lemma LifecycleIs(r: Record)
    ensures IsGaitLifecycle(r) <==> IsLifecycle(r)
  {
    hide Trim;
  }

  lemma PrefixOnce(d: string)
    ensures WithoutPrefix("sha256:" + WithoutPrefix(d)) == WithoutPrefix(d)
    ensures WithoutPrefix(d) == if "sha256:" <= d then d[7..] else d
  {
    assert ("sha256:" + WithoutPrefix(d))[7..] == WithoutPrefix(d);
  }

  lemma ContentIs(c: Crypto, r: Record, text: string)
    ensures ContentDigest(c, r) == Some(text) <==> Digests(c.contentDigest(Attested(r)), text)
  {
    assert Content(r) == Attested(r);
    if c.contentDigest(Content(r)).Some? { PrefixOnce(c.contentDigest(Content(r)).value); }
  }

  lemma SignatureIs(c: Crypto, receipt: Receipt)
    ensures var want := ReceiptDigest(c, receipt);
            want.Some? && receipt.signature.signedDigest == WithoutPrefix(want.value) <==> SignsItself(c, receipt)
  {
    var d := c.receiptDigest(receipt.(signature := NO_SIGNATURE));
    if d.Some? {
      PrefixOnce(d.value);
      var bare := if "sha256:" <= d.value then d.value[7..] else d.value;
      assert ("sha256:" + receipt.signature.signedDigest)[7..] == receipt.signature.signedDigest;
      assert ("sha256:" + bare)[7..] == bare;
    }
  }

  lemma OriginIs(receipt: Receipt, r: Record)
    ensures FieldsMatch(receipt, r.metadata) <==> TellsOrigin(receipt, r)
  {
    hide Trim;
  }

  lemma SpeaksIs(c: Crypto, receipt: Receipt, r: Record, public: string)
    ensures WellFormed(c, receipt, r.recordID, public) <==> SpeaksOf(c, receipt, r, public)
  {
  }

  /** The receipt in a record's metadata. */
  function Attached(r: Record): Option<Receipt> {
    if "gait_verification_receipt" in r.metadata && r.metadata["gait_verification_receipt"].ReceiptValue?
    then Some(r.metadata["gait_verification_receipt"].receipt) else None
  }

  /** Main result. A receipt is accepted exactly when the record is a lifecycle aggregate that carries it,
      and it speaks of the record, covers its content, is signed by the key, and tells the same origin. */
  lemma AcceptedMeans(c: Crypto, r: Record, public: string, receipt: Receipt)
    ensures VerifyReceipt(c, r, public) == Ok(receipt) <==>
            && IsLifecycle(r) && Attached(r) == Some(receipt)
            && SpeaksOf(c, receipt, r, public) && Covers(c, receipt, r) && SignsItself(c, receipt)
            && c.verify(public, receipt.signature) && TellsOrigin(receipt, r)
  {
    LifecycleIs(r);
    SpeaksIs(c, receipt, r, public);
    ContentIs(c, r, receipt.recordContentDigest);
    SignatureIs(c, receipt);
    OriginIs(receipt, r);
    hide IsGaitLifecycle, IsLifecycle, WellFormed, SpeaksOf, ContentDigest, Digests, ReceiptDigest, SignsItself,
      FieldsMatch, TellsOrigin, WithoutPrefix, Attested;
  }

  /** Why a receipt is refused: the first of these that fails. */
  lemma RefusedMeans(c: Crypto, r: Record, public: string)
    ensures var answer := VerifyReceipt(c, r, public);
            && (!IsLifecycle(r) <==> answer == Err(NotLifecycle))
            && (IsLifecycle(r) && "gait_verification_receipt" !in r.metadata ==> answer == Err(Malformed))
            && (IsLifecycle(r) && "gait_verification_receipt" in r.metadata && Attached(r).None? ==>
                answer == Err(Undecodable))
            && (IsLifecycle(r) && Attached(r).Some? ==>
                  var receipt := Attached(r).value;
                  var speaks, covers, signs, verifies :=
                    SpeaksOf(c, receipt, r, public), Covers(c, receipt, r), SignsItself(c, receipt),
                        c.verify(public, receipt.signature);
                  && (answer == Err(Malformed) <==> !speaks)
                  && (answer == Err(ContentMismatch) <==> speaks && !covers)
                  && (answer == Err(DigestMismatch) <==> speaks && covers && !signs)
                  && (answer == Err(SignatureInvalid) <==> speaks && covers && signs && !verifies)
                  && (answer == Err(FieldMismatch) <==>
                      speaks && covers && signs && verifies && !TellsOrigin(receipt, r)))
  {
    LifecycleIs(r);
    if Attached(r).Some? {
      var receipt := Attached(r).value;
      SpeaksIs(c, receipt, r, public);
      ContentIs(c, r, receipt.recordContentDigest);
      SignatureIs(c, receipt);
      OriginIs(receipt, r);
    }
    hide IsGaitLifecycle, IsLifecycle, WellFormed, SpeaksOf, ContentDigest, Digests, ReceiptDigest, SignsItself,
      FieldsMatch, TellsOrigin, WithoutPrefix, Attested;
  }

  // ----- Signing -----

  /** What the signed record gained: a receipt made from its own metadata and digest, under this key. */
  predicate MadeFrom(c: Crypto, receipt: Receipt, r: Record, key: SigningKey, issuedAt: string) {
    && receipt.schemaID == "https://axym.dev/schemas/v1/governance/gait-verification-receipt.schema.json"
    && receipt.schemaVersion == "1" && receipt.recordID == r.recordID
    && receipt.issuedAt == issuedAt && receipt.signerKeyID == key.keyID
    && TellsOrigin(receipt, r) && Covers(c, receipt, r)
  }

  /** Main result. Signing adds the receipt and changes nothing else; the receipt is made from the record,
      and its signature is the key's over the receipt's own digest. */
  lemma SignedMeans(c: Crypto, r: Record, key: SigningKey, issuedAt: string, s: Record)
    requires Signed(c, r, key, issuedAt) == Ok(s)
    ensures IsLifecycle(r) && "gait_verification_receipt" !in r.metadata && Attached(s).Some?
    ensures s == r.(metadata := s.metadata) && s.metadata - {"gait_verification_receipt"} == r.metadata
    ensures MadeFrom(c, Attached(s).value, r, key, issuedAt)
    ensures exists d ::
              && Digests(c.receiptDigest(Attached(s).value.(signature := Signature("", "", ""))), "sha256:" + d)
              && c.sign(key.private, d) == Some(Attached(s).value.signature)
  {
    LifecycleIs(r);
    var digest, d, signature := SignedParts(c, r, key, issuedAt, s);
    var receipt := Unsigned(r, digest, key, issuedAt).(signature := signature);
    UnsignedMadeFrom(r, digest, key, issuedAt, signature);
    ContentIs(c, r, digest);
    PrefixOnce(d);
    SignedDigest(c, receipt, d);
    hide IsGaitLifecycle, IsLifecycle, Attested, Unsigned, Signed, Provenance, ContentDigest, Digests, TellsOrigin,
        WithoutPrefix, ReceiptDigest;
    assert Attached(s) == Some(receipt);
    assert s.metadata - {"gait_verification_receipt"} == r.metadata;
  }

  lemma SignedParts(c: Crypto, r: Record, key: SigningKey, issuedAt: string, s: Record)
    returns (digest: string, d: string, signature: Signature)
    requires Signed(c, r, key, issuedAt) == Ok(s)
    ensures IsGaitLifecycle(r) && RECEIPT_KEY !in r.metadata && ContentDigest(c, r) == Some(digest)
    ensures ReceiptDigest(c, Unsigned(r, digest, key, issuedAt)) == Some(d)
    ensures c.sign(key.private, WithoutPrefix(d)) == Some(signature)
    ensures var receipt := Unsigned(r, digest, key, issuedAt).(signature := signature);
            s == r.(metadata := r.metadata[RECEIPT_KEY := ReceiptValue(receipt)])
  {
    hide IsGaitLifecycle, ContentDigest, Unsigned, ReceiptDigest, Provenance;
    digest := ContentDigest(c, r).value;
    d := ReceiptDigest(c, Unsigned(r, digest, key, issuedAt)).value;
    signature := c.sign(key.private, WithoutPrefix(d)).value;
  }

  lemma UnsignedMadeFrom(r: Record, digest: string, key: SigningKey, issuedAt: string, signature: Signature)
    ensures var receipt := Unsigned(r, digest, key, issuedAt).(signature := signature);
            && receipt.schemaID == "https://axym.dev/schemas/v1/governance/gait-verification-receipt.schema.json"
            && receipt.schemaVersion == "1" && receipt.recordID == r.recordID && receipt.recordContentDigest == digest
            && receipt.issuedAt == issuedAt && receipt.signerKeyID == key.keyID && receipt.signature == signature
            && TellsOrigin(receipt, r)
            && receipt.receiptID ==
               "gait-ingest-receipt-v1:" + (if |WithoutPrefix(digest)| >= 16 then WithoutPrefix(digest)[..16]
                                            else WithoutPrefix(digest))
  {
    ToldIs(r, "gait_source_artifact_digest");
    ToldIs(r, "gait_evidence_set_id");
    ToldIs(r, "gait_producer_version");
    ToldIs(r, "gait_source_commit");
    hide StringValue, Told, WithoutPrefix;
  }

  lemma SignedDigest(c: Crypto, receipt: Receipt, d: string)
    requires ReceiptDigest(c, receipt) == Some(d)
    ensures Digests(c.receiptDigest(receipt.(signature := Signature("", "", ""))), "sha256:" + WithoutPrefix(d))
  {
    var e := c.receiptDigest(receipt.(signature := NO_SIGNATURE)).value;
    PrefixOnce(e);
    hide WithoutPrefix;
  }

  // ----- Registry entries -----

  predicate Marked(r: Record, key: string) {
    key in r.metadata && r.metadata[key] == Flag(true)
  }

  predicate DigestText(s: string) {
    && |s| == 71 && s[..7] == "sha256:"
    && forall i :: 7 <= i < 71 ==>
       s[i] in {'0', '1', '2', '3', '4', '5', '6', '7', '8', '9', 'a', 'b', 'c', 'd', 'e', 'f'}
  }

  lemma DigestIs(s: string)
    ensures Sha256Digest(s) <==> DigestText(s)
  {
    if |s| >= 7 {
      var bare := s[7..];
      assert forall i :: 0 <= i < |bare| ==> bare[i] == s[i + 7];
      if Sha256Digest(s) {
        forall i | 7 <= i < 71
          ensures s[i] in {'0', '1', '2', '3', '4', '5', '6', '7', '8', '9', 'a', 'b', 'c', 'd', 'e', 'f'}
        {
          assert bare[i - 7] == s[i];
        }
      }
    }
  }

  /** What a record must claim to be registered: verified, authoritative, no fixture, with its digests. */
  predicate Registrable(r: Record) {
    && IsLifecycle(r) && r.integrity.recordHash != ""
    && Told(r, "gait_verification_state") == "verified" && Marked(r, "gait_authoritative") &&
       !Marked(r, "gait_fixture_only")
    && DigestText(Told(r, "gait_source_artifact_digest")) && DigestText(Trim(r.integrity.recordHash))
  }

  lemma FlagsAre(r: Record, key: string)
    ensures FlagValue(r.metadata, key) <==> Marked(r, key)
  {
  }

  lemma EntryParts(r: Record)
    ensures EntryOf(r).Some? <==> Registrable(r)
    ensures EntryOf(r).Some? ==>
              && EntryOf(r).value.recordID == r.recordID && EntryOf(r).value.recordHash == r.integrity.recordHash
              && EntryOf(r).value.sourceArtifactDigest == Told(r, "gait_source_artifact_digest")
  {
    FlagsAre(r, "gait_authoritative");
    FlagsAre(r, "gait_fixture_only");
    ToldIs(r, "evidence_kind");
    ToldIs(r, "gait_verification_state");
    ToldIs(r, "gait_source_artifact_digest");
    DigestIs(Told(r, "gait_source_artifact_digest"));
    DigestIs(Trim(r.integrity.recordHash));
    hide FlagValue, Marked, StringValue, Told, Sha256Digest, DigestText, Trim;
  }

  /** Main result. A record is entered exactly when it is registrable and carries an accepted receipt, and
      the entry holds its id, its hash, its source digest and that receipt. */
  lemma EntryMeans(c: Crypto, r: Record, public: string, e: RegistryEntry)
    ensures VerifiedEntry(c, r, public) == Some(e) <==>
            && Registrable(r) && e.recordID == r.recordID && e.recordHash == r.integrity.recordHash
            && e.sourceArtifactDigest == Told(r, "gait_source_artifact_digest")
            && VerifyReceipt(c, r, public) == Ok(e.receipt)
  {
    EntryParts(r);
    hide EntryOf, Registrable, VerifyReceipt, Told;
    if EntryOf(r).Some? && VerifyReceipt(c, r, public).Ok? {
      var f := EntryOf(r).value.(receipt := VerifyReceipt(c, r, public).value);
      assert e == f <==> e.recordID == f.recordID && e.recordHash == f.recordHash
                         && e.sourceArtifactDigest == f.sourceArtifactDigest && e.receipt == f.receipt;
    }
  }

  /** Of several entries with one id in a file, the last is read. */
  lemma {:induction false} LastEntryWins(entries: seq<RegistryEntry>, i: nat)
    requires i < |entries| && entries[i].recordID != ""
    requires forall j :: i < j < |entries| ==> entries[j].recordID != entries[i].recordID
    ensures entries[i].recordID in AsTable(entries) && AsTable(entries)[entries[i].recordID] == entries[i]
  {
    hide AsTable;
    var n := |entries| - 1;
    TableStep(entries);
    if i < n {
      var init := entries[..n];
      assert forall j :: 0 <= j < n ==> init[j] == entries[j];
      LastEntryWins(init, i);
    }
  }

  lemma TableStep(entries: seq<RegistryEntry>)
    requires entries != []
    ensures var n := |entries| - 1;
            var t := AsTable(entries[..n]);
            AsTable(entries) == if entries[n].recordID == "" then t else t[entries[n].recordID := entries[n]]
  {
  }

  /** The file is rewritten in the order of the ids. */
  lemma FileAscends(entries: seq<RegistryEntry>, entry: RegistryEntry, i: nat, j: nat)
    requires i < j < |Upserted(entries, entry)| && entry.recordID != ""
    ensures var file := Upserted(entries, entry); !Less(file[j].recordID, file[i].recordID)
  {
    var t := AsTable(entries)[entry.recordID := entry];
    var ks := OrderedKeys(t.Keys);
    assert ks[i] in ks && ks[j] in ks;
    assert Ascending(Less, ks);
    hide Less;
  }

  /** Main result. How an attempt to register ends: refused without a write unless the record can be
      entered and the file be read, and otherwise as the write ends. */
  lemma RegistrationMeans(c: Crypto, file: File<seq<RegistryEntry>>, r: Record, public: string, fate: Fate)
    ensures var (after, answer) := RegisterSpec(c, file, r, public, fate);
            var admissible := Registrable(r) && VerifyReceipt(c, r, public).Ok? && !file.Garbled?;
            && (answer == Registered <==> admissible && fate.Lands?)
            && (answer == Interrupted <==> admissible && fate.Dies?)
            && (!admissible || fate.Fails? ==> after == file && answer == NotRegistered)
            && (answer == Registered ==>
                  && after.Holds? && forall e :: e in after.value && e.recordID == r.recordID ==>
                     VerifiedEntry(c, r, public) == Some(e))
  {
    EntryParts(r);
    hide EntryOf, Registrable, VerifyReceipt;
    if VerifiedEntry(c, r, public).Some? && !file.Garbled? {
      var entry := VerifiedEntry(c, r, public).value;
      OnlyOne(if file.Holds? then file.value else [], entry);
    }
    hide Upserted;
  }

  lemma OnlyOne(entries: seq<RegistryEntry>, entry: RegistryEntry)
    ensures forall e :: e in Upserted(entries, entry) && e.recordID == entry.recordID ==> e == entry
  {
    var t := AsTable(entries)[entry.recordID := entry];
    forall e | e in Upserted(entries, entry) && e.recordID == entry.recordID ensures e == entry {
      OrderedHolds(t, e);
    }
  }
}
