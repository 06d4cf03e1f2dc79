/** The registry of verified lifecycle aggregates (core/governance/verified_registry.go):
    a keyed upsert that rewrites the file in key order, and an exact membership check. */
module Registry {
  import opened Prelude
  import opened Text
  import opened Sorting
  import opened Receipts
  import opened Disk

  const NO_RECEIPT := Receipt("", "", "", "", "", "", "", "", "", "", "", NO_SIGNATURE)

  function FlagValue(metadata: map<string, Value>, key: string): bool {
    key in metadata && metadata[key].Flag? && metadata[key].flag
  }

  /** The entry a record claims, before its receipt is filled in. */
  function EntryOf(r: Record): Option<RegistryEntry> {
    var source := StringValue(r.metadata, "gait_source_artifact_digest");
    if r.sourceProduct != "gait" || r.integrity.recordHash == "" then None
    else if StringValue(r.metadata, "evidence_kind") != "gait_lifecycle"
            || StringValue(r.metadata, "gait_verification_state") != "verified"
            || !FlagValue(r.metadata, "gait_authoritative") || FlagValue(r.metadata, "gait_fixture_only") then None
    else if !Sha256Digest(source) || !Sha256Digest(Trim(r.integrity.recordHash)) then None
    else Some(RegistryEntry(r.recordID, r.integrity.recordHash, source, NO_RECEIPT))
  }

  /** The full entry of a record whose receipt verifies. */
  function VerifiedEntry(c: Crypto, r: Record, public: string): Option<RegistryEntry> {
    if EntryOf(r).None? || VerifyReceipt(c, r, public).Err? then None
    else Some(EntryOf(r).value.(receipt := VerifyReceipt(c, r, public).value))
  }

  // ----- The file as a map, and the map as a file -----

  type Table = map<string, RegistryEntry>

  /** Later entries win; entries without an id are dropped. */
  function AsTable(entries: seq<RegistryEntry>): (t: Table)
    ensures forall id :: id in t ==> t[id].recordID == id && t[id] in entries
  {
    if entries == [] then map[]
    else
      var e := entries[|entries| - 1];
      var t := AsTable(entries[..|entries| - 1]);
      if e.recordID == "" then t else t[e.recordID := e]
  }

  ghost function Lookup(t: Table, ks: seq<string>): (es: seq<RegistryEntry>)
    requires forall k :: k in ks ==> k in t
    ensures |es| == |ks| && forall i :: 0 <= i < |ks| ==> es[i] == t[ks[i]]
  {
    seq(|ks|, i requires 0 <= i < |ks| => t[ks[i]])
  }

  ghost function Ordered(t: Table): (es: seq<RegistryEntry>) {
    Lookup(t, OrderedKeys(t.Keys))
  }

  lemma OrderedHolds(t: Table, e: RegistryEntry)
    ensures e in Ordered(t) <==> exists id :: id in t && t[id] == e
  {
    var ks := OrderedKeys(t.Keys);
    if id :| id in t && t[id] == e {
      assert id in ks;
      var i :| 0 <= i < |ks| && ks[i] == id;
      assert Ordered(t)[i] == e;
    }
    if e in Ordered(t) {
      var i :| 0 <= i < |ks| && Ordered(t)[i] == e;
      assert ks[i] in t && t[ks[i]] == e;
    }
  }

  /** The file that results from registering `entry`. */
  ghost function Upserted(entries: seq<RegistryEntry>, entry: RegistryEntry): seq<RegistryEntry> {
    Ordered(AsTable(entries)[entry.recordID := entry])
  }

  datatype Registration = Registered | NotRegistered | Interrupted

  /** The registry file and the answer after one registration attempt. */
  ghost function RegisterSpec(c: Crypto, file: File<seq<RegistryEntry>>, r: Record, public: string, fate: Fate)
    : (File<seq<RegistryEntry>>, Registration)
  {
    var entry := VerifiedEntry(c, r, public);
    if entry.None? || file.Garbled? then (file, NotRegistered)
    else
      var existing := if file.Holds? then file.value else [];
      (After(file, Upserted(existing, entry.value), fate),
       match fate case Lands => Registered case Fails => NotRegistered case Dies => Interrupted)
  }

  method RegisterVerifiedLifecycle(c: Crypto, dir: Directory, r: Record, public: string, fate: Fate)
    returns (done: Registration)
    modifies dir`registry
    ensures (dir.registry, done) == RegisterSpec(c, old(dir.registry), r, public, fate)
  {
    var claimed := EntryOf(r);
    if claimed.None? {
      return NotRegistered;
    }
    var receipt := VerifyReceipt(c, r, public);
    if receipt.Err? {
      return NotRegistered;
    }
    var entry := claimed.value.(receipt := receipt.value);
    if dir.registry.Garbled? {
      return NotRegistered;
    }
    var entries := ReadTable(if dir.registry.Holds? then dir.registry.value else []);
    entries := entries[entry.recordID := entry];
    var ordered := WriteTable(entries);
    dir.WriteRegistry(ordered, fate);
    done := match fate case Lands => Registered case Fails => NotRegistered case Dies => Interrupted;
  }

  method ReadTable(existing: seq<RegistryEntry>) returns (entries: Table)
    ensures entries == AsTable(existing)
  {
    entries := map[];
    for i := 0 to |existing|
      invariant entries == AsTable(existing[..i])
    {
      assert existing[..i + 1][..i] == existing[..i];
      var candidate := existing[i];
      if candidate.recordID != "" {
        entries := entries[candidate.recordID := candidate];
      }
    }
    assert existing[..|existing|] == existing;
  }

  method WriteTable(entries: Table) returns (ordered: seq<RegistryEntry>)
    ensures ordered == Ordered(entries)
  {
    var keys := SortedKeys(entries.Keys);
    ordered := [];
    for i := 0 to |keys|
      invariant |ordered| == i
      invariant forall j :: 0 <= j < i ==> keys[j] in entries && ordered[j] == entries[keys[j]]
    {
      assert keys[i] in keys;
      ordered := ordered + [entries[keys[i]]];
    }
  }

  // ----- Membership -----

  ghost predicate IsRegistered(c: Crypto, file: File<seq<RegistryEntry>>, r: Record, public: string) {
    VerifiedEntry(c, r, public).Some? && file.Holds? && VerifiedEntry(c, r, public).value in file.value
  }

  method VerifyRegisteredLifecycle(c: Crypto, dir: Directory, r: Record, public: string) returns (ok: bool)
    ensures ok <==> IsRegistered(c, dir.registry, r, public)
  {
    var claimed := EntryOf(r);
    if claimed.None? {
      return false;
    }
    var receipt := VerifyReceipt(c, r, public);
    if receipt.Err? || !dir.registry.Holds? {
      return false;
    }
    var entry := claimed.value.(receipt := receipt.value);
    ok := Contains(dir.registry.value, entry);
  }

  method Contains(entries: seq<RegistryEntry>, entry: RegistryEntry) returns (found: bool)
    ensures found <==> entry in entries
  {
    for i := 0 to |entries|
      invariant entry !in entries[..i]
    {
      if entries[i] == entry {
        return true;
      }
    }
    return false;
  }

  /** What the bundle boundary calls a lifecycle record: the kind is compared untrimmed. */
  predicate LifecycleRecord(r: Record) {
    r.sourceProduct == "gait" && "evidence_kind" in r.metadata && r.metadata["evidence_kind"] == Str("gait_lifecycle")
  }

  /** A record that is not a lifecycle aggregate, or one with a valid receipt and an exact entry. */
  ghost predicate Backed(c: Crypto, file: File<seq<RegistryEntry>>, r: Record, public: string) {
    LifecycleRecord(r) ==> IsRegistered(c, file, r, public)
  }

  method CheckLifecycleRecord(c: Crypto, dir: Directory, r: Record, public: string) returns (ok: bool)
    ensures ok <==> Backed(c, dir.registry, r, public)
  {
    if !LifecycleRecord(r) {
      return true;
    }
    if VerifyReceipt(c, r, public).Err? {
      return false;
    }
    ok := VerifyRegisteredLifecycle(c, dir, r, public);
    ok := ok && EntryOf(r).Some?;
  }

  method VerifyLifecycleRecordsWithRegistry(c: Crypto, dir: Directory, records: seq<Record>, public: string)
    returns (ok: bool)
    ensures ok <==> forall i :: 0 <= i < |records| ==> Backed(c, dir.registry, records[i], public)
  {
    hide Backed;
    for i := 0 to |records|
      invariant forall j :: 0 <= j < i ==> Backed(c, dir.registry, records[j], public)
    {
      ok := CheckLifecycleRecord(c, dir, records[i], public);
      if !ok {
        return;
      }
    }
    return true;
  }

  // ----- What registration guarantees -----

  /** A landed registration registers its record, whatever the file held before. */
  lemma RegistrationTakes(c: Crypto, file: File<seq<RegistryEntry>>, r: Record, public: string, fate: Fate)
    requires RegisterSpec(c, file, r, public, fate).1 == Registered
    ensures IsRegistered(c, RegisterSpec(c, file, r, public, fate).0, r, public)
  {
    hide VerifiedEntry;
    var entry := VerifiedEntry(c, r, public).value;
    var table := AsTable(if file.Holds? then file.value else [])[entry.recordID := entry];
    assert entry.recordID in table && table[entry.recordID] == entry;
    OrderedHolds(table, entry);
  }

  /** Registered entries are one per id in a file this code wrote. */
  ghost predicate OnePerId(file: File<seq<RegistryEntry>>) {
    file.Holds? ==>
      && (forall e :: e in file.value ==> e.recordID != "")
      && (forall d, e :: d in file.value && e in file.value && d.recordID == e.recordID ==> d == e)
  }

  lemma {:induction false} TableKeeps(entries: seq<RegistryEntry>, e: RegistryEntry)
    requires OnePerId(Holds(entries)) && e in entries
    ensures e.recordID in AsTable(entries) && AsTable(entries)[e.recordID] == e
  {
    var init, last := entries[..|entries| - 1], entries[|entries| - 1];
    assert last in entries && forall x :: x in init ==> x in entries;
    if e != last {
      assert e in init;
      TableKeeps(init, e);
    }
  }

  /** An upsert keeps every entry with another id, and the file stays one-per-id. */
  lemma UpsertKeeps(existing: seq<RegistryEntry>, entry: RegistryEntry)
    requires OnePerId(Holds(existing)) && entry.recordID != ""
    ensures OnePerId(Holds(Upserted(existing, entry))) && entry in Upserted(existing, entry)
    ensures forall e: RegistryEntry :: e.recordID != entry.recordID ==>
            (e in Upserted(existing, entry) <==> e in existing)
  {
    var table := AsTable(existing)[entry.recordID := entry];
    EntriesNamed(existing);
    assert table[entry.recordID] == entry;
    forall e: RegistryEntry
      ensures e in Upserted(existing, entry) <==> e.recordID in table && table[e.recordID] == e
    {
      OrderedHolds(table, e);
    }
    forall e: RegistryEntry | e.recordID != entry.recordID && e in existing
      ensures e.recordID in table && table[e.recordID] == e {
      TableKeeps(existing, e);
    }
  }

  lemma {:induction false} EntriesNamed(entries: seq<RegistryEntry>)
    ensures "" !in AsTable(entries)
  {
    if entries != [] {
      EntriesNamed(entries[..|entries| - 1]);
    }
  }

  lemma EntryNamesRecord(c: Crypto, r: Record, public: string)
    requires VerifiedEntry(c, r, public).Some?
    ensures VerifiedEntry(c, r, public).value.recordID == r.recordID
  {
    hide VerifyReceipt;
  }

  /** Registering one record leaves the standing of every record with another id unchanged. */
  lemma OthersSurvive(c: Crypto, file: File<seq<RegistryEntry>>, r: Record, public: string, fate: Fate, s: Record)
    requires OnePerId(file) && r.recordID != "" && s.recordID != r.recordID
    ensures OnePerId(RegisterSpec(c, file, r, public, fate).0)
    ensures IsRegistered(c, RegisterSpec(c, file, r, public, fate).0, s, public) <==> IsRegistered(c, file, s, public)
  {
    hide VerifiedEntry, Upserted;
    if VerifiedEntry(c, r, public).Some? {
      EntryNamesRecord(c, r, public);
      UpsertKeeps(if file.Holds? then file.value else [], VerifiedEntry(c, r, public).value);
    }
    if VerifiedEntry(c, s, public).Some? {
      EntryNamesRecord(c, s, public);
    }
  }
}
