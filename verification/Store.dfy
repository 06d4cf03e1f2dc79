/** The evidence store's append (core/store/store.go): a sequence of atomic file writes with
    compensating rollback, guarded by the dedupe index. */
module Store {
  import opened Prelude
  import opened Text
  import opened Receipts
  import opened Disk
  import opened Registry
  import Dedupe

  /** What a library signature adds to a linked record. */
  datatype Seal = Seal(recordHash: string, signature: string, signingKeyID: string)

  /** Configuration, the stable signing key, and the library calls of an append. */
  datatype World = World(
    crypto: Crypto, key: SigningKey, readOnly: bool, ttl: int, maxSize: int,
    eventHash: string -> Option<string>,
    seal: Record -> Option<Seal>,
    schemaValid: Record -> bool,
    linkable: (Chain, Record) -> bool)

  /** The fate of each write of one append, in the order the code issues them. */
  datatype Fates = Fates(chain: Fate, index: Fate, registry: Fate, undoChain: Fate, undoIndex: Fate)

  datatype Request = Request(record: Record, dedupeKey: string, allowGait: bool, register: bool, now: int, fates: Fates)

  datatype StoreError =
    | ReadOnly | RecordIdRequired | UseGaitBoundary | NotGaitLifecycle | BadReceipt(why: ReceiptError)
    | ChainUnreadable | IndexUnreadable | MissingFromChain | RegistrationFailed
    | SignFailed | SchemaInvalid | LinkFailed | ChainWriteFailed | IndexWriteFailed

  datatype Outcome =
    | Appended(headHash: string, recordCount: nat, recordID: string)
    | Deduped(headHash: string, recordCount: nat, recordID: string)
    | Refused(error: StoreError)
    | Died

  // ----- Loading -----

  function ChainOf(f: Files): Chain {
    if f.chain.Holds? then f.chain.value else Chain([], "")
  }

  function IndexOf(f: Files): Dedupe.Entries {
    if f.index.Holds? then f.index.value else map[]
  }

  /** `dedupe.BuildKey`. */
  function KeyOf(w: World, r: Record): Option<string> {
    match w.eventHash(r.event)
    case None => None
    case Some(h) => Some(Trim(r.sourceProduct) + "|" + Trim(r.recordType) + "|sha256:" + h)
  }

  predicate ChainHasKey(w: World, chain: Chain, key: string) {
    exists i :: 0 <= i < |chain.records| && KeyOf(w, chain.records[i]) == Some(key)
  }

  // ----- What an append does to the files -----

  datatype Admission = Turned(error: StoreError) | Known | New(sealed: Record)

  function Linked(w: World, chain: Chain, r: Record): Record {
    r.(integrity := NO_INTEGRITY.(previousRecordHash := chain.headHash))
  }

  function Sealed(w: World, chain: Chain, r: Record): Option<Record> {
    var linked := Linked(w, chain, r);
    match w.seal(linked)
    case None => None
    case Some(s) => Some(linked.(integrity := Integrity(chain.headHash, s.recordHash, s.signature, s.signingKeyID)))
  }

  function Admit(w: World, f: Files, q: Request): Admission {
    if w.readOnly then Turned(ReadOnly)
    else if Blank(q.record.recordID) then Turned(RecordIdRequired)
    else if IsGaitLifecycle(q.record) && !q.allowGait then Turned(UseGaitBoundary)
    else if f.chain.Garbled? then Turned(ChainUnreadable)
    else if f.index.Garbled? then Turned(IndexUnreadable)
    else if q.dedupeKey != "" &&
        (Dedupe.Live(IndexOf(f), q.dedupeKey, q.now) || ChainHasKey(w, ChainOf(f), q.dedupeKey))
    then Known
    else
      match Sealed(w, ChainOf(f), q.record)
      case None => Turned(SignFailed)
      case Some(sealed) =>
        if !w.schemaValid(sealed) then Turned(SchemaInvalid)
        else if !w.linkable(ChainOf(f), sealed) then Turned(LinkFailed)
        else New(sealed)
  }

  /** The first chain record with this id. */
  function FirstWithId(records: seq<Record>, id: string): (r: Option<Record>)
    ensures r.Some? ==> r.value in records && r.value.recordID == id
    ensures r.None? ==> forall s :: s in records ==> s.recordID != id
  {
    if records == [] then None
    else if records[0].recordID == id then Some(records[0])
    else FirstWithId(records[1..], id)
  }

  /** A duplicate: nothing is written, except that the registration callback runs again. */
  ghost function Reuse(w: World, f: Files, q: Request): (Files, Outcome) {
    var chain := ChainOf(f);
    var done := Deduped(chain.headHash, |chain.records|, q.record.recordID);
    if !q.register then (f, done)
    else
      match FirstWithId(chain.records, q.record.recordID)
      case None => (f, Refused(MissingFromChain))
      case Some(r) =>
        var (registry, answer) := RegisterSpec(w.crypto, f.registry, r, w.key.public, q.fates.registry);
        (f.(registry := registry),
         match answer
         case Registered => done
         case NotRegistered => Refused(RegistrationFailed)
         case Interrupted => Died)
  }

  /** The index snapshot a rollback restores: lookups purge expired entries first. */
  function Snapshot(f: Files, q: Request): Dedupe.Entries {
    if q.dedupeKey == "" then IndexOf(f) else Dedupe.Purged(IndexOf(f), q.now)
  }

  /** Restore chain then index; a failed restoring write is ignored, a crash ends everything. */
  function RolledBack(f: Files, before: Files, q: Request, error: StoreError): (Files, Outcome) {
    var f1 := f.(chain := After(f.chain, ChainOf(before), q.fates.undoChain));
    if q.fates.undoChain.Dies? then (f1, Died)
    else
      var f2 := f1.(index := After(f1.index, Snapshot(before, q), q.fates.undoIndex));
      if q.fates.undoIndex.Dies? then (f2, Died) else (f2, Refused(error))
  }

  function Extended(chain: Chain, sealed: Record): Chain {
    Chain(chain.records + [sealed], sealed.integrity.recordHash)
  }

  /** A new record: chain write, index write, registration, each with its failure path. */
  ghost function Commit(w: World, f: Files, q: Request, sealed: Record, marked: Dedupe.Entries): (Files, Outcome) {
    var chain := Extended(ChainOf(f), sealed);
    var done := Appended(chain.headHash, |chain.records|, sealed.recordID);
    if q.fates.chain.Fails? then (f, Refused(ChainWriteFailed))
    else if q.fates.chain.Dies? then (f, Died)
    else
      var f1 := f.(chain := Holds(chain));
      if q.fates.index.Fails? then RolledBack(f1, f, q, IndexWriteFailed)
      else if q.fates.index.Dies? then (f1, Died)
      else
        var f2 := f1.(index := Holds(marked));
        if !q.register then (f2, done)
        else
          var (registry, answer) := RegisterSpec(w.crypto, f.registry, sealed, w.key.public, q.fates.registry);
          match answer
          case Registered => (f2.(registry := registry), done)
          case NotRegistered => RolledBack(f2, f, q, RegistrationFailed)
          case Interrupted => (f2, Died)
  }

  ghost function AppendSpec(w: World, f: Files, q: Request, marked: Dedupe.Entries): (Files, Outcome) {
    match Admit(w, f, q)
    case Turned(error) => (f, Refused(error))
    case Known => Reuse(w, f, q)
    case New(sealed) => Commit(w, f, q, sealed, marked)
  }

  /** `marked` is an index that marking the key may leave behind. */
  ghost predicate MarkResult(w: World, f: Files, q: Request, marked: Dedupe.Entries) {
    if q.dedupeKey == "" then marked == IndexOf(f)
    else Dedupe.Evicted(Dedupe.Marked(Snapshot(f, q), q.dedupeKey, q.now, Ttl(w)), MaxSize(w), marked)
  }

  function Ttl(w: World): int { if w.ttl <= 0 then 86400 else w.ttl }
  function MaxSize(w: World): int { if w.maxSize <= 0 then 10000 else w.maxSize }

  /** One append from `f` to `f'`. */
  ghost predicate AppendStep(w: World, f: Files, q: Request, f': Files, out: Outcome) {
    exists marked :: (Admit(w, f, q).New? ==> MarkResult(w, f, q, marked)) && (f', out) == AppendSpec(w, f, q, marked)
  }

  lemma TurnedAway(w: World, f: Files, q: Request)
    requires Admit(w, f, q).Turned?
    ensures AppendStep(w, f, q, f, Refused(Admit(w, f, q).error))
  {
    assert (f, Refused(Admit(w, f, q).error)) == AppendSpec(w, f, q, map[]);
  }

  // ----- The store -----

  class EvidenceStore {
    const world: World
    const dir: Directory

    constructor (world: World, dir: Directory)
      ensures this.world == world && this.dir == dir
    {
      this.world := world;
      this.dir := dir;
    }

    method HasKey(chain: Chain, key: string) returns (found: bool)
      ensures found <==> ChainHasKey(world, chain, key)
    {
      for i := 0 to |chain.records|
        invariant forall j :: 0 <= j < i ==> KeyOf(world, chain.records[j]) != Some(key)
      {
        if KeyOf(world, chain.records[i]) == Some(key) {
          return true;
        }
      }
      return false;
    }

    method Find(records: seq<Record>, id: string) returns (r: Option<Record>)
      ensures r == FirstWithId(records, id)
    {
      for i := 0 to |records|
        invariant FirstWithId(records, id) == FirstWithId(records[i..], id)
      {
        if records[i].recordID == id {
          return Some(records[i]);
        }
      }
      return None;
    }

    /** The rollback writes; their errors are ignored. */
    method Rollback(ghost before: Files, q: Request, chain: Chain, entries: Dedupe.Entries, error: StoreError)
      returns (out: Outcome)
      requires chain == ChainOf(before) && entries == Snapshot(before, q)
      modifies dir`chain, dir`index
      ensures (dir.Contents(), out) == RolledBack(old(dir.Contents()), before, q, error)
    {
      dir.WriteChain(chain, q.fates.undoChain);
      if q.fates.undoChain.Dies? {
        return Died;
      }
      dir.WriteIndex(entries, q.fates.undoIndex);
      if q.fates.undoIndex.Dies? {
        return Died;
      }
      return Refused(error);
    }

    /** The writes of a new record. */
    method CommitNew(q: Request, chain: Chain, sealed: Record, entries: Dedupe.Entries, marked: Dedupe.Entries)
      returns (out: Outcome)
      requires chain == ChainOf(dir.Contents()) && entries == Snapshot(dir.Contents(), q)
      modifies dir
      ensures (dir.Contents(), out) == Commit(world, old(dir.Contents()), q, sealed, marked)
    {
      ghost var before := dir.Contents();
      var extended := Extended(chain, sealed);
      dir.WriteChain(extended, q.fates.chain);
      if q.fates.chain.Fails? {
        return Refused(ChainWriteFailed);
      }
      if q.fates.chain.Dies? {
        return Died;
      }
      dir.WriteIndex(marked, q.fates.index);
      if q.fates.index.Fails? {
        out := Rollback(before, q, chain, entries, IndexWriteFailed);
        return;
      }
      if q.fates.index.Dies? {
        return Died;
      }
      if q.register {
        var answer := RegisterVerifiedLifecycle(world.crypto, dir, sealed, world.key.public, q.fates.registry);
        if answer.NotRegistered? {
          out := Rollback(before, q, chain, entries, RegistrationFailed);
          return;
        }
        if answer.Interrupted? {
          return Died;
        }
      }
      return Appended(extended.headHash, |extended.records|, sealed.recordID);
    }

    /** The duplicate branch. */
    method ReuseKnown(q: Request, chain: Chain) returns (out: Outcome)
      requires chain == ChainOf(dir.Contents())
      modifies dir
      ensures (dir.Contents(), out) == Reuse(world, old(dir.Contents()), q)
    {
      if q.register {
        var found := Find(chain.records, q.record.recordID);
        if found.None? {
          return Refused(MissingFromChain);
        }
        var answer := RegisterVerifiedLifecycle(world.crypto, dir, found.value, world.key.public, q.fates.registry);
        if answer.NotRegistered? {
          return Refused(RegistrationFailed);
        }
        if answer.Interrupted? {
          return Died;
        }
      }
      return Deduped(chain.headHash, |chain.records|, q.record.recordID);
    }

    method AppendRecord(q: Request) returns (out: Outcome)
      modifies dir
      ensures AppendStep(world, old(dir.Contents()), q, dir.Contents(), out)
    {
      hide IsGaitLifecycle, Blank, ChainHasKey, Commit;
      ghost var before := dir.Contents();
      ghost var marked: Dedupe.Entries := map[];
      if world.readOnly {
        TurnedAway(world, before, q);
        return Refused(ReadOnly);
      }
      if Blank(q.record.recordID) {
        TurnedAway(world, before, q);
        return Refused(RecordIdRequired);
      }
      if IsGaitLifecycle(q.record) && !q.allowGait {
        TurnedAway(world, before, q);
        return Refused(UseGaitBoundary);
      }
      if dir.chain.Garbled? {
        TurnedAway(world, before, q);
        return Refused(ChainUnreadable);
      }
      var chain := if dir.chain.Holds? then dir.chain.value else Chain([], "");
      if dir.index.Garbled? {
        TurnedAway(world, before, q);
        return Refused(IndexUnreadable);
      }
      var index := new Dedupe.Index(world.ttl, world.maxSize);
      if dir.index.Holds? {
        index.entries := dir.index.value;
      }
      if q.dedupeKey != "" {
        var seen := index.Seen(q.dedupeKey, q.now);
        var present := HasKey(chain, q.dedupeKey);
        if seen || present {
          out := ReuseKnown(q, chain);
          assert (dir.Contents(), out) == AppendSpec(world, before, q, marked);
          return;
        }
      }
      out := AppendNew(q, chain, index);
    }

    /** The rest of the append once the record is known to be new. */
    method AppendNew(q: Request, chain: Chain, index: Dedupe.Index) returns (out: Outcome)
      requires !world.readOnly && !dir.chain.Garbled? && !dir.index.Garbled? && !Blank(q.record.recordID)
      requires IsGaitLifecycle(q.record) ==> q.allowGait
      requires q.dedupeKey != "" ==>
               !Dedupe.Live(IndexOf(dir.Contents()), q.dedupeKey, q.now) && !ChainHasKey(world, chain, q.dedupeKey)
      requires chain == ChainOf(dir.Contents()) && index.entries == Snapshot(dir.Contents(), q)
      requires index.ttl == Ttl(world) && index.maxSize == MaxSize(world)
      modifies dir, index
      ensures AppendStep(world, old(dir.Contents()), q, dir.Contents(), out)
    {
      hide IsGaitLifecycle, Blank, ChainHasKey, Dedupe.Evicted;
      ghost var before := dir.Contents();
      var entries := index.entries;
      var sealed := Sealed(world, chain, q.record);
      if sealed.None? {
        TurnedAway(world, before, q);
        return Refused(SignFailed);
      }
      if !world.schemaValid(sealed.value) {
        TurnedAway(world, before, q);
        return Refused(SchemaInvalid);
      }
      if !world.linkable(chain, sealed.value) {
        TurnedAway(world, before, q);
        return Refused(LinkFailed);
      }
      if q.dedupeKey != "" {
        index.Mark(q.dedupeKey, q.now);
      }
      assert MarkResult(world, before, q, index.entries);
      out := CommitNew(q, chain, sealed.value, entries, index.entries);
      assert (dir.Contents(), out) == AppendSpec(world, before, q, index.entries);
    }

    /** The ordinary boundary: lifecycle aggregates are turned away. */
    method Append(record: Record, dedupeKey: string, now: int, fates: Fates) returns (out: Outcome)
      modifies dir
      ensures IsGaitLifecycle(record) ==> dir.Contents() == old(dir.Contents()) && out == Refused(UseGaitBoundary)
      ensures !IsGaitLifecycle(record) ==>
                AppendStep(world, old(dir.Contents()), Request(record, dedupeKey, false, false, now, fates),
                           dir.Contents(), out)
    {
      if IsGaitLifecycle(record) {
        return Refused(UseGaitBoundary);
      }
      out := AppendRecord(Request(record, dedupeKey, false, false, now, fates));
    }

    /** The boundary for lifecycle aggregates: the receipt must verify before anything else. */
    method AppendVerifiedLifecycle(record: Record, dedupeKey: string, register: bool, now: int, fates: Fates)
      returns (out: Outcome)
      modifies dir
      ensures !(IsGaitLifecycle(record) && VerifyReceipt(world.crypto, record, world.key.public).Ok?) ==>
                dir.Contents() == old(dir.Contents()) && out.Refused?
      ensures IsGaitLifecycle(record) && VerifyReceipt(world.crypto, record, world.key.public).Ok? ==>
                AppendStep(world, old(dir.Contents()), Request(record, dedupeKey, true, register, now, fates),
                           dir.Contents(), out)
    {
      if !IsGaitLifecycle(record) {
        return Refused(NotGaitLifecycle);
      }
      var receipt := VerifyReceipt(world.crypto, record, world.key.public);
      if receipt.Err? {
        return Refused(BadReceipt(receipt.error));
      }
      out := AppendRecord(Request(record, dedupeKey, true, register, now, fates));
    }
  }
}
