/** What every append keeps, what a failed one leaves behind, and what a crash can break. */
module StoreInvariants {
  import opened Prelude
  import opened Text
  import opened Receipts
  import opened Disk
  import opened Registry
  import opened Store
  import Dedupe

  /** The key the caller passes is the one `BuildKey` gives the record. */
  ghost predicate Canonical(w: World, q: Request) {
    KeyOf(w, q.record) == Some(q.dedupeKey)
  }

  // ----- The chain after an append is the old one, or the old one and the new record -----

  ghost predicate Grew(w: World, f: Files, q: Request, f': Files) {
    Admit(w, f, q).New? && ChainOf(f') == Extended(ChainOf(f), Admit(w, f, q).sealed)
  }

  /** The rollback began: the chain write landed and a later step failed without a crash. */
  ghost predicate RollbackRan(q: Request, out: Outcome) {
    q.fates.chain.Lands? && out.Refused? && (out.error.IndexWriteFailed? || out.error.RegistrationFailed?)
  }

  lemma ChainCases(w: World, f: Files, q: Request, f': Files, out: Outcome)
    requires AppendStep(w, f, q, f', out)
    ensures ChainOf(f') == ChainOf(f) || Grew(w, f, q, f')
    ensures out.Appended? ==> Grew(w, f, q, f')
    ensures out.Deduped? ==> f' == f.(registry := f'.registry)
    ensures !Admit(w, f, q).New? ==> f' == f.(registry := f'.registry)
    ensures out.Refused? && q.fates.undoChain.Lands? ==> ChainOf(f') == ChainOf(f)
    ensures out.Refused? ==> f'.registry == f.registry
    ensures out.Refused? && ChainOf(f') != ChainOf(f) ==> RollbackRan(q, out) && !q.fates.undoChain.Lands?
  {
    hide ChainHasKey, IsGaitLifecycle, Blank, VerifiedEntry, MarkResult;
    var marked :| (Admit(w, f, q).New? ==> MarkResult(w, f, q, marked)) && (f', out) == AppendSpec(w, f, q, marked);
  }

  lemma SealedKeepsRecord(w: World, f: Files, q: Request)
    requires Admit(w, f, q).New?
    ensures var sealed := Admit(w, f, q).sealed;
            && sealed == q.record.(integrity := sealed.integrity)
            && sealed.integrity.previousRecordHash == ChainOf(f).headHash
            && KeyOf(w, sealed) == KeyOf(w, q.record)
            && (q.dedupeKey != "" ==> !ChainHasKey(w, ChainOf(f), q.dedupeKey))
            && !Blank(q.record.recordID) && (IsGaitLifecycle(q.record) ==> q.allowGait)
            && (IsGaitLifecycle(sealed) <==> IsGaitLifecycle(q.record))
  {
    hide ChainHasKey, Blank, StringValue;
  }

  // ----- No two chain records share a key -----

  ghost predicate KeysDistinct(w: World, chain: Chain) {
    forall i, j :: 0 <= i < j < |chain.records| && KeyOf(w, chain.records[i]).Some? ==>
      KeyOf(w, chain.records[i]) != KeyOf(w, chain.records[j])
  }

  /** Main result. Whatever the index holds, and wherever a crash falls, the chain never gains a
      second record with an existing key. */
  lemma AppendKeepsKeysDistinct(w: World, f: Files, q: Request, f': Files, out: Outcome)
    requires AppendStep(w, f, q, f', out) && Canonical(w, q) && KeysDistinct(w, ChainOf(f))
    ensures KeysDistinct(w, ChainOf(f'))
  {
    ChainCases(w, f, q, f', out);
    hide AppendStep, Admit;
    if ChainOf(f') != ChainOf(f) {
      SealedKeepsRecord(w, f, q);
      hide KeyOf;
      KeyNotEmpty(w, q.record);
      var old', new' := ChainOf(f).records, ChainOf(f').records;
      forall i, j | 0 <= i < j < |new'| && KeyOf(w, new'[i]).Some? ensures KeyOf(w, new'[i]) != KeyOf(w, new'[j]) {
        assert new'[i] == old'[i];
        if j < |old'| { assert new'[j] == old'[j]; }
      }
    }
  }

  lemma KeyNotEmpty(w: World, r: Record)
    ensures KeyOf(w, r).Some? ==> KeyOf(w, r).value != ""
  {
    if KeyOf(w, r).Some? {
      assert |KeyOf(w, r).value| >= |"|sha256:"|;
    }
  }

  // ----- The chain stays linked -----

  /** The hash a record at position `i` must link back to. */
  function HashBefore(records: seq<Record>, i: nat): string
    requires i <= |records|
  {
    if i == 0 then "" else records[i - 1].integrity.recordHash
  }

  ghost predicate LinkedChain(chain: Chain) {
    && chain.headHash == HashBefore(chain.records, |chain.records|)
    && forall i :: 0 <= i < |chain.records| ==>
       chain.records[i].integrity.previousRecordHash == HashBefore(chain.records, i)
  }

  lemma AppendKeepsLinked(w: World, f: Files, q: Request, f': Files, out: Outcome)
    requires AppendStep(w, f, q, f', out) && LinkedChain(ChainOf(f))
    ensures LinkedChain(ChainOf(f'))
  {
    ChainCases(w, f, q, f', out);
    hide AppendStep, Admit;
    if ChainOf(f') != ChainOf(f) {
      SealedKeepsRecord(w, f, q);
      ExtendLinked(ChainOf(f), Admit(w, f, q).sealed);
    }
  }

  lemma ExtendLinked(chain: Chain, r: Record)
    requires LinkedChain(chain) && r.integrity.previousRecordHash == chain.headHash
    ensures LinkedChain(Extended(chain, r))
  {
    var before, after := chain.records, Extended(chain, r).records;
    forall i | 0 <= i < |after| ensures after[i].integrity.previousRecordHash == HashBefore(after, i) {
      assert HashBefore(after, i) == HashBefore(before, i);
      if i < |before| { assert after[i] == before[i]; }
    }
  }

  // ----- The index is a pure cache -----

  ghost predicate IndexSound(w: World, f: Files) {
    forall k :: k in IndexOf(f) ==> ChainHasKey(w, ChainOf(f), k)
  }

  /** The one way to break it: registration failed, the chain was restored, the index was not, and
      the index still names the record that is gone. */
  ghost predicate Stranded(w: World, f: Files, q: Request, f': Files) {
    && Admit(w, f, q).New? && q.register
    && q.fates.chain.Lands? && q.fates.index.Lands?
    && RegisterSpec(w.crypto, f.registry, Admit(w, f, q).sealed, w.key.public, q.fates.registry).1.NotRegistered?
    && q.fates.undoChain.Lands? && !q.fates.undoIndex.Lands?
    && q.dedupeKey in IndexOf(f')
  }

  lemma IndexCases(w: World, f: Files, q: Request, f': Files, out: Outcome)
    requires AppendStep(w, f, q, f', out) && q.dedupeKey != ""
    ensures IndexOf(f').Keys <= IndexOf(f).Keys + {q.dedupeKey}
    ensures q.dedupeKey in IndexOf(f') && q.dedupeKey !in IndexOf(f) ==> Grew(w, f, q, f') || Stranded(w, f, q, f')
    ensures Stranded(w, f, q, f') ==> ChainOf(f') == ChainOf(f)
  {
    hide AppendSpec, MarkResult;
    var marked :| (Admit(w, f, q).New? ==> MarkResult(w, f, q, marked)) && (f', out) == AppendSpec(w, f, q, marked);
    SpecIndex(w, f, q, marked);
    hide Admit;
    if Admit(w, f, q).New? {
      MarkedKeys(w, f, q, marked);
    }
  }

  lemma SpecIndex(w: World, f: Files, q: Request, marked: Dedupe.Entries)
    ensures var f' := AppendSpec(w, f, q, marked).0;
            && (IndexOf(f') == IndexOf(f) ||
                (IndexOf(f') == Snapshot(f, q) || (Admit(w, f, q).New? && IndexOf(f') == marked)))
            && (IndexOf(f') == IndexOf(f) || IndexOf(f') == Snapshot(f, q) || Grew(w, f, q, f') ||
                Stranded(w, f, q, f') || q.dedupeKey !in IndexOf(f'))
            && (Stranded(w, f, q, f') ==> ChainOf(f') == ChainOf(f))
  {
    hide Admit, RegisterSpec, Snapshot;
  }

  lemma MarkedKeys(w: World, f: Files, q: Request, marked: Dedupe.Entries)
    requires MarkResult(w, f, q, marked) && q.dedupeKey != ""
    ensures marked.Keys <= IndexOf(f).Keys + {q.dedupeKey}
  {
    Dedupe.MarkBounds(Snapshot(f, q), q.dedupeKey, q.now, Ttl(w), MaxSize(w), marked);
  }

  lemma HasKeyGrows(w: World, chain: Chain, r: Record, k: string)
    ensures ChainHasKey(w, Extended(chain, r), k) <==> ChainHasKey(w, chain, k) || KeyOf(w, r) == Some(k)
  {
    hide KeyOf;
    var rs := Extended(chain, r).records;
    if i :| 0 <= i < |chain.records| && KeyOf(w, chain.records[i]) == Some(k) {
      assert rs[i] == chain.records[i];
    }
    if KeyOf(w, r) == Some(k) {
      assert rs[|chain.records|] == r;
    }
  }

  /** Main result. Every index entry keeps naming a chain record, across expiry, eviction, reload,
      failures and crashes, if and only if no rollback was left stranded. */
  lemma CacheStaysSound(w: World, f: Files, q: Request, f': Files, out: Outcome)
    requires AppendStep(w, f, q, f', out) && Canonical(w, q) && IndexSound(w, f)
    ensures IndexSound(w, f') <==> !Stranded(w, f, q, f')
  {
    KeyNotEmpty(w, q.record);
    ChainCases(w, f, q, f', out);
    IndexCases(w, f, q, f', out);
    hide AppendStep, KeyOf;
    if Admit(w, f, q).New? {
      SealedKeepsRecord(w, f, q);
      hide Admit;
      HasKeys(w, f, q, f');
    }
  }

  lemma HasKeys(w: World, f: Files, q: Request, f': Files)
    requires Admit(w, f, q).New? && (ChainOf(f') == ChainOf(f) || Grew(w, f, q, f'))
    requires KeyOf(w, Admit(w, f, q).sealed) == Some(q.dedupeKey)
    ensures forall k :: ChainHasKey(w, ChainOf(f), k) ==> ChainHasKey(w, ChainOf(f'), k)
    ensures Grew(w, f, q, f') ==> ChainHasKey(w, ChainOf(f'), q.dedupeKey)
  {
    hide Admit, KeyOf, ChainHasKey;
    forall k ensures ChainHasKey(w, ChainOf(f), k) ==> ChainHasKey(w, ChainOf(f'), k) {
      HasKeyGrows(w, ChainOf(f), Admit(w, f, q).sealed, k);
    }
    HasKeyGrows(w, ChainOf(f), Admit(w, f, q).sealed, q.dedupeKey);
  }

  /** With a sound index the lookup answers exactly what a scan of the chain answers. */
  lemma LookupIsScan(w: World, f: Files, key: string, now: int)
    requires IndexSound(w, f)
    ensures Dedupe.Live(IndexOf(f), key, now) || ChainHasKey(w, ChainOf(f), key) <==> ChainHasKey(w, ChainOf(f), key)
  {
  }

  /** Refinement: with a sound index an append does to chain and registry, and answers, exactly
      what it would without any index. */
  lemma IndexOnlySpeedsUp(w: World, f: Files, q: Request, marked: Dedupe.Entries, other: Dedupe.Entries)
    requires IndexSound(w, f) && !f.index.Garbled?
    ensures var (f1, out1) := AppendSpec(w, f, q, marked);
            var (f2, out2) := AppendSpec(w, f.(index := Absent), q, other);
            f1.chain == f2.chain && f1.registry == f2.registry && out1 == out2
  {
    var bare := f.(index := Absent);
    AdmitWithoutIndex(w, f, q);
    assert Reuse(w, f, q).1 == Reuse(w, bare, q).1 && Reuse(w, f, q).0.registry == Reuse(w, bare, q).0.registry by {
      hide RegisterSpec;
    }
    hide Admit, Reuse, Commit;
    if Admit(w, f, q).New? {
      CommitWithoutIndex(w, f, q, Admit(w, f, q).sealed, marked, other);
    }
  }

  lemma AdmitWithoutIndex(w: World, f: Files, q: Request)
    requires IndexSound(w, f) && !f.index.Garbled?
    ensures Admit(w, f.(index := Absent), q) == Admit(w, f, q)
  {
    hide IsGaitLifecycle, Blank, Sealed, ChainHasKey;
    var bare := f.(index := Absent);
    LookupIsScan(w, f, q.dedupeKey, q.now);
    assert ChainOf(bare) == ChainOf(f);
  }

  lemma CommitWithoutIndex(w: World, f: Files, q: Request, sealed: Record, marked: Dedupe.Entries,
                           other: Dedupe.Entries)
    ensures var (f1, out1) := Commit(w, f, q, sealed, marked);
            var (f2, out2) := Commit(w, f.(index := Absent), q, sealed, other);
            f1.chain == f2.chain && f1.registry == f2.registry && out1 == out2
  {
    hide RegisterSpec, Snapshot;
    assert ChainOf(f.(index := Absent)) == ChainOf(f);
  }

  // ----- Failed appends leave no trace -----

  /** When an append returns an error and its rollback writes complete, the stored chain and
      registry are the prior ones, and the index is the prior one up to expired entries. */
  lemma FailureLeavesNoTrace(w: World, f: Files, q: Request, f': Files, out: Outcome)
    requires AppendStep(w, f, q, f', out) && out.Refused?
    requires q.fates.undoChain.Lands? && q.fates.undoIndex.Lands?
    ensures ChainOf(f') == ChainOf(f) && f'.registry == f.registry
    ensures IndexOf(f') == IndexOf(f) || IndexOf(f') == Dedupe.Purged(IndexOf(f), q.now)
  {
    hide ChainHasKey, IsGaitLifecycle, Blank, VerifiedEntry, MarkResult;
    var marked :| (Admit(w, f, q).New? ==> MarkResult(w, f, q, marked)) && (f', out) == AppendSpec(w, f, q, marked);
  }

  // ----- Provenance of lifecycle records -----

  /** A request as the verified ingest issues it: canonical key, lifecycle records with a valid
      receipt through their own boundary and with the registration callback, others without. */
  ghost predicate Ingested(w: World, q: Request) {
    && Canonical(w, q)
    && (q.allowGait <==> IsGaitLifecycle(q.record)) && (q.register <==> IsGaitLifecycle(q.record))
    && (IsGaitLifecycle(q.record) ==> VerifyReceipt(w.crypto, q.record, w.key.public).Ok?)
  }

  /** Record ids are determined by content: among these records one id means one key. */
  ghost predicate IdsNameKeys(w: World, records: seq<Record>) {
    forall r, s :: r in records && s in records && r.recordID == s.recordID ==>
        KeyOf(w, r).Some? && KeyOf(w, r) == KeyOf(w, s)
  }

  ghost predicate Receipted(w: World, chain: Chain) {
    forall r :: r in chain.records && IsGaitLifecycle(r) ==> VerifyReceipt(w.crypto, r, w.key.public).Ok?
  }

  ghost predicate Standing(w: World, f: Files, r: Record) {
    IsRegistered(w.crypto, f.registry, r, w.key.public)
  }

  /** The lifecycle records in the chain without an exact registry entry. */
  ghost function Unregistered(w: World, f: Files): set<Record> {
    set r | r in ChainOf(f).records && IsGaitLifecycle(r) && !Standing(w, f, r)
  }

  lemma AppendKeepsReceipts(w: World, f: Files, q: Request, f': Files, out: Outcome)
    requires AppendStep(w, f, q, f', out) && Ingested(w, q) && Receipted(w, ChainOf(f))
    ensures Receipted(w, ChainOf(f'))
  {
    ChainCases(w, f, q, f', out);
    hide AppendStep, Admit, VerifyReceipt, IsGaitLifecycle, KeyOf;
    if ChainOf(f') != ChainOf(f) {
      SealedKeepsRecord(w, f, q);
      ReceiptIgnoresLinkage(w.crypto, q.record, w.key.public, Admit(w, f, q).sealed.integrity);
    }
  }

  /** One registration, seen from the set of unregistered records. */
  lemma RegistrationEffect(w: World, f: Files, r: Record, fate: Fate, s: Record)
    requires OnePerId(f.registry) && r.recordID != ""
    ensures var (registry, answer) := RegisterSpec(w.crypto, f.registry, r, w.key.public, fate);
            && OnePerId(registry)
            && (s.recordID != r.recordID ==> (Standing(w, f.(registry := registry), s) <==> Standing(w, f, s)))
            && (answer.Registered? ==> Standing(w, f.(registry := registry), r))
            && (!answer.Registered? ==> registry == f.registry)
  {
    var (registry, answer) := RegisterSpec(w.crypto, f.registry, r, w.key.public, fate);
    if s.recordID != r.recordID {
      OthersSurvive(w.crypto, f.registry, r, w.key.public, fate, s);
    } else {
      OthersSurvive(w.crypto, f.registry, r, w.key.public, fate, r.(recordID := r.recordID + "x"));
    }
    if answer.Registered? {
      RegistrationTakes(w.crypto, f.registry, r, w.key.public, fate);
    }
  }

  lemma NonBlankNonEmpty(s: string)
    requires !Blank(s)
    ensures s != ""
  {
  }

  /** In a chain with distinct keys whose ids name keys, an id names one record. */
  lemma IdNamesRecord(w: World, chain: Chain, r: Record, s: Record)
    requires KeysDistinct(w, chain) && IdsNameKeys(w, chain.records)
    requires r in chain.records && s in chain.records && r.recordID == s.recordID
    ensures r == s
  {
    hide KeyOf;
    var i :| 0 <= i < |chain.records| && chain.records[i] == r;
    var j :| 0 <= j < |chain.records| && chain.records[j] == s;
    assert KeyOf(w, r) == KeyOf(w, s);
  }

  /** What a successful repeat leaves unregistered: everything but the record at hand. */
  ghost function AfterReuse(w: World, f: Files, q: Request): set<Record> {
    if q.register then set r | r in Unregistered(w, f) && r.recordID != q.record.recordID else Unregistered(w, f)
  }

  /** A repeated lifecycle record is re-registered in place; nothing else changes standing. */
  lemma ReuseProvenance(w: World, f: Files, q: Request)
    requires Admit(w, f, q).Known? && Ingested(w, q)
    requires OnePerId(f.registry) && KeysDistinct(w, ChainOf(f)) && IdsNameKeys(w, ChainOf(f).records + [q.record])
    ensures var (f', out) := Reuse(w, f, q);
            && OnePerId(f'.registry) && ChainOf(f') == ChainOf(f)
            && (out.Deduped? ==> Unregistered(w, f') == AfterReuse(w, f, q))
            && (!out.Deduped? ==> Unregistered(w, f') == Unregistered(w, f))
  {
    KnownNotBlank(w, f, q);
    assert IdsNameKeys(w, ChainOf(f).records) by {
      assert forall r :: r in ChainOf(f).records ==> r in ChainOf(f).records + [q.record];
    }
    hide Admit, Ingested, Standing, RegisterSpec, IsGaitLifecycle, Blank, OnePerId;
    var found := FirstWithId(ChainOf(f).records, q.record.recordID);
    var f' := Reuse(w, f, q).0;
    NonBlankNonEmpty(q.record.recordID);
    if q.register && found.Some? {
      forall s | s in ChainOf(f).records
        ensures OnePerId(f'.registry)
        ensures s.recordID != q.record.recordID ==> (Standing(w, f', s) <==> Standing(w, f, s))
        ensures s.recordID == q.record.recordID && Reuse(w, f, q).1.Deduped? ==> Standing(w, f', s)
      {
        RegistrationEffect(w, f, found.value, q.fates.registry, s);
        if s.recordID == q.record.recordID {
          IdNamesRecord(w, ChainOf(f), s, found.value);
        }
      }
      RegistrationEffect(w, f, found.value, q.fates.registry, found.value);
    }
  }

  /** How committing a new record can end, as far as chain and registry are concerned. */
  lemma CommitCases(w: World, f: Files, q: Request, sealed: Record, marked: Dedupe.Entries)
    ensures var (registry, answer) := RegisterSpec(w.crypto, f.registry, sealed, w.key.public, q.fates.registry);
            var (f', out) := Commit(w, f, q, sealed, marked);
            && (ChainOf(f') == ChainOf(f) || ChainOf(f') == Extended(ChainOf(f), sealed))
            && (f'.registry == f.registry || (q.register && answer.Registered? && f'.registry == registry))
            && (out.Appended? && q.register ==> answer.Registered? && f'.registry == registry)
  {
    hide RegisterSpec;
  }

  /** A new record: standing of the old records is untouched, and the new one, if it stays and is
      a lifecycle aggregate, stands unless the process died or the chain could not be restored. */
  lemma CommitProvenance(w: World, f: Files, q: Request, marked: Dedupe.Entries)
    requires Admit(w, f, q).New? && Ingested(w, q)
    requires OnePerId(f.registry) && IdsNameKeys(w, ChainOf(f).records + [q.record])
    ensures var sealed := Admit(w, f, q).sealed;
            var (f', out) := Commit(w, f, q, sealed, marked);
            && OnePerId(f'.registry)
            && (out.Appended? ==> Unregistered(w, f') == Unregistered(w, f))
            && (ChainOf(f') == ChainOf(f) ==> Unregistered(w, f') == Unregistered(w, f))
            && Unregistered(w, f) <= Unregistered(w, f') <= Unregistered(w, f) + {sealed}
  {
    var sealed := Admit(w, f, q).sealed;
    var (f', out) := Commit(w, f, q, sealed, marked);
    CommitCases(w, f, q, sealed, marked);
    SealedKeepsRecord(w, f, q);
    NewIdIsFresh(w, f, q);
    NonBlankNonEmpty(q.record.recordID);
    var (registry, answer) := RegisterSpec(w.crypto, f.registry, sealed, w.key.public, q.fates.registry);
    var g := f.(registry := registry);
    RegistrationEffect(w, f, sealed, q.fates.registry, sealed);
    StandingOnlyRegistry(w, f, f');
    StandingOnlyRegistry(w, g, f');
    hide Admit, Standing, RegisterSpec, IsGaitLifecycle, OnePerId, VerifyReceipt, Commit, KeyOf, IdsNameKeys,
        Unregistered;
    forall s | s in ChainOf(f).records ensures Standing(w, f', s) <==> Standing(w, f, s) {
      RegistrationEffect(w, f, sealed, q.fates.registry, s);
    }
    SameStanding(w, f, f', sealed);
  }

  lemma SameStanding(w: World, f: Files, f': Files, sealed: Record)
    requires ChainOf(f') == ChainOf(f) || ChainOf(f') == Extended(ChainOf(f), sealed)
    requires forall s :: s in ChainOf(f).records ==> (Standing(w, f', s) <==> Standing(w, f, s))
    ensures Unregistered(w, f) <= Unregistered(w, f') <= Unregistered(w, f) + {sealed}
    ensures ChainOf(f') == ChainOf(f) || Standing(w, f', sealed) || !IsGaitLifecycle(sealed) ==>
            Unregistered(w, f') == Unregistered(w, f)
  {
    hide Standing, IsGaitLifecycle;
  }

  lemma StandingOnlyRegistry(w: World, f: Files, g: Files)
    ensures f.registry == g.registry ==> forall s :: Standing(w, f, s) <==> Standing(w, g, s)
  {
  }

  /** A record admitted as new carries an id no chain record has. */
  lemma NewIdIsFresh(w: World, f: Files, q: Request)
    requires Admit(w, f, q).New? && Canonical(w, q) && IdsNameKeys(w, ChainOf(f).records + [q.record])
    ensures forall s :: s in ChainOf(f).records ==> s.recordID != q.record.recordID
  {
    SealedKeepsRecord(w, f, q);
    KeyNotEmpty(w, q.record);
    hide Admit, KeyOf;
    var all := ChainOf(f).records + [q.record];
    forall s | s in ChainOf(f).records ensures s.recordID != q.record.recordID {
      assert s in all && q.record in all;
      var i :| 0 <= i < |ChainOf(f).records| && ChainOf(f).records[i] == s;
    }
  }

  /** Main result. What one ingest does to the set of unregistered lifecycle records: success adds
      none, a repeated record leaves the set, and only a crash or an unrestored chain can add one,
      the record at hand. */
  lemma ProvenanceStep(w: World, f: Files, q: Request, f': Files, out: Outcome)
    requires AppendStep(w, f, q, f', out) && Ingested(w, q)
    requires OnePerId(f.registry) && KeysDistinct(w, ChainOf(f)) && IdsNameKeys(w, ChainOf(f).records + [q.record])
    ensures OnePerId(f'.registry)
    ensures out.Appended? ==> Unregistered(w, f') == Unregistered(w, f)
    ensures out.Deduped? ==> Unregistered(w, f') == AfterReuse(w, f, q)
    ensures !out.Deduped? && ChainOf(f') == ChainOf(f) ==> Unregistered(w, f') == Unregistered(w, f)
    ensures out.Refused? && q.fates.undoChain.Lands? ==> Unregistered(w, f') == Unregistered(w, f)
    ensures out.Refused? || out.Died? ==>
              Unregistered(w, f') <= Unregistered(w, f) + if Admit(w, f, q).New? then {Admit(w, f, q).sealed} else {}
  {
    hide AppendSpec, Admit, Ingested, Unregistered, KeysDistinct, OnePerId, IdsNameKeys, ChainOf, MarkResult;
    ChainCases(w, f, q, f', out);
    var marked :| (Admit(w, f, q).New? ==> MarkResult(w, f, q, marked)) && (f', out) == AppendSpec(w, f, q, marked);
    SpecProvenance(w, f, q, marked);
  }

  lemma SpecProvenance(w: World, f: Files, q: Request, marked: Dedupe.Entries)
    requires Ingested(w, q)
    requires OnePerId(f.registry) && KeysDistinct(w, ChainOf(f)) && IdsNameKeys(w, ChainOf(f).records + [q.record])
    ensures var (f', out) := AppendSpec(w, f, q, marked);
            && OnePerId(f'.registry)
            && (out.Appended? ==> Unregistered(w, f') == Unregistered(w, f))
            && (out.Deduped? ==> Unregistered(w, f') == AfterReuse(w, f, q))
            && (!out.Deduped? && ChainOf(f') == ChainOf(f) ==> Unregistered(w, f') == Unregistered(w, f))
            && (!out.Deduped? ==>
                Unregistered(w, f') <= Unregistered(w, f) + if Admit(w, f, q).New? then {Admit(w, f, q).sealed} else {})
  {
    hide Admit, Ingested, Unregistered, KeysDistinct, OnePerId, IdsNameKeys, ChainOf;
    if Admit(w, f, q).New? {
      assert !Commit(w, f, q, Admit(w, f, q).sealed, marked).1.Deduped?;
      hide Commit;
      CommitProvenance(w, f, q, marked);
    } else if Admit(w, f, q).Known? {
      assert !Reuse(w, f, q).1.Appended?;
      hide Reuse;
      ReuseProvenance(w, f, q);
    }
  }

  lemma KnownNotBlank(w: World, f: Files, q: Request)
    requires Admit(w, f, q).Known?
    ensures !Blank(q.record.recordID)
  {
    hide Blank, IsGaitLifecycle, ChainHasKey;
  }
}
