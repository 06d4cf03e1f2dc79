/** When an append costs the index its soundness, told from the state before it, and what a stranded
    entry does to the retries that follow. */
module StoreCache {
  import opened Prelude
  import opened Text
  import opened Receipts
  import opened Disk
  import opened Registry
  import opened Store
  import opened StoreInvariants
  import opened StoreRuns
  import Dedupe

  /** The registration of a new record fails, the chain is restored, and the index is not. */
  ghost predicate RollbackStrands(w: World, f: Files, q: Request) {
    && Admit(w, f, q).New? && q.register
    && q.fates.chain.Lands? && q.fates.index.Lands?
    && RegisterSpec(w.crypto, f.registry, Admit(w, f, q).sealed, w.key.public, q.fates.registry).1.NotRegistered?
    && q.fates.undoChain.Lands? && !q.fates.undoIndex.Lands?
  }

  /** Fewer live entries of other keys were seen at this very moment or later than the index may hold. */
  ghost predicate KeyHeld(w: World, f: Files, q: Request) {
    |Dedupe.Rivals(Snapshot(f, q), q.dedupeKey, q.now)| < MaxSize(w)
  }

  lemma StrandedSplit(w: World, f: Files, q: Request, f': Files)
    ensures Stranded(w, f, q, f') <==> RollbackStrands(w, f, q) && q.dedupeKey in IndexOf(f')
  {
    hide Admit, RegisterSpec;
  }

  /** After a stranding rollback the index is the marked one. */
  lemma StrandedIndex(w: World, f: Files, q: Request, marked: Dedupe.Entries)
    requires RollbackStrands(w, f, q)
    ensures IndexOf(AppendSpec(w, f, q, marked).0) == marked
  {
    hide Admit, RegisterSpec, Snapshot;
  }

  lemma StepMarks(w: World, f: Files, q: Request, f': Files, out: Outcome) returns (marked: Dedupe.Entries)
    requires AppendStep(w, f, q, f', out) && Admit(w, f, q).New?
    ensures MarkResult(w, f, q, marked) && (f', out) == AppendSpec(w, f, q, marked)
  {
    hide Admit, AppendSpec, MarkResult;
    marked :| (Admit(w, f, q).New? ==> MarkResult(w, f, q, marked)) && (f', out) == AppendSpec(w, f, q, marked);
  }

  lemma MarkedStep(w: World, f: Files, q: Request, marked: Dedupe.Entries)
    requires Admit(w, f, q).New? ==> MarkResult(w, f, q, marked)
    ensures AppendStep(w, f, q, AppendSpec(w, f, q, marked).0, AppendSpec(w, f, q, marked).1)
  {
    hide Admit, AppendSpec, MarkResult;
    var (f', out) := AppendSpec(w, f, q, marked);
    assert (f', out) == AppendSpec(w, f, q, marked);
  }

  lemma SomeMark(w: World, f: Files, q: Request)
    ensures exists marked :: MarkResult(w, f, q, marked)
  {
    if q.dedupeKey == "" {
      assert MarkResult(w, f, q, IndexOf(f));
    } else {
      var live := Dedupe.Marked(Snapshot(f, q), q.dedupeKey, q.now, Ttl(w));
      Dedupe.EvictionExists(live, MaxSize(w));
      var marked :| Dedupe.Evicted(live, MaxSize(w), marked);
      assert MarkResult(w, f, q, marked);
    }
  }

  lemma KeySurvives(w: World, f: Files, q: Request, marked: Dedupe.Entries)
    requires MarkResult(w, f, q, marked) && q.dedupeKey != "" && KeyHeld(w, f, q)
    ensures q.dedupeKey in marked && marked[q.dedupeKey].expiresAt == q.now + Ttl(w)
  {
    Dedupe.MarkSurvives(Snapshot(f, q), q.dedupeKey, q.now, Ttl(w), MaxSize(w), marked);
  }

  lemma KeyMayGo(w: World, f: Files, q: Request)
    requires q.dedupeKey != "" && !KeyHeld(w, f, q)
    ensures exists marked :: MarkResult(w, f, q, marked) && q.dedupeKey !in marked
  {
    Dedupe.MarkMayGo(Snapshot(f, q), q.dedupeKey, q.now, Ttl(w), MaxSize(w));
    var marked :| Dedupe.Evicted(Dedupe.Marked(Snapshot(f, q), q.dedupeKey, q.now, Ttl(w)), MaxSize(w), marked) &&
        q.dedupeKey !in marked;
    assert MarkResult(w, f, q, marked);
  }

  /** Main result. Unless the index is full of entries as recent as the new one, whether an append
      keeps it sound is settled beforehand: it does not exactly when a rollback is stranded. */
  lemma CacheSoundnessDecided(w: World, f: Files, q: Request, f': Files, out: Outcome)
    requires AppendStep(w, f, q, f', out) && Canonical(w, q) && IndexSound(w, f) && KeyHeld(w, f, q)
    ensures IndexSound(w, f') <==> !RollbackStrands(w, f, q)
  {
    hide *;
    CacheStaysSound(w, f, q, f', out);
    StrandedSplit(w, f, q, f');
    CanonicalNotEmpty(w, q);
    if RollbackStrands(w, f, q) {
      StrandsNew(w, f, q);
      var marked := StepMarks(w, f, q, f', out);
      StrandedIndex(w, f, q, marked);
      KeySurvives(w, f, q, marked);
    }
  }

  lemma StrandsNew(w: World, f: Files, q: Request)
    requires RollbackStrands(w, f, q)
    ensures Admit(w, f, q).New?
  {
    hide Admit, RegisterSpec;
  }

  /** Main result. The index is unsound after every outcome of an append, however equally old entries
      are evicted, if and only if a rollback is stranded and the key is held. */
  lemma CacheLostIff(w: World, f: Files, q: Request)
    requires Canonical(w, q) && IndexSound(w, f)
    ensures (forall f', out :: AppendStep(w, f, q, f', out) ==> !IndexSound(w, f')) <==>
            RollbackStrands(w, f, q) && KeyHeld(w, f, q)
  {
    hide *;
    CanonicalNotEmpty(w, q);
    if RollbackStrands(w, f, q) && KeyHeld(w, f, q) {
      forall f', out | AppendStep(w, f, q, f', out) ensures !IndexSound(w, f') {
        CacheSoundnessDecided(w, f, q, f', out);
      }
    } else {
      var marked: Dedupe.Entries;
      if RollbackStrands(w, f, q) {
        KeyMayGo(w, f, q);
        marked :| MarkResult(w, f, q, marked) && q.dedupeKey !in marked;
        StrandedIndex(w, f, q, marked);
      } else {
        SomeMark(w, f, q);
        marked :| MarkResult(w, f, q, marked);
      }
      MarkedStep(w, f, q, marked);
      var (f', out) := AppendSpec(w, f, q, marked);
      CacheStaysSound(w, f, q, f', out);
      StrandedSplit(w, f, q, f');
    }
  }

  // ----- Retries -----

  /** A retry of a lifecycle record whose key the index holds and the chain does not is refused, and
      changes nothing. */
  lemma RetryRefused(w: World, f: Files, q: Request, f': Files, out: Outcome)
    requires AppendStep(w, f, q, f', out) && Ingested(w, q) && q.register
    requires Dedupe.Live(IndexOf(f), q.dedupeKey, q.now) && !ChainHasKey(w, ChainOf(f), q.dedupeKey)
    requires IdsNameKeys(w, ChainOf(f).records + [q.record])
    ensures f' == f && out.Refused?
    ensures !Admit(w, f, q).Turned? ==> out == Refused(MissingFromChain)
  {
    CanonicalNotEmpty(w, q);
    NotNew(w, f, q);
    NoSuchId(w, f, q);
    hide Admit, Ingested, IdsNameKeys, ChainHasKey, RegisterSpec, KeyOf, Dedupe.Live;
  }

  lemma NotNew(w: World, f: Files, q: Request)
    requires q.dedupeKey != "" && Dedupe.Live(IndexOf(f), q.dedupeKey, q.now)
    ensures !Admit(w, f, q).New?
  {
    hide IsGaitLifecycle, Blank, ChainHasKey, Sealed, Dedupe.Live;
  }

  lemma NoSuchId(w: World, f: Files, q: Request)
    requires Ingested(w, q) && !ChainHasKey(w, ChainOf(f), q.dedupeKey) &&
             IdsNameKeys(w, ChainOf(f).records + [q.record])
    ensures FirstWithId(ChainOf(f).records, q.record.recordID).None?
  {
    assert Canonical(w, q);
    hide Ingested, KeyOf, ChainOf;
    var all := ChainOf(f).records + [q.record];
    assert q.record in all;
    forall s | s in ChainOf(f).records ensures s.recordID != q.record.recordID {
      var i :| 0 <= i < |ChainOf(f).records| && ChainOf(f).records[i] == s;
      assert s in all;
    }
  }

  /** Another key's append does not put a missing key into the chain. */
  lemma MissingStays(w: World, f: Files, q: Request, f': Files, out: Outcome, key: string)
    requires AppendStep(w, f, q, f', out) && Canonical(w, q) && q.dedupeKey != key && !ChainHasKey(w, ChainOf(f), key)
    ensures !ChainHasKey(w, ChainOf(f'), key)
  {
    hide AppendStep, KeyOf, ChainHasKey, Admit;
    ChainCases(w, f, q, f', out);
    if ChainOf(f') != ChainOf(f) {
      SealedKeepsRecord(w, f, q);
      HasKeyGrows(w, ChainOf(f), Admit(w, f, q).sealed, key);
    }
  }

  /** Ingest `j` is not for this key, or it is a retry while the index holds the key. */
  ghost predicate OnlyRetries(qs: seq<Request>, fs: seq<Files>, key: string, j: int)
    requires 0 <= j < |qs| && |fs| == |qs| + 1
  {
    qs[j].dedupeKey == key ==> qs[j].register && Dedupe.Live(IndexOf(fs[j]), key, qs[j].now)
  }

  /** Ingest `j` is not for this key, or it was refused without effect. */
  ghost predicate RefusedAt(qs: seq<Request>, fs: seq<Files>, outs: seq<Outcome>, key: string, j: int)
    requires 0 <= j < |qs| == |outs| && |fs| == |qs| + 1
  {
    qs[j].dedupeKey == key ==> outs[j].Refused? && fs[j + 1] == fs[j]
  }

  lemma RetryStep(w: World, qs: seq<Request>, fs: seq<Files>, outs: seq<Outcome>, j: nat, key: string)
    requires Run(w, qs, fs, outs) && j < |qs| == |outs| && |fs| == |qs| + 1
    requires OnlyRetries(qs, fs, key, j) && !ChainHasKey(w, ChainOf(fs[j]), key)
    ensures RefusedAt(qs, fs, outs, key, j) && !ChainHasKey(w, ChainOf(fs[j + 1]), key)
  {
    hide Run, AppendStep, Ingested, RequestsNameKeys, Invariant, FromRequests, ChainOf, IdsNameKeys, ChainHasKey,
        Canonical, Dedupe.Live;
    RunStep(w, qs, fs, outs, j);
    ReachableInvariant(w, qs, fs, outs, j);
    RequestIds(w, qs, ChainOf(fs[j]), j);
    Ingests(w, qs[j]);
    if qs[j].dedupeKey == key {
      RetryRefused(w, fs[j], qs[j], fs[j + 1], outs[j]);
    } else {
      MissingStays(w, fs[j], qs[j], fs[j + 1], outs[j], key);
    }
  }

  /** Main result. Once the index holds a key that the chain does not, every retry is refused without
      effect for as long as the index holds it, whatever other ingests come in between. */
  lemma {:induction false} RetriesRefused(w: World, qs: seq<Request>, fs: seq<Files>, outs: seq<Outcome>, i: nat,
                                          n: nat, key: string)
    requires Run(w, qs, fs, outs) && i <= n <= |qs| == |outs| && |fs| == |qs| + 1
    requires !ChainHasKey(w, ChainOf(fs[i]), key) && forall j :: i <= j < n ==> OnlyRetries(qs, fs, key, j)
    ensures !ChainHasKey(w, ChainOf(fs[n]), key) && forall j :: i <= j < n ==> RefusedAt(qs, fs, outs, key, j)
    decreases n - i
  {
    hide *;
    if i < n {
      RetriesRefused(w, qs, fs, outs, i, n - 1, key);
      RetryStep(w, qs, fs, outs, n - 1, key);
    }
  }

  /** The failing family: when a rollback is stranded and the key is held, the record is nowhere in the
      chain, and its retry is refused at any moment before the entry expires. */
  lemma StrandedBlocksRetry(w: World, f: Files, q: Request, f': Files, out: Outcome, retry: Request, f2: Files,
                            out2: Outcome)
    requires AppendStep(w, f, q, f', out) && Ingested(w, q) && IndexSound(w, f) &&
             IdsNameKeys(w, ChainOf(f).records + [q.record])
    requires RollbackStrands(w, f, q) && KeyHeld(w, f, q)
    requires AppendStep(w, f', retry, f2, out2)
    requires retry == q.(now := retry.now, fates := retry.fates) && q.now <= retry.now < q.now + Ttl(w)
    ensures !IndexSound(w, f') && !ChainHasKey(w, ChainOf(f'), q.dedupeKey)
    ensures f2 == f' && out2 == Refused(MissingFromChain)
  {
    hide *;
    Ingests(w, q);
    CanonicalNotEmpty(w, q);
    CacheSoundnessDecided(w, f, q, f', out);
    StrandsNew(w, f, q);
    var marked := StepMarks(w, f, q, f', out);
    StrandedFiles(w, f, q, marked);
    KeySurvives(w, f, q, marked);
    SealedKeepsRecord(w, f, q);
    RetryLive(w, f', q, retry);
    RetryRefused(w, f', retry, f2, out2);
    RetryKnown(w, f, q, f', retry);
  }

  lemma StrandedFiles(w: World, f: Files, q: Request, marked: Dedupe.Entries)
    requires RollbackStrands(w, f, q)
    ensures var f' := AppendSpec(w, f, q, marked).0;
            ChainOf(f') == ChainOf(f) && f'.chain.Holds? && f'.index == Holds(marked) && q.register
  {
    hide Admit, RegisterSpec, Snapshot;
  }

  lemma RetryLive(w: World, f': Files, q: Request, retry: Request)
    requires f'.index.Holds? && q.dedupeKey in f'.index.value && f'.index.value[q.dedupeKey].expiresAt == q.now + Ttl(w)
    requires retry == q.(now := retry.now, fates := retry.fates) && retry.now < q.now + Ttl(w) && Ingested(w, q)
    ensures Dedupe.Live(IndexOf(f'), retry.dedupeKey, retry.now) && Ingested(w, retry)
    ensures retry.record == q.record && retry.dedupeKey == q.dedupeKey && retry.register == q.register
  {
    hide IsGaitLifecycle, VerifyReceipt, KeyOf;
  }

  lemma RetryKnown(w: World, f: Files, q: Request, f': Files, retry: Request)
    requires Admit(w, f, q).New? && q.dedupeKey != ""
    requires retry == q.(now := retry.now, fates := retry.fates)
    requires f'.chain.Holds? && f'.index.Holds? && Dedupe.Live(IndexOf(f'), q.dedupeKey, retry.now)
    ensures Admit(w, f', retry).Known?
  {
    hide ChainHasKey, IsGaitLifecycle, Blank, Sealed;
  }
}
