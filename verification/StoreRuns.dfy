/** Whole histories of a store: any sequence of ingests with any failures and crashes, and the
    recovery that re-ingesting brings. */
module StoreRuns {
  import opened Prelude
  import opened Text
  import opened Receipts
  import opened Disk
  import opened Registry
  import opened Store
  import opened StoreInvariants
  import Dedupe

  /** Record ids are determined by content: requests with the same id have the same key. */
  ghost predicate RequestsNameKeys(w: World, qs: seq<Request>) {
    forall i, j :: 0 <= i < |qs| && 0 <= j < |qs| && qs[i].record.recordID == qs[j].record.recordID ==>
      KeyOf(w, qs[i].record) == KeyOf(w, qs[j].record)
  }

  /** A history from an empty directory. */
  ghost predicate Run(w: World, qs: seq<Request>, fs: seq<Files>, outs: seq<Outcome>) {
    && |fs| == |qs| + 1 && |outs| == |qs|
    && fs[0] == Files(Absent, Absent, Absent)
    && RequestsNameKeys(w, qs)
    && forall i :: 0 <= i < |qs| ==> Ingested(w, qs[i]) && AppendStep(w, fs[i], qs[i], fs[i + 1], outs[i])
  }

  /** Every chain record came from one of the requests. */
  ghost predicate FromRequests(w: World, qs: seq<Request>, chain: Chain) {
    forall r :: r in chain.records ==>
      exists i :: 0 <= i < |qs| && qs[i].record.recordID == r.recordID && KeyOf(w, qs[i].record) == KeyOf(w, r)
  }

  lemma RequestIds(w: World, qs: seq<Request>, chain: Chain, n: nat)
    requires RequestsNameKeys(w, qs) && FromRequests(w, qs, chain) && n < |qs|
    requires forall i :: 0 <= i < |qs| ==> Ingested(w, qs[i])
    ensures IdsNameKeys(w, chain.records + [qs[n].record])
  {
    assert forall i :: 0 <= i < |qs| ==> Canonical(w, qs[i]);
    hide KeyOf, Ingested;
    var all := chain.records + [qs[n].record];
    forall r, s | r in all && s in all && r.recordID == s.recordID
      ensures KeyOf(w, r).Some? && KeyOf(w, r) == KeyOf(w, s)
    {
      var i := RequestOf(w, qs, chain, n, r);
      var j := RequestOf(w, qs, chain, n, s);
      assert Canonical(w, qs[i]);
    }
  }

  lemma RequestOf(w: World, qs: seq<Request>, chain: Chain, n: nat, r: Record) returns (i: nat)
    requires FromRequests(w, qs, chain) && n < |qs| && r in chain.records + [qs[n].record]
    ensures i < |qs| && qs[i].record.recordID == r.recordID && KeyOf(w, qs[i].record) == KeyOf(w, r)
  {
    hide KeyOf;
    if r in chain.records {
      i :| 0 <= i < |qs| && qs[i].record.recordID == r.recordID && KeyOf(w, qs[i].record) == KeyOf(w, r);
    } else {
      i := n;
    }
  }

  lemma GrowthFromRequests(w: World, qs: seq<Request>, f: Files, n: nat, f': Files, out: Outcome)
    requires n < |qs| && AppendStep(w, f, qs[n], f', out) && FromRequests(w, qs, ChainOf(f))
    ensures FromRequests(w, qs, ChainOf(f'))
  {
    ChainCases(w, f, qs[n], f', out);
    hide AppendStep, KeyOf, Admit;
    if ChainOf(f') != ChainOf(f) {
      SealedKeepsRecord(w, f, qs[n]);
    }
  }

  ghost predicate Invariant(w: World, f: Files) {
    KeysDistinct(w, ChainOf(f)) && LinkedChain(ChainOf(f)) && Receipted(w, ChainOf(f)) && OnePerId(f.registry)
  }

  /** How long a run is, and where it starts. */
  lemma RunStart(w: World, qs: seq<Request>, fs: seq<Files>, outs: seq<Outcome>)
    requires Run(w, qs, fs, outs)
    ensures |fs| == |qs| + 1 && |outs| == |qs| && fs[0] == Files(Absent, Absent, Absent)
  {
    hide AppendStep, Ingested, RequestsNameKeys;
  }

  lemma EmptyStore(w: World, qs: seq<Request>, f: Files)
    requires f == Files(Absent, Absent, Absent)
    ensures Invariant(w, f) && FromRequests(w, qs, ChainOf(f)) && IndexSound(w, f) && Unregistered(w, f) == {}
  {
  }

  lemma RunStep(w: World, qs: seq<Request>, fs: seq<Files>, outs: seq<Outcome>, i: nat)
    requires Run(w, qs, fs, outs) && i < |qs|
    ensures AppendStep(w, fs[i], qs[i], fs[i + 1], outs[i]) && Ingested(w, qs[i])
    ensures RequestsNameKeys(w, qs) && forall j :: 0 <= j < |qs| ==> Ingested(w, qs[j])
  {
    hide AppendStep, Ingested, RequestsNameKeys;
  }

  lemma InvariantStep(w: World, f: Files, q: Request, f': Files, out: Outcome)
    requires AppendStep(w, f, q, f', out) && Ingested(w, q) && Invariant(w, f)
    requires IdsNameKeys(w, ChainOf(f).records + [q.record])
    ensures Invariant(w, f')
  {
    assert Canonical(w, q);
    hide AppendStep, Ingested, Canonical, IdsNameKeys, KeysDistinct, LinkedChain, Receipted, OnePerId, ChainOf;
    AppendKeepsKeysDistinct(w, f, q, f', out);
    AppendKeepsLinked(w, f, q, f', out);
    AppendKeepsReceipts(w, f, q, f', out);
    ProvenanceStep(w, f, q, f', out);
  }

  /** Main result. In every reachable state, whatever failed or crashed before: no two records
      share a key, the chain is linked, every lifecycle record carries a valid receipt, and the
      registry holds one entry per id. */
  lemma {:induction false} ReachableInvariant(w: World, qs: seq<Request>, fs: seq<Files>, outs: seq<Outcome>, n: nat)
    requires Run(w, qs, fs, outs) && n <= |qs|
    ensures Invariant(w, fs[n]) && FromRequests(w, qs, ChainOf(fs[n]))
  {
    hide *;
    RunStart(w, qs, fs, outs);
    if n == 0 {
      EmptyStore(w, qs, fs[0]);
    } else {
      ReachableInvariant(w, qs, fs, outs, n - 1);
      RunStep(w, qs, fs, outs, n - 1);
      RequestIds(w, qs, ChainOf(fs[n - 1]), n - 1);
      InvariantStep(w, fs[n - 1], qs[n - 1], fs[n], outs[n - 1]);
      GrowthFromRequests(w, qs, fs[n - 1], n - 1, fs[n], outs[n - 1]);
    }
  }

  /** The index names only chain records as long as no rollback was left stranded. */
  lemma {:induction false} ReachableCacheSound(w: World, qs: seq<Request>, fs: seq<Files>, outs: seq<Outcome>, n: nat)
    requires Run(w, qs, fs, outs) && n <= |qs|
    requires forall i :: 0 <= i < n ==> !Stranded(w, fs[i], qs[i], fs[i + 1])
    ensures IndexSound(w, fs[n])
  {
    hide *;
    RunStart(w, qs, fs, outs);
    if n == 0 {
      EmptyStore(w, qs, fs[0]);
    } else {
      ReachableCacheSound(w, qs, fs, outs, n - 1);
      RunStep(w, qs, fs, outs, n - 1);
      Ingests(w, qs[n - 1]);
      CacheStaysSound(w, fs[n - 1], qs[n - 1], fs[n], outs[n - 1]);
    }
  }

  // ----- Provenance over whole runs -----

  /** An ingest that died, or that failed without its chain being restored. */
  predicate Interrupted(q: Request, out: Outcome) {
    out.Died? || (out.Refused? && !q.fates.undoChain.Lands?)
  }

  /** A later ingest, with registration, of a record of this id that succeeded. */
  ghost predicate Recovered(qs: seq<Request>, outs: seq<Outcome>, id: string, i: int, n: nat)
    requires |outs| == |qs| && 0 <= i < n <= |qs|
  {
    exists j :: i < j < n && qs[j].register && qs[j].record.recordID == id && (outs[j].Appended? || outs[j].Deduped?)
  }

  /** Ingest `i` was interrupted over this record, and no later ingest of its id succeeded. */
  ghost predicate LeftBy(qs: seq<Request>, outs: seq<Outcome>, r: Record, i: int, n: nat)
    requires |outs| == |qs| && n <= |qs|
  {
    && 0 <= i < n && qs[i].register && r == qs[i].record.(integrity := r.integrity)
    && Interrupted(qs[i], outs[i]) && !Recovered(qs, outs, r.recordID, i, n)
  }

  /** One more ingest: an unregistered record was so before and is not recovered by it, or it is the
      one this ingest was interrupted over. */
  lemma OrphanStep(w: World, f: Files, q: Request, f': Files, out: Outcome, r: Record)
    requires AppendStep(w, f, q, f', out) && Ingested(w, q) && Invariant(w, f)
    requires IdsNameKeys(w, ChainOf(f).records + [q.record]) && r in Unregistered(w, f')
    ensures r in Unregistered(w, f) || (Interrupted(q, out) && q.register && r == q.record.(integrity := r.integrity))
    ensures r in Unregistered(w, f) && q.register && q.record.recordID == r.recordID ==> !out.Appended? && !out.Deduped?
  {
    ProvenanceStep(w, f, q, f', out);
    ChainCases(w, f, q, f', out);
    Ingests(w, q);
    OnlyLifecycle(w, f', r);
    hide AppendStep, Ingested, Canonical, IdsNameKeys, Invariant, Unregistered, Admit, IsGaitLifecycle;
    if r in Unregistered(w, f) {
      InChain(w, f, r);
      if out.Appended? { NewIdIsFresh(w, f, q); }
    } else {
      SealedKeepsRecord(w, f, q);
    }
  }

  lemma Ingests(w: World, q: Request)
    requires Ingested(w, q)
    ensures Canonical(w, q) && (q.register <==> IsGaitLifecycle(q.record))
  {
  }

  lemma InChain(w: World, f: Files, r: Record)
    requires r in Unregistered(w, f)
    ensures r in ChainOf(f).records
  {
  }

  lemma RunOrphanStep(w: World, qs: seq<Request>, fs: seq<Files>, outs: seq<Outcome>, m: nat, r: Record)
    requires Run(w, qs, fs, outs) && m < |qs| && r in Unregistered(w, fs[m + 1])
    ensures r in Unregistered(w, fs[m]) || LeftBy(qs, outs, r, m, m + 1)
    ensures r in Unregistered(w, fs[m]) && qs[m].register && qs[m].record.recordID == r.recordID ==>
              !outs[m].Appended? && !outs[m].Deduped?
  {
    hide AppendStep, Ingested, RequestsNameKeys, Invariant, Unregistered, FromRequests, ChainOf, IdsNameKeys, Run,
        Interrupted;
    RunStart(w, qs, fs, outs);
    ReachableInvariant(w, qs, fs, outs, m);
    RunStep(w, qs, fs, outs, m);
    RequestIds(w, qs, ChainOf(fs[m]), m);
    OrphanStep(w, fs[m], qs[m], fs[m + 1], outs[m], r);
  }

  lemma LeftStill(qs: seq<Request>, outs: seq<Outcome>, r: Record, i: int, m: nat)
    requires |outs| == |qs| && m < |qs| && LeftBy(qs, outs, r, i, m)
    requires qs[m].register && qs[m].record.recordID == r.recordID ==> !outs[m].Appended? && !outs[m].Deduped?
    ensures LeftBy(qs, outs, r, i, m + 1)
  {
  }

  /** Main result. Whatever fails or crashes, a lifecycle record in the chain is unregistered only
      because some ingest of it was interrupted and no ingest of its id has succeeded since. */
  lemma {:induction false} OrphansAreInterrupted(w: World, qs: seq<Request>, fs: seq<Files>, outs: seq<Outcome>,
                                                 n: nat, r: Record)
    requires Run(w, qs, fs, outs) && n <= |qs| && r in Unregistered(w, fs[n])
    ensures exists i :: LeftBy(qs, outs, r, i, n)
  {
    hide *;
    RunStart(w, qs, fs, outs);
    if n == 0 {
      EmptyStore(w, qs, fs[0]);
      assert false;
    }
    RunOrphanStep(w, qs, fs, outs, n - 1, r);
    if r in Unregistered(w, fs[n - 1]) {
      OrphansAreInterrupted(w, qs, fs, outs, n - 1, r);
      var i :| LeftBy(qs, outs, r, i, n - 1);
      LeftStill(qs, outs, r, i, n - 1);
    }
  }

  /** Main result. Once every interrupted ingest of a lifecycle record was followed by a successful
      one of the same record, nothing in the chain is unregistered. */
  lemma RetriesRestoreProvenance(w: World, qs: seq<Request>, fs: seq<Files>, outs: seq<Outcome>, n: nat)
    requires Run(w, qs, fs, outs) && n <= |qs|
    requires forall i :: 0 <= i < n && qs[i].register && Interrupted(qs[i], outs[i]) ==>
             Recovered(qs, outs, qs[i].record.recordID, i, n)
    ensures Unregistered(w, fs[n]) == {}
  {
    hide Run, Unregistered, Recovered;
    RunStart(w, qs, fs, outs);
    if r :| r in Unregistered(w, fs[n]) {
      OrphansAreInterrupted(w, qs, fs, outs, n, r);
      assert false;
    }
  }

  /** An instance: without crashes and with working chain restores, every lifecycle record in the
      chain stays registered through all later appends and registrations. */
  lemma ReachableProvenance(w: World, qs: seq<Request>, fs: seq<Files>, outs: seq<Outcome>, n: nat)
    requires Run(w, qs, fs, outs) && n <= |qs|
    requires forall i :: 0 <= i < n ==> !outs[i].Died? && qs[i].fates.undoChain.Lands?
    ensures Unregistered(w, fs[n]) == {}
  {
    hide Unregistered, Run;
    RunStart(w, qs, fs, outs);
    RetriesRestoreProvenance(w, qs, fs, outs, n);
  }

  /** Where nothing is unregistered, the bundle boundary passes the whole chain. */
  lemma BundlePasses(w: World, f: Files)
    requires Unregistered(w, f) == {}
    ensures forall i :: 0 <= i < |ChainOf(f).records| ==>
            Backed(w.crypto, f.registry, ChainOf(f).records[i], w.key.public)
  {
    hide IsRegistered;
    forall i | 0 <= i < |ChainOf(f).records|
      ensures Backed(w.crypto, f.registry, ChainOf(f).records[i], w.key.public)
    {
      var r := ChainOf(f).records[i];
      if LifecycleRecord(r) {
        LifecycleIsGait(r);
        hide IsGaitLifecycle;
        assert r !in Unregistered(w, f);
      }
    }
  }

  lemma LifecycleIsGait(r: Record)
    requires LifecycleRecord(r)
    ensures IsGaitLifecycle(r)
  {
    assert Trim("gait_lifecycle") == "gait_lifecycle";
  }

  // ----- Recovery -----

  /** One crash and one retry, from any state: after a crash anywhere in an ingest, the next successful
      ingest of the same record leaves nothing unregistered that was not so before, and not the record
      itself; if the crash fell after the chain write, that ingest takes the duplicate branch. */
  lemma CrashThenReingest(w: World, f: Files, q: Request, f1: Files, q2: Request, f2: Files, out2: Outcome)
    requires AppendStep(w, f, q, f1, Died) && Ingested(w, q)
    requires AppendStep(w, f1, q2, f2, out2) && Ingested(w, q2) && (out2.Appended? || out2.Deduped?)
    requires q2.record == q.record && q2.dedupeKey == q.dedupeKey
    requires OnePerId(f.registry) && KeysDistinct(w, ChainOf(f)) && IdsNameKeys(w, ChainOf(f).records + [q.record])
    ensures Unregistered(w, f2) <= Unregistered(w, f)
    ensures q.register ==> forall r :: r in Unregistered(w, f2) ==> r.recordID != q.record.recordID
    ensures ChainOf(f1) != ChainOf(f) ==> Admit(w, f1, q2).Known? && out2.Deduped?
  {
    hide *;
    Ingests(w, q);
    Ingests(w, q2);
    CanonicalNotEmpty(w, q);
    ProvenanceStep(w, f, q, f1, Died);
    AppendKeepsKeysDistinct(w, f, q, f1, Died);
    ChainCases(w, f, q, f1, Died);
    CrashKeepsIds(w, f, q, f1);
    ProvenanceStep(w, f1, q2, f2, out2);
    if ChainOf(f1) != ChainOf(f) {
      CrashLanded(w, f, q, f1);
      AdmitsKnown(w, f, q, f1, q2, f2, out2);
    }
    if out2.Deduped? {
      ReuseLeaves(w, f1, q2);
    } else {
      AppendedFresh(w, f1, q2, f2, out2);
    }
  }

  /** A crash that grew the chain left the key there, and only a lifecycle record unregistered. */
  lemma CrashLanded(w: World, f: Files, q: Request, f1: Files)
    requires Grew(w, f, q, f1) && Canonical(w, q)
    ensures ChainHasKey(w, ChainOf(f1), q.dedupeKey)
    ensures var s := Admit(w, f, q).sealed;
            s.recordID == q.record.recordID && (s in Unregistered(w, f1) ==> IsGaitLifecycle(q.record))
  {
    hide Admit, KeyOf, ChainHasKey, IsGaitLifecycle, Unregistered;
    SealedKeepsRecord(w, f, q);
    HasKeys(w, f, q, f1);
    if Admit(w, f, q).sealed in Unregistered(w, f1) {
      OnlyLifecycle(w, f1, Admit(w, f, q).sealed);
    }
  }

  lemma ReuseLeaves(w: World, f: Files, q: Request)
    ensures AfterReuse(w, f, q) <= Unregistered(w, f)
    ensures q.register ==> forall r :: r in AfterReuse(w, f, q) ==> r.recordID != q.record.recordID
  {
    hide Unregistered;
  }

  lemma AppendedFresh(w: World, f: Files, q: Request, f': Files, out: Outcome)
    requires AppendStep(w, f, q, f', out) && out.Appended? && Canonical(w, q)
    requires IdsNameKeys(w, ChainOf(f).records + [q.record])
    ensures forall r :: r in Unregistered(w, f) ==> r.recordID != q.record.recordID
  {
    hide AppendStep, Admit, IdsNameKeys, Canonical;
    ChainCases(w, f, q, f', out);
    NewIdIsFresh(w, f, q);
    forall r | r in Unregistered(w, f) ensures r in ChainOf(f).records {
      InChain(w, f, r);
    }
  }

  lemma OnlyLifecycle(w: World, f: Files, r: Record)
    ensures r in Unregistered(w, f) ==> IsGaitLifecycle(r)
  {
    hide IsGaitLifecycle, Standing;
  }

  lemma CrashKeepsIds(w: World, f: Files, q: Request, f1: Files)
    requires IdsNameKeys(w, ChainOf(f).records + [q.record])
    requires ChainOf(f1) == ChainOf(f) || Grew(w, f, q, f1)
    ensures IdsNameKeys(w, ChainOf(f1).records + [q.record])
  {
    if ChainOf(f1) != ChainOf(f) {
      SealedKeepsRecord(w, f, q);
      hide Admit, KeyOf;
      var before, after := ChainOf(f).records + [q.record], ChainOf(f1).records + [q.record];
      var sealed := Admit(w, f, q).sealed;
      forall r, s | r in after && s in after && r.recordID == s.recordID
        ensures KeyOf(w, r).Some? && KeyOf(w, r) == KeyOf(w, s)
      {
        var r', s' := if r == sealed then q.record else r, if s == sealed then q.record else s;
        assert r' in before && s' in before;
      }
    }
  }

  lemma AdmitsKnown(w: World, f: Files, q: Request, f1: Files, q2: Request, f2: Files, out2: Outcome)
    requires ChainHasKey(w, ChainOf(f1), q2.dedupeKey) && q2.dedupeKey != ""
    requires AppendStep(w, f1, q2, f2, out2) && (out2.Appended? || out2.Deduped?)
    ensures Admit(w, f1, q2).Known? && out2.Deduped?
  {
    hide ChainHasKey, IsGaitLifecycle, Blank, RegisterSpec, MarkResult, Sealed;
    var marked :| (Admit(w, f1, q2).New? ==> MarkResult(w, f1, q2, marked)) &&
        (f2, out2) == AppendSpec(w, f1, q2, marked);
  }

  /** A key the chain has is never lost again. */
  lemma {:induction false} KeyStays(w: World, qs: seq<Request>, fs: seq<Files>, outs: seq<Outcome>, i: nat, n: nat,
                                    key: string)
    requires Run(w, qs, fs, outs) && i <= n <= |qs| && |fs| == |qs| + 1 && ChainHasKey(w, ChainOf(fs[i]), key)
    ensures ChainHasKey(w, ChainOf(fs[n]), key)
    decreases n - i
  {
    hide *;
    if i < n {
      KeyStays(w, qs, fs, outs, i, n - 1, key);
      RunStart(w, qs, fs, outs);
      RunStep(w, qs, fs, outs, n - 1);
      KeyKept(w, fs[n - 1], qs[n - 1], fs[n], outs[n - 1], key);
    }
  }

  lemma KeyKept(w: World, f: Files, q: Request, f': Files, out: Outcome, key: string)
    requires AppendStep(w, f, q, f', out) && ChainHasKey(w, ChainOf(f), key)
    ensures ChainHasKey(w, ChainOf(f'), key)
  {
    hide AppendStep, Admit, ChainHasKey;
    ChainCases(w, f, q, f', out);
    if ChainOf(f') != ChainOf(f) {
      HasKeyGrows(w, ChainOf(f), Admit(w, f, q).sealed, key);
    }
  }

  /** Over any run: once a record's key is in the chain, be it by an ingest that then crashed, every
      later successful ingest with that key takes the duplicate branch. */
  lemma ReingestDedupes(w: World, qs: seq<Request>, fs: seq<Files>, outs: seq<Outcome>, i: nat, j: nat)
    requires Run(w, qs, fs, outs) && |fs| == |qs| + 1 && |outs| == |qs| && i <= j < |qs|
    requires ChainHasKey(w, ChainOf(fs[i]), qs[j].dedupeKey) && (outs[j].Appended? || outs[j].Deduped?)
    ensures outs[j].Deduped?
  {
    hide *;
    KeyStays(w, qs, fs, outs, i, j, qs[j].dedupeKey);
    RunStep(w, qs, fs, outs, j);
    Ingests(w, qs[j]);
    CanonicalNotEmpty(w, qs[j]);
    AdmitsKnown(w, fs[j], qs[j], fs[j], qs[j], fs[j + 1], outs[j]);
  }

  lemma CanonicalNotEmpty(w: World, q: Request)
    requires Canonical(w, q)
    ensures q.dedupeKey != ""
  {
    KeyNotEmpty(w, q.record);
  }
}
