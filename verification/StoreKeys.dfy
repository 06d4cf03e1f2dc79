/** What two records must share to share a dedupe key, and so what an ingest is turned away for. */
module StoreKeys {
  import opened Prelude
  import opened Text
  import opened Receipts
  import opened Disk
  import opened Store
  import opened StoreInvariants
  import opened StoreRuns
  import Dedupe

  /** The records tell of the same event: same product, type and event hash. */
  predicate SameEvent(w: World, r: Record, s: Record) {
    && Trim(r.sourceProduct) == Trim(s.sourceProduct) && Trim(r.recordType) == Trim(s.recordType)
    && w.eventHash(r.event).Some? && w.eventHash(s.event) == w.eventHash(r.event)
  }

  /** Event hashes are 64 hexadecimal digits long. */
  ghost predicate HashLengths(w: World) {
    forall e :: w.eventHash(e).Some? ==> |w.eventHash(e).value| == 64
  }

  /** Product and type do not contain the character that separates them in a key. */
  predicate Separable(r: Record) {
    '|' !in r.sourceProduct && '|' !in r.recordType
  }

  lemma {:induction false} TrimKeepsOut(s: string, c: char)
    requires c !in s
    ensures c !in Trim(s)
  {
    LeftKeepsOut(s, c);
    RightKeepsOut(TrimLeft(s), c);
  }

  lemma {:induction false} LeftKeepsOut(s: string, c: char)
    requires c !in s
    ensures c !in TrimLeft(s)
  {
    if s != "" && IsSpace(s[0]) {
      LeftKeepsOut(s[1..], c);
    }
  }

  lemma {:induction false} RightKeepsOut(s: string, c: char)
    requires c !in s
    ensures c !in TrimRight(s)
  {
    if s != "" && IsSpace(s[|s| - 1]) {
      RightKeepsOut(s[..|s| - 1], c);
    }
  }

  /** A text up to its first separator is determined. */
  lemma SplitOnce(a: string, b: string, x: string, y: string)
    requires '|' !in a && '|' !in b && a + "|" + x == b + "|" + y
    ensures a == b && x == y
  {
    var s := a + "|" + x;
    assert s[|a|] == '|' && s[|b|] == '|';
    assert (forall k :: 0 <= k < |a| ==> s[k] == a[k]) && forall k :: 0 <= k < |b| ==> s[k] == b[k];
    assert |a| == |b|;
    assert a == s[..|a|] && b == s[..|b|];
    assert x == s[|a| + 1..] && y == s[|b| + 1..];
  }

  lemma KeyParts(w: World, r: Record)
    requires KeyOf(w, r).Some? && w.eventHash(r.event).Some?
    ensures KeyOf(w, r).value ==
            Trim(r.sourceProduct) + "|" + (Trim(r.recordType) + "|" + ("sha256:" + w.eventHash(r.event).value))
  {
  }

  /** Equal keys end in equal event hashes, whatever product and type contain. */
  lemma KeysShareHash(w: World, r: Record, s: Record)
    requires HashLengths(w) && KeyOf(w, r).Some? && KeyOf(w, r) == KeyOf(w, s)
    ensures w.eventHash(r.event).Some? && w.eventHash(r.event) == w.eventHash(s.event)
  {
    hide Trim;
    KeyParts(w, r);
    KeyParts(w, s);
    var k, l := KeyOf(w, r).value, KeyOf(w, s).value;
    var g, h := w.eventHash(r.event).value, w.eventHash(s.event).value;
    assert k[|k| - 64..] == g && l[|l| - 64..] == h;
  }

  /** Main result. Where product and type are free of the separator, two records share a key exactly
      when they tell of the same event. */
  lemma KeysAreEvents(w: World, r: Record, s: Record)
    requires HashLengths(w) && Separable(r) && Separable(s) && KeyOf(w, r).Some?
    ensures KeyOf(w, r) == KeyOf(w, s) <==> SameEvent(w, r, s)
  {
    if KeyOf(w, r) == KeyOf(w, s) {
      KeysShareHash(w, r, s);
      KeyParts(w, r);
      KeyParts(w, s);
      TrimKeepsOut(r.sourceProduct, '|');
      TrimKeepsOut(s.sourceProduct, '|');
      TrimKeepsOut(r.recordType, '|');
      TrimKeepsOut(s.recordType, '|');
      hide Trim, KeyOf;
      var hr, hs := "sha256:" + w.eventHash(r.event).value, "sha256:" + w.eventHash(s.event).value;
      SplitOnce(Trim(r.sourceProduct), Trim(s.sourceProduct), Trim(r.recordType) + "|" + hr,
                Trim(s.recordType) + "|" + hs);
      SplitOnce(Trim(r.recordType), Trim(s.recordType), hr, hs);
    }
  }

  /** Every record whose event can be hashed has a key. */
  lemma KeyExists(w: World, r: Record)
    ensures KeyOf(w, r).Some? <==> w.eventHash(r.event).Some?
  {
  }

  /** The condition matters: these two records of one event share a key. */
  lemma SeparatorCollides(w: World, r: Record, s: Record)
    requires r.sourceProduct == "a|b" && r.recordType == "c" && s.sourceProduct == "a" && s.recordType == "b|c"
    requires w.eventHash(r.event).Some? && w.eventHash(s.event) == w.eventHash(r.event)
    ensures KeyOf(w, r) == KeyOf(w, s) && !SameEvent(w, r, s)
  {
    var h := w.eventHash(r.event).value;
    assert Trim("a|b") == "a|b" && Trim("c") == "c" && Trim("a") == "a" && Trim("b|c") == "b|c";
    assert "a|b" + "|" + "c" == "a" + "|" + "b|c";
  }

  // ----- What an ingest is known for -----

  /** The checks that come before the lookup let the request through. */
  predicate Reaches(w: World, f: Files, q: Request) {
    && !w.readOnly && !Blank(q.record.recordID) && (IsGaitLifecycle(q.record) ==> q.allowGait)
    && !f.chain.Garbled? && !f.index.Garbled?
  }

  lemma KnownIsHeld(w: World, f: Files, q: Request)
    requires Reaches(w, f, q) && Canonical(w, q) && IndexSound(w, f)
    ensures Admit(w, f, q).Known? <==> ChainHasKey(w, ChainOf(f), q.dedupeKey)
  {
    KeyNotEmpty(w, q.record);
    hide KeyOf, ChainHasKey, Sealed, IsGaitLifecycle, Blank;
  }

  /** Main result. With a sound index an ingest that reaches the lookup counts as known exactly when the
      chain holds a record of the same product, type and event hash. */
  lemma KnownMeansSameEvent(w: World, f: Files, q: Request)
    requires Reaches(w, f, q) && Canonical(w, q) && IndexSound(w, f) && HashLengths(w)
    requires Separable(q.record) && forall r :: r in ChainOf(f).records ==> Separable(r)
    ensures Admit(w, f, q).Known? <==> exists r :: r in ChainOf(f).records && SameEvent(w, q.record, r)
  {
    KnownIsHeld(w, f, q);
    forall r | r in ChainOf(f).records ensures KeyOf(w, r) == Some(q.dedupeKey) <==> SameEvent(w, q.record, r) {
      KeysAreEvents(w, q.record, r);
    }
    hide KeyOf, Admit, SameEvent, ChainOf;
    if ChainHasKey(w, ChainOf(f), q.dedupeKey) {
      var i :| 0 <= i < |ChainOf(f).records| && KeyOf(w, ChainOf(f).records[i]) == Some(q.dedupeKey);
      assert ChainOf(f).records[i] in ChainOf(f).records;
    }
  }

  /** Every chain record keeps product and type of the request that brought it. */
  ghost predicate AllSeparable(w: World, chain: Chain) {
    forall r :: r in chain.records ==> Separable(r)
  }

  lemma SeparableStep(w: World, f: Files, q: Request, f': Files, out: Outcome)
    requires AppendStep(w, f, q, f', out) && AllSeparable(w, ChainOf(f)) && Separable(q.record)
    ensures AllSeparable(w, ChainOf(f'))
  {
    hide AppendStep, Admit;
    ChainCases(w, f, q, f', out);
    if ChainOf(f') != ChainOf(f) {
      SealedKeepsRecord(w, f, q);
    }
  }

  lemma {:induction false} ReachableSeparable(w: World, qs: seq<Request>, fs: seq<Files>, outs: seq<Outcome>, n: nat)
    requires Run(w, qs, fs, outs) && n <= |qs| && forall i :: 0 <= i < |qs| ==> Separable(qs[i].record)
    ensures AllSeparable(w, ChainOf(fs[n]))
  {
    hide Run, AppendStep, Separable, AllSeparable, Ingested, RequestsNameKeys;
    RunStart(w, qs, fs, outs);
    if n == 0 {
      NoneYet(w, fs[0]);
    } else {
      ReachableSeparable(w, qs, fs, outs, n - 1);
      RunStep(w, qs, fs, outs, n - 1);
      SeparableStep(w, fs[n - 1], qs[n - 1], fs[n], outs[n - 1]);
    }
  }

  lemma NoneYet(w: World, f: Files)
    requires f == Files(Absent, Absent, Absent)
    ensures AllSeparable(w, ChainOf(f))
  {
  }

  /** Main result. Over any run without a stranded rollback, an ingest counts as known only if the chain
      already holds a record of the same event: no other record is ever dropped as a duplicate. */
  lemma RunKnownMeansSameEvent(w: World, qs: seq<Request>, fs: seq<Files>, outs: seq<Outcome>, n: nat)
    requires Run(w, qs, fs, outs) && n < |qs| && HashLengths(w) && |fs| == |qs| + 1
    requires forall i :: 0 <= i < |qs| ==> Separable(qs[i].record)
    requires forall i :: 0 <= i < n ==> !Stranded(w, fs[i], qs[i], fs[i + 1])
    ensures Reaches(w, fs[n], qs[n]) ==>
              (Admit(w, fs[n], qs[n]).Known? <==>
               exists r :: r in ChainOf(fs[n]).records && SameEvent(w, qs[n].record, r))
  {
    hide Run, AppendStep, Ingested, RequestsNameKeys, Stranded, Admit, SameEvent, Reaches, IndexSound, Canonical,
        ChainOf, HashLengths, Separable;
    RunStart(w, qs, fs, outs);
    RunStep(w, qs, fs, outs, n);
    Ingests(w, qs[n]);
    ReachableCacheSound(w, qs, fs, outs, n);
    ReachableSeparable(w, qs, fs, outs, n);
    if Reaches(w, fs[n], qs[n]) {
      KnownMeansSameEvent(w, fs[n], qs[n]);
    }
  }
}
