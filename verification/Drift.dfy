/** Privilege drift (core/review/privilegedrift/analyzer.go): observations extend a sorted baseline,
    and every new pair first observed without approval is a gap. */
module Drift {
  import opened Prelude
  import opened Text
  import opened Sorting

  datatype Observation = Observation(principal: string, privilege: string, approved: bool, recordID: string)

  /** Status and reason class are the same for every gap. */
  datatype Gap = Gap(principal: string, privilege: string, recordID: string)

  type Baseline = map<string, seq<string>>

  /** `sort.SearchStrings`: binary search for the first element not less than the candidate. */
  function SearchBetween(privs: seq<string>, x: string, lo: nat, hi: nat): (i: nat)
    requires lo <= hi <= |privs|
    requires Ascending(Less, privs)
    requires forall k :: 0 <= k < lo ==> Less(privs[k], x)
    requires forall k :: hi <= k < |privs| ==> !Less(privs[k], x)
    ensures i <= |privs|
    ensures forall k :: 0 <= k < i ==> Less(privs[k], x)
    ensures forall k :: i <= k < |privs| ==> !Less(privs[k], x)
    decreases hi - lo
  {
    if lo == hi then lo
    else
      var mid := (lo + hi) / 2;
      if Less(privs[mid], x) then BelowMid(privs, x, mid); SearchBetween(privs, x, mid + 1, hi)
      else AboveMid(privs, x, mid); SearchBetween(privs, x, lo, mid)
  }

  lemma BelowMid(privs: seq<string>, x: string, mid: nat)
    requires Ascending(Less, privs) && mid < |privs| && Less(privs[mid], x)
    ensures forall k :: 0 <= k <= mid ==> Less(privs[k], x)
  {
    forall k | 0 <= k <= mid ensures Less(privs[k], x) {
      if privs[k] != privs[mid] {
        assert !Less(privs[mid], privs[k]);
        LessTotal(privs[k], privs[mid]);
        LessTransitive(privs[k], privs[mid], x);
      }
    }
  }

  lemma AboveMid(privs: seq<string>, x: string, mid: nat)
    requires Ascending(Less, privs) && mid < |privs| && !Less(privs[mid], x)
    ensures forall k :: mid <= k < |privs| ==> !Less(privs[k], x)
  {
    forall k | mid <= k < |privs| ensures !Less(privs[k], x) {
      if k != mid { LessNotTransitive(x, privs[mid], privs[k]); }
    }
  }

  function SearchStrings(privs: seq<string>, x: string): (i: nat)
    requires Ascending(Less, privs)
    ensures i <= |privs|
    ensures forall k :: 0 <= k < i ==> Less(privs[k], x)
    ensures forall k :: i <= k < |privs| ==> !Less(privs[k], x)
  {
    SearchBetween(privs, x, 0, |privs|)
  }

  /** In a sorted list the search finds the candidate if it is there at all. */
  predicate HasPrivilege(privs: seq<string>, candidate: string)
    requires Ascending(Less, privs)
  {
    var i := SearchStrings(privs, candidate);
    i < |privs| && privs[i] == candidate
  }

  lemma SearchFinds(privs: seq<string>, candidate: string)
    requires Ascending(Less, privs)
    ensures HasPrivilege(privs, candidate) <==> candidate in privs
  {
    var i := SearchStrings(privs, candidate);
    if candidate in privs {
      var k :| 0 <= k < |privs| && privs[k] == candidate;
      LessIrreflexive(candidate);
      assert k >= i;
      if privs[i] != candidate {
        assert !Less(privs[i], candidate) && !Less(candidate, privs[i]);
        LessTotal(privs[i], candidate);
      }
    }
  }

  /** The list with the candidate in its place. */
  function Inserted(privs: seq<string>, candidate: string): seq<string>
    requires Ascending(Less, privs)
  {
    var i := SearchStrings(privs, candidate);
    if i < |privs| && privs[i] == candidate then privs else privs[..i] + [candidate] + privs[i..]
  }

  lemma InsertedSorted(privs: seq<string>, candidate: string)
    requires Ascending(Less, privs)
    ensures Ascending(Less, Inserted(privs, candidate))
    ensures forall x :: x in Inserted(privs, candidate) <==> x in privs || x == candidate
    ensures candidate !in privs ==> multiset(Inserted(privs, candidate)) == multiset(privs) + multiset{candidate}
  {
    var i := SearchStrings(privs, candidate);
    var r := Inserted(privs, candidate);
    SearchFinds(privs, candidate);
    assert privs == privs[..i] + privs[i..];
    if r != privs {
      forall a, b | 0 <= a < b < |r| ensures !Less(r[b], r[a]) {
        InsertedPair(privs, candidate, i, r, a, b);
      }
    }
  }

  lemma InsertedPair(privs: seq<string>, candidate: string, i: nat, r: seq<string>, a: nat, b: nat)
    requires Ascending(Less, privs) && i <= |privs| && r == privs[..i] + [candidate] + privs[i..] && a < b < |r|
    requires forall k :: 0 <= k < i ==> Less(privs[k], candidate)
    requires forall k :: i <= k < |privs| ==> !Less(privs[k], candidate)
    ensures !Less(r[b], r[a])
  {
    assert r[a] == if a < i then privs[a] else if a == i then candidate else privs[a - 1];
    assert r[b] == if b < i then privs[b] else if b == i then candidate else privs[b - 1];
    if a < i && b == i {
      LessAsymmetric(privs[a], candidate);
    }
  }

  /** Insertion by growing the slice and shifting its tail one place. */
  method InsertPrivilege(privs: seq<string>, candidate: string) returns (r: seq<string>)
    requires Ascending(Less, privs)
    ensures r == Inserted(privs, candidate)
  {
    var i := SearchStrings(privs, candidate);
    if i < |privs| && privs[i] == candidate {
      return privs;
    }
    var grown := new string[|privs| + 1](k requires 0 <= k <= |privs| => if k < |privs| then privs[k] else "");
    ShiftIn(grown, i, candidate);
    ShiftedIs(privs, i, candidate, grown[..]);
    r := grown[..];
  }

  /** Every element from the position on moves one place up; the last one is overwritten. */
  method ShiftIn(grown: array<string>, i: nat, candidate: string)
    requires i < grown.Length
    modifies grown
    ensures grown[i] == candidate
    ensures forall j :: 0 <= j < i ==> grown[j] == old(grown[j])
    ensures forall j :: i < j < grown.Length ==> grown[j] == old(grown[j - 1])
  {
    hide *;
    var k := grown.Length - 1;
    while k > i
      invariant i <= k < grown.Length
      invariant forall j :: 0 <= j <= k ==> grown[j] == old(grown[j])
      invariant forall j :: k < j < grown.Length ==> grown[j] == old(grown[j - 1])
    {
      grown[k] := grown[k - 1];
      k := k - 1;
    }
    grown[i] := candidate;
  }

  lemma ShiftedIs(privs: seq<string>, i: nat, candidate: string, r: seq<string>)
    requires i <= |privs| && |r| == |privs| + 1 && r[i] == candidate
    requires forall j :: 0 <= j < i ==> r[j] == privs[j]
    requires forall j :: i < j < |r| ==> r[j] == privs[j - 1]
    ensures r == privs[..i] + [candidate] + privs[i..]
  {
  }

  // ----- The analysis -----

  ghost predicate SortedBaseline(b: Baseline) {
    forall p :: p in b ==> Ascending(Less, b[p])
  }

  function Cloned(b: Baseline): (c: Baseline)
    ensures SortedBaseline(c) && c.Keys == b.Keys
    ensures forall p :: p in b ==> multiset(c[p]) == multiset(b[p])
  {
    var c := map p | p in b :: SortStrings(b[p]);
    assert SortedBaseline(c) by { forall p | p in c ensures Ascending(Less, c[p]) { SortStringsAscending(b[p]); } }
    c
  }

  function Held(b: Baseline, principal: string): seq<string> {
    if principal in b then b[principal] else []
  }

  predicate Counts(o: Observation) {
    o.principal != "" && o.privilege != ""
  }

  predicate IsNew(b: Baseline, o: Observation) {
    Counts(o) && o.privilege !in Held(b, o.principal)
  }

  function Extended(b: Baseline, o: Observation): (c: Baseline)
    requires SortedBaseline(b)
    ensures SortedBaseline(c)
  {
    if !Counts(o) then b
    else
      InsertedSorted(Held(b, o.principal), o.privilege);
      b[o.principal := if IsNew(b, o) then Inserted(Held(b, o.principal), o.privilege) else Held(b, o.principal)]
  }

  function GapOf(b: Baseline, o: Observation): seq<Gap> {
    if IsNew(b, o) && !o.approved then [Gap(o.principal, o.privilege, o.recordID)] else []
  }

  /** The baseline after some observations. */
  function After(b: Baseline, os: seq<Observation>): (c: Baseline)
    requires SortedBaseline(b)
    ensures SortedBaseline(c)
  {
    if os == [] then b else Extended(After(b, os[..|os| - 1]), os[|os| - 1])
  }

  /** The gaps in the order they are found. */
  function Found(b: Baseline, os: seq<Observation>): seq<Gap>
    requires SortedBaseline(b)
  {
    if os == [] then []
    else Found(b, os[..|os| - 1]) + GapOf(After(b, os[..|os| - 1]), os[|os| - 1])
  }

  predicate GapBefore(a: Gap, b: Gap) {
    if a.principal != b.principal then Less(a.principal, b.principal)
    else if a.privilege != b.privilege then Less(a.privilege, b.privilege)
    else Less(a.recordID, b.recordID)
  }

  method Analyze(baseline: Baseline, observations: seq<Observation>) returns (updated: Baseline, gaps: seq<Gap>)
    ensures updated == After(Cloned(baseline), observations)
    ensures gaps == SortBy(GapBefore, Found(Cloned(baseline), observations))
  {
    hide Inserted, Cloned;
    ghost var start := Cloned(baseline);
    updated, gaps := Cloned(baseline), [];
    for i := 0 to |observations|
      invariant updated == After(start, observations[..i])
      invariant gaps == Found(start, observations[..i])
    {
      assert observations[..i + 1][..i] == observations[..i];
      var found: seq<Gap>;
      updated, found := Observe(updated, observations[i]);
      gaps := gaps + found;
    }
    assert observations[..|observations|] == observations;
    gaps := SortBy(GapBefore, gaps);
  }

  method Observe(before: Baseline, o: Observation) returns (updated: Baseline, gaps: seq<Gap>)
    requires SortedBaseline(before)
    ensures updated == Extended(before, o) && gaps == GapOf(before, o)
  {
    hide Inserted;
    updated := before;
    if o.principal == "" || o.privilege == "" {
      return updated, [];
    }
    if o.principal !in updated {
      updated := updated[o.principal := []];
    }
    var privs := updated[o.principal];
    SearchFinds(privs, o.privilege);
    if HasPrivilege(privs, o.privilege) {
      return updated, [];
    }
    var inserted := InsertPrivilege(privs, o.privilege);
    updated := updated[o.principal := inserted];
    return updated, if o.approved then [] else [Gap(o.principal, o.privilege, o.recordID)];
  }

  // ----- What the analysis reports -----

  predicate Same(o: Observation, principal: string, privilege: string) {
    o.principal == principal && o.privilege == privilege && Counts(o)
  }

  /** Main result. Each list stays sorted and holds the baseline plus what was observed. */
  lemma {:induction false} Contents(b: Baseline, os: seq<Observation>, principal: string, privilege: string)
    requires SortedBaseline(b)
    ensures Ascending(Less, Held(After(b, os), principal))
    ensures privilege in Held(After(b, os), principal) <==>
            privilege in Held(b, principal) || exists i :: 0 <= i < |os| && Same(os[i], principal, privilege)
  {
    if os != [] {
      hide Extended, Same;
      var init, o := os[..|os| - 1], os[|os| - 1];
      Contents(b, init, principal, privilege);
      ExtendedContents(After(b, init), o, principal, privilege);
      assert forall i :: 0 <= i < |init| ==> init[i] == os[i];
      if i :| 0 <= i < |os| && Same(os[i], principal, privilege) {
        assert i < |init| ==> Same(init[i], principal, privilege);
      }
    }
  }

  lemma ExtendedContents(b: Baseline, o: Observation, principal: string, privilege: string)
    requires SortedBaseline(b) && Ascending(Less, Held(b, principal))
    ensures Ascending(Less, Held(Extended(b, o), principal))
    ensures privilege in Held(Extended(b, o), principal) <==>
            privilege in Held(b, principal) || Same(o, principal, privilege)
  {
    InsertedSorted(Held(b, o.principal), o.privilege);
    hide Inserted;
  }

  /** The first observation of a pair that the baseline lacks, made without approval. */
  ghost predicate Escalation(b: Baseline, os: seq<Observation>, i: int)
    requires 0 <= i < |os|
  {
    && Counts(os[i]) && !os[i].approved && os[i].privilege !in Held(b, os[i].principal)
    && forall j :: 0 <= j < i ==> !Same(os[j], os[i].principal, os[i].privilege)
  }

  /** This gap reports the escalation at this position. */
  ghost predicate GapAt(b: Baseline, os: seq<Observation>, i: int, g: Gap) {
    0 <= i < |os| && Escalation(b, os, i) && g == Gap(os[i].principal, os[i].privilege, os[i].recordID)
  }

  /** One more observation adds one gap if it is an escalation, and none otherwise. */
  lemma OneGapEach(b: Baseline, os: seq<Observation>)
    requires SortedBaseline(b) && os != []
    ensures var n := |os| - 1;
            Found(b, os) ==
            Found(b, os[..n]) +
            if Escalation(b, os, n) then [Gap(os[n].principal, os[n].privilege, os[n].recordID)] else []
  {
    hide *;
    var n := |os| - 1;
    var init, o := os[..n], os[n];
    Contents(b, init, o.principal, o.privilege);
    FoundSnoc(b, os);
    FirstSight(b, os);
    GapParts(After(b, init), o);
  }

  lemma FoundSnoc(b: Baseline, os: seq<Observation>)
    requires SortedBaseline(b) && os != []
    ensures var n := |os| - 1; Found(b, os) == Found(b, os[..n]) + GapOf(After(b, os[..n]), os[n])
  {
    hide GapOf, After;
  }

  lemma GapParts(b: Baseline, o: Observation)
    ensures GapOf(b, o) == if Counts(o) && !o.approved && o.privilege !in Held(b, o.principal)
                           then [Gap(o.principal, o.privilege, o.recordID)] else []
  {
    hide Held;
  }

  /** Whether the last observation escalates, in terms of those before it. */
  lemma FirstSight(b: Baseline, os: seq<Observation>)
    requires os != []
    ensures var n := |os| - 1;
            var init, o := os[..n], os[n];
            Escalation(b, os, n) <==>
            && Counts(o) && !o.approved && o.privilege !in Held(b, o.principal)
            && !exists j :: 0 <= j < |init| && Same(init[j], o.principal, o.privilege)
  {
    hide Same, Counts, Held;
    var n := |os| - 1;
    assert forall j :: 0 <= j < n ==> os[..n][j] == os[j];
  }

  /** Main result. The reported gaps are exactly the escalations. */
  lemma {:induction false} GapsAreEscalations(b: Baseline, os: seq<Observation>, g: Gap)
    requires SortedBaseline(b)
    ensures g in Found(b, os) <==> exists i :: GapAt(b, os, i, g)
  {
    if os != [] {
      var n := |os| - 1;
      var init := os[..n];
      GapsAreEscalations(b, init, g);
      OneGapEach(b, os);
      forall i | 0 <= i < n ensures GapAt(b, init, i, g) <==> GapAt(b, os, i, g) {
        EscalationPrefix(b, os, n, i);
      }
      hide Escalation, Found;
      if i :| GapAt(b, init, i, g) { assert GapAt(b, os, i, g); }
      if i :| GapAt(b, os, i, g) { assert i < n ==> GapAt(b, init, i, g); }
      assert Escalation(b, os, n) ==> GapAt(b, os, n, Gap(os[n].principal, os[n].privilege, os[n].recordID));
    }
  }

  lemma EscalationPrefix(b: Baseline, os: seq<Observation>, n: nat, i: nat)
    requires i < n <= |os|
    ensures Escalation(b, os[..n], i) <==> Escalation(b, os, i)
  {
    hide Same;
    assert forall j :: 0 <= j <= i ==> os[..n][j] == os[j];
  }

  // ----- Composition -----

  lemma {:induction false} AfterConcat(b: Baseline, xs: seq<Observation>, ys: seq<Observation>)
    requires SortedBaseline(b)
    ensures After(b, xs + ys) == After(After(b, xs), ys)
    ensures Found(b, xs + ys) == Found(b, xs) + Found(After(b, xs), ys)
  {
    hide Extended, GapOf;
    if ys == [] {
      assert xs + ys == xs;
    } else {
      var init := ys[..|ys| - 1];
      AfterConcat(b, xs, init);
      assert (xs + ys)[..|xs + ys| - 1] == xs + init;
    }
  }

  lemma ClonedSorted(b: Baseline)
    requires SortedBaseline(b)
    ensures Cloned(b) == b
  {
    forall p | p in b ensures Cloned(b)[p] == b[p] {
      SortStringsKeeps(b[p]);
    }
  }

  /** Main result. Analysing in two steps gives the same baseline and the same gaps as analysing
      everything at once. */
  lemma AnalysisComposes(b: Baseline, xs: seq<Observation>, ys: seq<Observation>)
    ensures var mid := After(Cloned(b), xs);
            && After(Cloned(mid), ys) == After(Cloned(b), xs + ys)
            && multiset(SortBy(GapBefore, Found(Cloned(b), xs))) + multiset(SortBy(GapBefore, Found(Cloned(mid), ys)))
                 == multiset(SortBy(GapBefore, Found(Cloned(b), xs + ys)))
  {
    hide Cloned, After, Found, GapBefore;
    AfterConcat(Cloned(b), xs, ys);
    ClonedSorted(After(Cloned(b), xs));
  }

  /** Observing again what was already observed changes nothing and reports nothing. */
  lemma {:induction false} RepeatIsSilent(b: Baseline, os: seq<Observation>, part: seq<Observation>)
    requires SortedBaseline(b) && forall o :: o in part ==> o in os
    ensures After(After(b, os), part) == After(b, os) && Found(After(b, os), part) == []
  {
    if part != [] {
      var init, o := part[..|part| - 1], part[|part| - 1];
      RepeatIsSilent(b, os, init);
      assert o in os;
      Absorbed(b, os, o);
      hide Extended, GapOf;
    }
  }

  lemma Absorbed(b: Baseline, os: seq<Observation>, o: Observation)
    requires SortedBaseline(b) && o in os
    ensures Extended(After(b, os), o) == After(b, os) && GapOf(After(b, os), o) == []
  {
    if Counts(o) {
      Contents(b, os, o.principal, o.privilege);
      var i :| 0 <= i < |os| && os[i] == o;
      assert Same(os[i], o.principal, o.privilege);
      hide After, Inserted;
      assert o.privilege in Held(After(b, os), o.principal);
    }
  }
}
