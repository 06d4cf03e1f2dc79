/** The choice among evidence sets is by a genuine order, coverage has a declarative meaning, and
    more evidence never lowers a status. */
module MatcherChoice {
  import opened Prelude
  import opened Text
  import opened Sorting
  import opened Matcher

  // ----- Conservation -----

  /** Every candidate ends in exactly one column, and the type sets nest. */
  lemma {:induction false} Conservation(o: Options, q: Requirements, start: Option<int>, records: seq<Record>)
    ensures var t := TallyAll(o, q, start, records);
            && t.candidates == t.matched + t.partial + t.failed == |t.evidence|
            && t.invalidExcluded <= t.failed
            && t.matchedTypes <= t.presentTypes <= q.types
            && t.matchedInWindow <= t.matched
            && (t.matchedTypes != {} ==> t.matchedInWindow > 0)
  {
    if records != [] {
      Conservation(o, q, start, records[..|records| - 1]);
      hide StatusOf, Missing, Present, RecordReasons;
    }
  }

  // ----- Facts about reachable results -----

  /** What every result of `EvaluateRequirementSet` satisfies. */
  ghost predicate Reachable(r: ControlResult) {
    && r.matchedRequiredTypes <= |r.presentTypes| <= |r.requiredTypes|
    && (r.status.Gap? ==> r.matched == 0 && r.partial == 0 && r.matchedRequiredTypes == 0)
    && (r.requiredTypes == {} ==> r.status.Gap? && r.failed == 0 && MissingFieldCount(r) == 0)
    && (r.status.Gap? && r.presentTypes != {} ==> MissingFieldCount(r) > 0)
  }

  lemma SubsetSize<T>(a: set<T>, b: set<T>)
    requires a <= b
    ensures |a| <= |b|
  {
    assert b == a + (b - a);
  }

  /** Without required types nothing is in scope. */
  lemma {:induction false} NothingInScope(o: Options, q: Requirements, start: Option<int>, records: seq<Record>)
    requires q.types == {}
    ensures TallyAll(o, q, start, records) == EMPTY
  {
    if records != [] {
      NothingInScope(o, q, start, records[..|records| - 1]);
      hide StatusOf, Missing, Present, RecordReasons;
    }
  }

  /** If some type is present but nothing matched, some evidence lacks a field. */
  lemma {:induction false} PresentButUnmatched(o: Options, q: Requirements, start: Option<int>, records: seq<Record>)
    requires TallyAll(o, q, start, records).matched == 0 && TallyAll(o, q, start, records).presentTypes != {}
    requires forall f :: f in q.fields ==> !Blank(f)
    ensures MissingFields(TallyAll(o, q, start, records).evidence) != {}
  {
    var init, r := records[..|records| - 1], records[|records| - 1];
    var before, after := TallyAll(o, q, start, init), TallyAll(o, q, start, records);
    if before.presentTypes != {} {
      PresentButUnmatched(o, q, start, init);
      var f :| f in MissingFields(before.evidence);
      KeepsMissing(o, q, start, before, r, f);
    } else {
      LacksField(q, r);
      hide Missing, Present, RecordReasons, InScope;
      var f :| f in Missing(q, r) && !Blank(f);
      var m := after.evidence[|after.evidence| - 1];
      assert m in after.evidence && f in m.missing;
      assert Trim(f) in MissingFields(after.evidence);
    }
  }

  lemma LacksField(q: Requirements, r: Record)
    requires forall f :: f in q.fields ==> !Blank(f)
    ensures Missing(q, r) != {} ==> exists f :: f in Missing(q, r) && !Blank(f)
  {
    if Missing(q, r) != {} {
      var f :| f in Missing(q, r);
      if f !in q.fields || f in r.fields {
        var g :| g in r.identityMissing && !Blank(g) && Trim(g) == f;
        TrimIdempotent(g);
      }
    }
  }

  lemma KeepsMissing(o: Options, q: Requirements, start: Option<int>, t: Tally, r: Record, f: string)
    requires f in MissingFields(t.evidence)
    ensures f in MissingFields(Tallied(o, q, start, t, r).evidence)
  {
    hide StatusOf, Missing, Present, RecordReasons, InScope;
    var m, g :| m in t.evidence && g in m.missing && !Blank(g) && Trim(g) == f;
    assert m in Tallied(o, q, start, t, r).evidence;
  }

  /** The requirement sets of a control ask for trimmed, non-blank fields. */
  lemma FieldsNotBlank(control: Control, i: nat)
    requires i < |RequirementSets(control)|
    ensures forall f :: f in RequirementSets(control)[i].fields ==> !Blank(f)
  {
    hide LoweredSet;
    forall f | f in RequirementSets(control)[i].fields ensures !Blank(f) {
      var fields := if control.evidenceSets == [] then control.requiredFields
        else SortBy(SetBefore, control.evidenceSets)[i].requiredFields;
      assert f in TrimmedSet(fields);
      var y :| y in fields && f == Trim(y) && f != "";
      TrimIdempotent(y);
    }
  }

  lemma EvaluatedReachable(o: Options, q: Requirements, records: seq<Record>)
    requires forall f :: f in q.fields ==> !Blank(f)
    ensures Reachable(Evaluated(o, q, records))
  {
    var start := WindowStart(o, q, records);
    var t := TallyAll(o, q, start, records);
    Conservation(o, q, start, records);
    SubsetSize(t.matchedTypes, t.presentTypes);
    SubsetSize(t.presentTypes, q.types);
    if q.types == {} {
      NothingInScope(o, q, start, records);
      assert MissingFields([]) == {};
    }
    if t.matched == 0 && t.presentTypes != {} {
      PresentButUnmatched(o, q, start, records);
      var f :| f in MissingFields(t.evidence);
      SubsetSize({f}, MissingFields(t.evidence));
    }
    assert t.matchedTypes == {} || t.matched > 0;
  }

  // ----- The comparator is lexicographic on ratios -----

  function Ratio(n: nat, d: nat, whenNone: real): real {
    if d == 0 then whenNone else n as real / d as real
  }

  /** The quantities compared, best first: larger is better in every position. A result without
      required types has no ratio; its presence counts above any ratio. */
  function Key(r: ControlResult): (k: seq<real>)
    ensures |k| == 8
  {
    var required, present := |r.requiredTypes|, |r.presentTypes|;
    [Rank(r.status) as real, Ratio(r.matchedRequiredTypes, required, 0.0), Ratio(present, required, 2.0),
     (present - required) as real, -(MissingFieldCount(r) as real), r.matched as real, r.partial as real,
         -(r.failed as real)]
  }

  /** Lexicographically greater. */
  predicate Greater(a: seq<real>, b: seq<real>)
    requires |a| == |b|
  {
    a != [] && (a[0] > b[0] || (a[0] == b[0] && Greater(a[1..], b[1..])))
  }

  lemma {:induction false} GreaterStrict(a: seq<real>, b: seq<real>)
    requires |a| == |b|
    ensures !(Greater(a, b) && Greater(b, a)) && !Greater(a, a)
  {
    if a != [] {
      GreaterStrict(a[1..], b[1..]);
    }
  }

  lemma {:induction false} GreaterNegative(a: seq<real>, b: seq<real>, c: seq<real>)
    requires |a| == |b| == |c| && !Greater(a, b) && !Greater(b, c)
    ensures !Greater(a, c)
  {
    if a != [] {
      if a[0] == b[0] == c[0] {
        GreaterNegative(a[1..], b[1..], c[1..]);
      }
    }
  }

  lemma CrossMultiply(n: nat, d: nat, m: nat, e: nat)
    requires d > 0 && e > 0
    ensures n * e > m * d <==> n as real / d as real > m as real / e as real
    ensures n * e == m * d <==> n as real / d as real == m as real / e as real
  {
    var x, y := n as real / d as real, m as real / e as real;
    var de := d as real * e as real;
    assert x * d as real == n as real && y * e as real == m as real;
    assert x * de == n as real * e as real == (n * e) as real by { assert x * de == (x * d as real) * e as real; }
    assert y * de == m as real * d as real == (m * d) as real by { assert y * de == (y * e as real) * d as real; }
    assert de > 0.0;
    Scale(x, y, de);
    Scale(y, x, de);
  }

  lemma Scale(x: real, y: real, d: real)
    requires d > 0.0
    ensures x > y ==> x * d > y * d
  {
  }

  /** The cross-multiplied comparisons decide exactly as the ratios do, the zero-denominator case
      included. */
  lemma PreferIsGreater(a: ControlResult, b: ControlResult)
    requires Reachable(a) && Reachable(b)
    ensures Prefer(a, b) <==> Greater(Key(a), Key(b))
  {
    var ra, rb := |a.requiredTypes|, |b.requiredTypes|;
    assert (ra == 0 <==> a.requiredTypes == {}) && (rb == 0 <==> b.requiredTypes == {});
    assert (|a.presentTypes| == 0 <==> a.presentTypes == {}) && (|b.presentTypes| == 0 <==> b.presentTypes == {});
    hide MissingFieldCount;
    if ra > 0 && rb > 0 {
      PreferProper(a, b);
    } else if Rank(a.status) == Rank(b.status) {
      RanksDecide(a, b);
      PreferEmpty(a, b);
    } else {
      RanksDecide(a, b);
    }
  }

  lemma RanksDecide(a: ControlResult, b: ControlResult)
    ensures Rank(a.status) != Rank(b.status) ==> (Greater(Key(a), Key(b)) <==> Rank(a.status) > Rank(b.status))
    ensures Rank(a.status) == Rank(b.status) ==> (Greater(Key(a), Key(b)) <==> Greater(Key(a)[1..], Key(b)[1..]))
    ensures Rank(a.status) == Rank(b.status) <==> a.status == b.status
  {
    hide MissingFieldCount;
  }

  /** `Greater` on keys, written out. */
  lemma KeyOrder(a: ControlResult, b: ControlResult)
    ensures Greater(Key(a), Key(b)) <==>
            var k, l := Key(a), Key(b);
            k[0] > l[0] || (k[0] == l[0] && (k[1] > l[1] || (k[1] == l[1] && (k[2] > l[2] || (k[2] == l[2] &&
            (k[3] > l[3] || (k[3] == l[3] && (k[4] > l[4] || (k[4] == l[4] && (k[5] > l[5] || (k[5] == l[5] &&
            (k[6] > l[6] || (k[6] == l[6] && k[7] > l[7])))))))))))))
  {
    hide Key, MissingFieldCount;
    var k, l := Key(a), Key(b);
    Unfold(k, l);
    Unfold(k[1..], l[1..]);
    Unfold(k[2..], l[2..]);
    Unfold(k[3..], l[3..]);
    Unfold(k[4..], l[4..]);
    Unfold(k[5..], l[5..]);
    Unfold(k[6..], l[6..]);
    Unfold(k[7..], l[7..]);
  }

  lemma Unfold(a: seq<real>, b: seq<real>)
    requires |a| == |b| > 0
    ensures Greater(a, b) <==> a[0] > b[0] || (a[0] == b[0] && Greater(a[1..], b[1..]))
    ensures |a| > 1 ==> a[1..][0] == a[1] && b[1..][0] == b[1] && a[1..][1..] == a[2..] && b[1..][1..] == b[2..]
    ensures |a| == 1 ==> a[1..] == []
  {
  }

  lemma PreferProper(a: ControlResult, b: ControlResult)
    requires Reachable(a) && Reachable(b) && |a.requiredTypes| > 0 && |b.requiredTypes| > 0
    ensures Prefer(a, b) <==> Greater(Key(a), Key(b))
  {
    hide MissingFieldCount, Reachable, Greater;
    var ra, rb := |a.requiredTypes|, |b.requiredTypes|;
    CrossMultiply(a.matchedRequiredTypes, ra, b.matchedRequiredTypes, rb);
    CrossMultiply(|a.presentTypes|, ra, |b.presentTypes|, rb);
    KeyOrder(a, b);
  }

  lemma PreferEmpty(a: ControlResult, b: ControlResult)
    requires Reachable(a) && Reachable(b) && Rank(a.status) == Rank(b.status)
    requires a.requiredTypes == {} || b.requiredTypes == {}
    ensures Prefer(a, b) <==> Greater(Key(a), Key(b))
  {
    hide MissingFieldCount, Greater;
    assert a.status.Gap? && b.status.Gap?;
    BelowTwo(a);
    BelowTwo(b);
    KeyOrder(a, b);
  }

  lemma BelowTwo(r: ControlResult)
    requires Reachable(r) && r.status.Gap?
    ensures r.requiredTypes == {} <==> Key(r)[2] == 2.0
    ensures r.requiredTypes != {} ==> Key(r)[2] <= 1.0
    ensures Key(r)[1] == 0.0
  {
    hide MissingFieldCount;
    if r.requiredTypes != {} {
      var p, d := |r.presentTypes| as real, |r.requiredTypes| as real;
      assert |r.requiredTypes| > 0;
      AtMostOne(p, d);
      assert Key(r)[2] == p / d;
    }
  }

  lemma AtMostOne(p: real, d: real)
    requires 0.0 <= p <= d && d > 0.0
    ensures p / d <= 1.0
  {
    var x := p / d;
    assert x * d == p;
    Scale(x, 1.0, d);
  }

  /** Main result. On reachable results the preference is a strict weak order, results without
      required types included. */
  lemma PreferIsStrictWeakOrder(a: ControlResult, b: ControlResult, c: ControlResult)
    requires Reachable(a) && Reachable(b) && Reachable(c)
    ensures !Prefer(a, a) && (Prefer(a, b) ==> !Prefer(b, a))
    ensures Prefer(a, b) && Prefer(b, c) ==> Prefer(a, c)
    ensures !Prefer(a, b) && !Prefer(b, c) ==> !Prefer(a, c)
  {
    PreferIsGreater(a, a);
    PreferIsGreater(a, b);
    PreferIsGreater(b, a);
    PreferIsGreater(b, c);
    PreferIsGreater(c, b);
    PreferIsGreater(a, c);
    hide Prefer, Reachable, Key;
    var x, y, z := Key(a), Key(b), Key(c);
    GreaterStrict(x, y);
    GreaterStrict(y, z);
    if !Greater(x, y) && !Greater(y, z) { GreaterNegative(x, y, z); }
    if Greater(x, y) && Greater(y, z) && !Greater(x, z) {
      GreaterNegative(x, z, y) by { assert !Greater(z, y); }
      assert false;
    }
  }

  // ----- The selected result -----

  /** Main result. The selected candidate is a maximum, and the first one among equals. */
  lemma {:induction false} SelectedIsFirstMaximum(cs: seq<ControlResult>)
    requires cs != [] && forall i :: 0 <= i < |cs| ==> Reachable(cs[i])
    ensures forall j :: 0 <= j < |cs| ==> !Prefer(cs[j], cs[Selected(cs)])
    ensures forall j :: 0 <= j < Selected(cs) ==> Prefer(cs[Selected(cs)], cs[j])
  {
    hide Prefer, Reachable;
    var n := |cs| - 1;
    PreferIsStrictWeakOrder(cs[n], cs[n], cs[n]);
    if n > 0 {
      var init := cs[..n];
      SelectedIsFirstMaximum(init);
      var k := Selected(init);
      forall j | 0 <= j < n
        ensures !Prefer(cs[j], cs[Selected(cs)])
        ensures j < Selected(cs) ==> Prefer(cs[Selected(cs)], cs[j])
      {
        assert init[j] == cs[j];
        PreferIsStrictWeakOrder(cs[n], cs[k], cs[j]);
        PreferIsStrictWeakOrder(cs[j], cs[k], cs[n]);
        PreferIsStrictWeakOrder(cs[n], cs[j], cs[k]);
      }
    }
  }

  lemma CandidatesReachable(o: Options, control: Control, records: seq<Record>)
    ensures forall i :: 0 <= i < |Candidates(o, control, records)| ==> Reachable(Candidates(o, control, records)[i])
  {
    hide Evaluated, Reachable, RequirementSets;
    forall i | 0 <= i < |Candidates(o, control, records)| ensures Reachable(Candidates(o, control, records)[i]) {
      FieldsNotBlank(control, i);
      EvaluatedReachable(o, RequirementSets(control)[i], records);
    }
  }

  /** The evidence sets are tried in the order of their ids. */
  lemma RequirementSetsAscend(control: Control, i: nat, j: nat)
    requires control.evidenceSets != [] && i < j < |RequirementSets(control)|
    ensures !Less(RequirementSets(control)[j].id, RequirementSets(control)[i].id)
  {
    var sets := SortBy(SetBefore, control.evidenceSets);
    SetsWeakOrder(control.evidenceSets);
    SortByAscending(SetBefore, control.evidenceSets);
    hide Less;
    assert !SetBefore(sets[j], sets[i]);
  }

  lemma SetsWeakOrder(sets: seq<EvidenceSet>)
    ensures WeakOrderOn(SetBefore, sets)
  {
    hide Less, Trim;
    forall x, y | x in sets && y in sets && SetBefore(x, y) ensures !SetBefore(y, x) {
      LessAsymmetric(Trim(x.id), Trim(y.id));
    }
    forall x, y, z | x in sets && y in sets && z in sets && !SetBefore(y, x) && !SetBefore(z, y)
      ensures !SetBefore(z, x) {
      LessNotTransitive(Trim(x.id), Trim(y.id), Trim(z.id));
    }
  }

  /** Main result. Among the evidence sets no other is preferred to, the one with the smallest id is
      selected. */
  lemma TiesGoToSmallestId(o: Options, control: Control, records: seq<Record>, j: nat)
    requires control.evidenceSets != [] && j < |RequirementSets(control)|
    ensures var qs, cs := RequirementSets(control), Candidates(o, control, records);
            !Prefer(cs[Selected(cs)], cs[j]) ==> !Less(qs[j].id, qs[Selected(cs)].id)
  {
    hide Prefer, RequirementSets, Evaluated, Reachable, Selected, Less;
    var cs := Candidates(o, control, records);
    CandidatesReachable(o, control, records);
    SelectedIsFirstMaximum(cs);
    if Selected(cs) < j {
      RequirementSetsAscend(control, Selected(cs), j);
    } else if j == Selected(cs) {
      LessIrreflexive(RequirementSets(control)[j].id);
    }
  }

  /** Sets with equal ids may be tried in either order: whatever the arrangement, the selected results
      are tied, with the same status. */
  lemma SelectionUpToTies(cs: seq<ControlResult>, ds: seq<ControlResult>)
    requires cs != [] && multiset(cs) == multiset(ds) && forall c :: c in cs ==> Reachable(c)
    ensures ds != []
    ensures !Prefer(cs[Selected(cs)], ds[Selected(ds)]) && !Prefer(ds[Selected(ds)], cs[Selected(cs)])
    ensures cs[Selected(cs)].status == ds[Selected(ds)].status
  {
    hide Reachable, Selected, MissingFieldCount;
    assert |multiset(cs)| == |cs| && |multiset(ds)| == |ds|;
    forall d | d in ds ensures d in cs { Member(d, ds, cs); }
    SelectedIsFirstMaximum(cs);
    SelectedIsFirstMaximum(ds);
    Member(cs[Selected(cs)], cs, ds);
    Member(ds[Selected(ds)], ds, cs);
    var i :| 0 <= i < |ds| && ds[i] == cs[Selected(cs)];
    var j :| 0 <= j < |cs| && cs[j] == ds[Selected(ds)];
    RankDiffers(cs[Selected(cs)], ds[Selected(ds)]);
    hide Prefer;
  }

  lemma RankDiffers(a: ControlResult, b: ControlResult)
    ensures a.status != b.status ==> Prefer(a, b) || Prefer(b, a)
  {
    hide MissingFieldCount;
  }

  ghost function ControlResultOf(o: Options, control: Control, records: seq<Record>): ControlResult {
    var cs := Candidates(o, control, records);
    cs[Selected(cs)]
  }

  /** A control has the best rank any of its evidence sets reaches. */
  lemma SelectedHasBestRank(o: Options, control: Control, records: seq<Record>)
    ensures var cs := Candidates(o, control, records);
            && (exists i :: 0 <= i < |cs| && cs[i].status == ControlResultOf(o, control, records).status)
            && (forall i :: 0 <= i < |cs| ==> Rank(cs[i].status) <= Rank(ControlResultOf(o, control, records).status))
  {
    var cs := Candidates(o, control, records);
    CandidatesReachable(o, control, records);
    SelectedIsFirstMaximum(cs);
    hide Selected, Candidates, MissingFieldCount;
    assert cs[Selected(cs)].status == ControlResultOf(o, control, records).status;
    forall i | 0 <= i < |cs| ensures Rank(cs[i].status) <= Rank(cs[Selected(cs)].status) {
      assert !Prefer(cs[i], cs[Selected(cs)]);
    }
  }

  // ----- What coverage means -----

  /** A usable record that meets every requirement. */
  predicate Meets(o: Options, q: Requirements, r: Record) {
    InScope(q, r) && !Excluded(o, r) && StatusOf(q, r).Matched?
  }

  predicate PartlyMeets(o: Options, q: Requirements, r: Record) {
    InScope(q, r) && !Excluded(o, r) && StatusOf(q, r).Partial?
  }

  /** How one record moves the quantities coverage depends on. */
  lemma TallyStep(o: Options, q: Requirements, start: Option<int>, t: Tally, r: Record)
    ensures var t' := Tallied(o, q, start, t, r);
            && (t'.matched > 0 <==> t.matched > 0 || Meets(o, q, r))
            && (t'.partial > 0 <==> t.partial > 0 || PartlyMeets(o, q, r))
            && (t'.matchedInWindow > 0 <==> t.matchedInWindow > 0 || (Meets(o, q, r) && InWindow(start, r)))
            && t'.matchedTypes == t.matchedTypes + if Meets(o, q, r) && InWindow(start, r) then {TypeOf(r)} else {}
  {
    hide InScope, Excluded, StatusOf, Missing, Present, RecordReasons, InWindow, TypeOf;
  }

  /** Some record of a given standing, over one more record. */
  lemma ExistsSnoc(init: seq<Record>, r: Record, p: Record -> bool)
    ensures (exists x :: x in init + [r] && p(x)) <==> (exists x :: x in init && p(x)) || p(r)
  {
    if x :| x in init && p(x) { assert x in init + [r]; }
    if p(r) { assert r in init + [r]; }
  }

  lemma {:induction false} TallyMeaning(o: Options, q: Requirements, start: Option<int>, records: seq<Record>)
    ensures var t := TallyAll(o, q, start, records);
            && (t.matched > 0 <==> exists r :: r in records && Meets(o, q, r))
            && (t.partial > 0 <==> exists r :: r in records && PartlyMeets(o, q, r))
            && (t.matchedInWindow > 0 <==> exists r :: r in records && Meets(o, q, r) && InWindow(start, r))
  {
    if records != [] {
      hide Tallied, Meets, PartlyMeets, InWindow, TypeOf;
      var init, r := records[..|records| - 1], records[|records| - 1];
      TallyMeaning(o, q, start, init);
      TallyStep(o, q, start, TallyAll(o, q, start, init), r);
      assert records == init + [r];
      ExistsSnoc(init, r, x => Meets(o, q, x));
      ExistsSnoc(init, r, x => PartlyMeets(o, q, x));
      ExistsSnoc(init, r, x => Meets(o, q, x) && InWindow(start, x));
    }
  }

  lemma {:induction false} TypesMeaning(o: Options, q: Requirements, start: Option<int>, records: seq<Record>,
                                        ty: string)
    ensures ty in TallyAll(o, q, start, records).matchedTypes <==>
              exists r :: r in records && Meets(o, q, r) && InWindow(start, r) && TypeOf(r) == ty
  {
    if records != [] {
      hide Tallied, Meets, PartlyMeets, InWindow, TypeOf;
      var init, r := records[..|records| - 1], records[|records| - 1];
      TypesMeaning(o, q, start, init, ty);
      TallyStep(o, q, start, TallyAll(o, q, start, init), r);
      assert records == init + [r];
      ExistsSnoc(init, r, x => Meets(o, q, x) && InWindow(start, x) && TypeOf(x) == ty);
    }
  }

  /** An evidence set is satisfied: a record in the window meets it, and if every type is required,
      one of each type does. */
  ghost predicate Satisfied(o: Options, q: Requirements, records: seq<Record>) {
    var start := WindowStart(o, q, records);
    && (exists r :: r in records && Meets(o, q, r) && InWindow(start, r))
    && (q.requireAll ==> forall ty :: ty in q.types ==>
          exists r :: r in records && Meets(o, q, r) && InWindow(start, r) && TypeOf(r) == ty)
  }

  lemma StatusMeaning(o: Options, q: Requirements, records: seq<Record>)
    ensures Evaluated(o, q, records).status.Covered? <==> Satisfied(o, q, records)
    ensures Rank(Evaluated(o, q, records).status) >= 1 <==>
            exists r :: r in records && (Meets(o, q, r) || PartlyMeets(o, q, r))
  {
    var start := WindowStart(o, q, records);
    TallyMeaning(o, q, start, records);
    Conservation(o, q, start, records);
    hide Meets, PartlyMeets, InWindow, TypeOf, TallyAll, WindowStart;
    forall ty | ty in q.types
      ensures ty in TallyAll(o, q, start, records).matchedTypes <==>
                exists r :: r in records && Meets(o, q, r) && InWindow(start, r) && TypeOf(r) == ty
    {
      TypesMeaning(o, q, start, records, ty);
    }
  }

  /** Main result. A control is covered if and only if one of its evidence sets is satisfied. */
  lemma CoveredIffSomeSetSatisfied(o: Options, control: Control, records: seq<Record>)
    ensures ControlResultOf(o, control, records).status.Covered? <==>
            exists i :: 0 <= i < |RequirementSets(control)| && Satisfied(o, RequirementSets(control)[i], records)
  {
    SelectedHasBestRank(o, control, records);
    var cs := Candidates(o, control, records);
    forall i | 0 <= i < |cs| ensures cs[i].status.Covered? <==> Satisfied(o, RequirementSets(control)[i], records) {
      StatusMeaning(o, RequirementSets(control)[i], records);
    }
    hide Candidates, RequirementSets, Satisfied, ControlResultOf;
  }

  // ----- Evidence is monotone -----

  ghost predicate NoWindow(q: Requirements) {
    Lower(q.minimumFrequency) !in {"quarterly", "monthly", "weekly", "daily"}
  }

  /** Main result. For requirement sets without a frequency window, adding records never lowers the
      status. */
  lemma MoreEvidenceKeepsStatus(o: Options, q: Requirements, fewer: seq<Record>, more: seq<Record>)
    requires NoWindow(q) && forall r :: r in fewer ==> r in more
    ensures Rank(Evaluated(o, q, fewer).status) <= Rank(Evaluated(o, q, more).status)
  {
    StatusMeaning(o, q, fewer);
    StatusMeaning(o, q, more);
    assert WindowStart(o, q, fewer) == None && WindowStart(o, q, more) == None;
    hide Evaluated, Meets, PartlyMeets, TypeOf, WindowStart;
    if Satisfied(o, q, fewer) {
      var r :| r in fewer && Meets(o, q, r) && InWindow(None, r);
      assert r in more;
      assert Satisfied(o, q, more);
    }
  }

  lemma MoreEvidenceKeepsControl(o: Options, control: Control, fewer: seq<Record>, more: seq<Record>)
    requires forall i :: 0 <= i < |RequirementSets(control)| ==> NoWindow(RequirementSets(control)[i])
    requires forall r :: r in fewer ==> r in more
    ensures Rank(ControlResultOf(o, control, fewer).status) <= Rank(ControlResultOf(o, control, more).status)
  {
    SelectedHasBestRank(o, control, fewer);
    SelectedHasBestRank(o, control, more);
    hide Evaluated, RequirementSets, NoWindow, ControlResultOf;
    var cs, ds := Candidates(o, control, fewer), Candidates(o, control, more);
    var i :| 0 <= i < |cs| && cs[i].status == ControlResultOf(o, control, fewer).status;
    MoreEvidenceKeepsStatus(o, RequirementSets(control)[i], fewer, more);
    assert ds[i] == Evaluated(o, RequirementSets(control)[i], more);
  }

  /** The remediation list names exactly as many types as the comparator counts missing. */
  lemma MissingTypesCount(o: Options, q: Requirements, records: seq<Record>)
    ensures var r := Evaluated(o, q, records);
            |MissingRequiredTypes(r)| == |r.requiredTypes| - |r.presentTypes|
  {
    var r := Evaluated(o, q, records);
    Conservation(o, q, WindowStart(o, q, records), records);
    assert MissingRequiredTypes(r) == r.requiredTypes - r.presentTypes;
    assert r.requiredTypes == r.presentTypes + (r.requiredTypes - r.presentTypes);
  }
}
