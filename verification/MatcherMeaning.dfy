/** What a result of the matcher says of the records, in terms of their types, products, fields and
    times alone. */
module MatcherMeaning {
  import opened Prelude
  import opened Text
  import opened Sorting
  import opened Matcher
  import opened MatcherChoice
  import opened MatcherWindows

  // ----- One record -----

  /** The set asks for records of this type, and of this product if it names any. */
  predicate Asked(q: Requirements, r: Record) {
    && Lower(Trim(r.recordType)) in q.types
    && (q.sourceProducts == {} || Lower(Trim(r.sourceProduct)) in q.sourceProducts)
  }

  predicate Usable(o: Options, r: Record) {
    !(o.excludeInvalid && r.invalid)
  }

  /** Some required field is absent, or some identity linkage. */
  ghost predicate Lacking(q: Requirements, r: Record) {
    (exists f :: f in q.fields && f !in r.fields) || (exists f :: f in r.identityMissing && Trim(f) != "")
  }

  ghost predicate HasSome(q: Requirements, r: Record) {
    exists f :: f in q.fields && f in r.fields
  }

  ghost predicate FullyMet(o: Options, q: Requirements, r: Record) {
    Asked(q, r) && Usable(o, r) && !Lacking(q, r)
  }

  ghost predicate PartlyMet(o: Options, q: Requirements, r: Record) {
    Asked(q, r) && Usable(o, r) && Lacking(q, r) && HasSome(q, r)
  }

  lemma ScopeIsAsked(q: Requirements, r: Record)
    ensures InScope(q, r) <==> Asked(q, r)
  {
    hide Lower, Trim;
  }

  lemma MissingIsLacking(q: Requirements, r: Record)
    ensures Missing(q, r) == {} <==> !Lacking(q, r)
    ensures Present(q, r) == {} <==> !HasSome(q, r)
  {
    hide Trim;
    if f :| f in q.fields && f !in r.fields { assert f in Missing(q, r); }
    if f :| f in r.identityMissing && Trim(f) != "" { assert Trim(f) in Missing(q, r); }
    if f :| f in q.fields && f in r.fields { assert f in Present(q, r); }
  }

  /** Main result. The standing of one record under one requirement set. */
  lemma StandingMeans(o: Options, q: Requirements, r: Record)
    ensures Meets(o, q, r) <==> FullyMet(o, q, r)
    ensures PartlyMeets(o, q, r) <==> PartlyMet(o, q, r)
  {
    ScopeIsAsked(q, r);
    MissingIsLacking(q, r);
    hide InScope, Asked, Lacking, HasSome, Missing, Present;
  }

  // ----- The counts -----

  ghost function Count(records: seq<Record>, p: Record -> bool): nat {
    if records == [] then 0
    else Count(records[..|records| - 1], p) + if p(records[|records| - 1]) then 1 else 0
  }

  lemma TallyCounts(o: Options, q: Requirements, start: Option<int>, t: Tally, r: Record)
    ensures var t' := Tallied(o, q, start, t, r);
            && t'.candidates == t.candidates + (if Asked(q, r) then 1 else 0)
            && t'.matched == t.matched + (if FullyMet(o, q, r) then 1 else 0)
            && t'.partial == t.partial + (if PartlyMet(o, q, r) then 1 else 0)
            && t'.invalidExcluded == t.invalidExcluded + (if Asked(q, r) && !Usable(o, r) then 1 else 0)
            && t'.presentTypes ==
               t.presentTypes + (if Asked(q, r) && Usable(o, r) && InWindow(start, r) then {TypeOf(r)} else {})
  {
    ScopeIsAsked(q, r);
    MissingIsLacking(q, r);
    hide InScope, Asked, Lacking, HasSome, Missing, Present, InWindow, TypeOf, RecordReasons;
  }

  /** Main result. The counters count the records asked for, and among them those fully met, partly met
      and set aside as invalid. */
  lemma {:induction false} CountsMean(o: Options, q: Requirements, start: Option<int>, records: seq<Record>)
    ensures var t := TallyAll(o, q, start, records);
            && t.candidates == Count(records, r => Asked(q, r))
            && t.matched == Count(records, r => FullyMet(o, q, r))
            && t.partial == Count(records, r => PartlyMet(o, q, r))
            && t.invalidExcluded == Count(records, r => Asked(q, r) && !Usable(o, r))
  {
    if records != [] {
      hide Tallied, Asked, FullyMet, PartlyMet, Usable;
      var init := records[..|records| - 1];
      CountsMean(o, q, start, init);
      TallyCounts(o, q, start, TallyAll(o, q, start, init), records[|records| - 1]);
    }
  }

  lemma {:induction false} PresentMeans(o: Options, q: Requirements, start: Option<int>, records: seq<Record>,
                                        ty: string)
    ensures ty in TallyAll(o, q, start, records).presentTypes <==>
            exists r :: r in records && Asked(q, r) && Usable(o, r) && InWindow(start, r) && TypeOf(r) == ty
  {
    if records != [] {
      hide Tallied, Asked, Usable, InWindow, TypeOf;
      var init, last := records[..|records| - 1], records[|records| - 1];
      PresentMeans(o, q, start, init, ty);
      TallyCounts(o, q, start, TallyAll(o, q, start, init), last);
      assert records == init + [last];
      ExistsSnoc(init, last, x => Asked(q, x) && Usable(o, x) && InWindow(start, x) && TypeOf(x) == ty);
    }
  }

  // ----- The status -----

  /** The record is met in full, and no record a whole window later follows. */
  ghost predicate Current(o: Options, q: Requirements, records: seq<Record>, r: Record)
    requires records != []
  {
    r in records && FullyMet(o, q, r) && !WindowAfter(o, q, r, records[|records| - 1])
  }

  ghost predicate CoveredPlainly(o: Options, q: Requirements, records: seq<Record>) {
    && records != [] && (exists r :: Current(o, q, records, r))
    && (q.requireAll ==> forall ty :: ty in q.types ==>
          exists r :: Current(o, q, records, r) && Lower(Trim(r.recordType)) == ty)
  }

  lemma MatchedInWindow(o: Options, q: Requirements, records: seq<Record>, r: Record)
    requires records != []
    ensures r in records && Meets(o, q, r) && InWindow(WindowStart(o, q, records), r) <==> Current(o, q, records, r)
  {
    StandingMeans(o, q, r);
    InWindowIff(o, q, records, r);
    hide Meets, FullyMet, InWindow, WindowStart, WindowAfter;
  }

  /** Main result. A set is covered when some current record meets it in full, and one of every type if
      all are required; it is a gap when no record meets it even in part. */
  lemma StatusMeans(o: Options, q: Requirements, records: seq<Record>)
    ensures var status := Evaluated(o, q, records).status;
            && (status.Covered? <==> CoveredPlainly(o, q, records))
            && (status.Gap? <==> forall r :: r in records ==> !FullyMet(o, q, r) && !PartlyMet(o, q, r))
  {
    hide Evaluated, Meets, PartlyMeets, InWindow, WindowStart, Current, FullyMet, PartlyMet, Lower, Trim;
    StatusMeaning(o, q, records);
    forall r ensures (Meets(o, q, r) <==> FullyMet(o, q, r)) && (PartlyMeets(o, q, r) <==> PartlyMet(o, q, r)) {
      StandingMeans(o, q, r);
    }
    if records != [] {
      forall r
        ensures r in records && Meets(o, q, r) && InWindow(WindowStart(o, q, records), r) <==> Current(o, q, records, r)
      {
        MatchedInWindow(o, q, records, r);
      }
    }
  }

  // ----- The reasons -----

  lemma NoIdentityReasons(evidence: seq<RecordMatch>)
    ensures forall code :: code in CODES ==> code !in IdentityReasons(evidence)
  {
    forall code | code in CODES ensures !IdentityReason(Trim(code)) {
      CodeIsNoIdentity(code);
    }
    hide IdentityReason, Trim, CODES;
  }

  const CODES: seq<string> :=
    ["CONTROL_COVERED", "CONTROL_PARTIAL", "CONTROL_GAP", "FREQUENCY_NOT_MET", "REQUIRED_RECORD_TYPES_NOT_MET",
     "NO_RECORD_TYPE_MATCH", "INVALID_EVIDENCE_CLASS"]

  /** Every identity reason starts with M, U or INC. */
  lemma IdentityStarts(s: string)
    requires IdentityReason(s)
    ensures |s| > 2 && (s[0] in {'M', 'U'} || s[2] == 'C')
  {
  }

  lemma CodeStarts(code: string)
    requires code in CODES
    ensures |code| > 2 && code[0] !in {'M', 'U'} && code[2] != 'C'
    ensures !IsSpace(code[0]) && !IsSpace(code[|code| - 1])
  {
  }

  lemma SolidTrim(s: string)
    requires s != "" && !IsSpace(s[0]) && !IsSpace(s[|s| - 1])
    ensures Trim(s) == s
  {
    assert TrimLeft(s) == s;
    assert TrimRight(s) == s;
  }

  lemma CodeIsNoIdentity(code: string)
    requires code in CODES
    ensures !IdentityReason(Trim(code))
  {
    hide *;
    CodeStarts(code);
    SolidTrim(code);
    if IdentityReason(code) { IdentityStarts(code); }
  }

  lemma CodesListed()
    ensures "CONTROL_COVERED" in CODES && "CONTROL_PARTIAL" in CODES && "CONTROL_GAP" in CODES
    ensures "FREQUENCY_NOT_MET" in CODES && "REQUIRED_RECORD_TYPES_NOT_MET" in CODES
    ensures "NO_RECORD_TYPE_MATCH" in CODES && "INVALID_EVIDENCE_CLASS" in CODES
  {
    assert CODES[0] in CODES && CODES[1] in CODES && CODES[2] in CODES && CODES[3] in CODES;
    assert CODES[4] in CODES && CODES[5] in CODES && CODES[6] in CODES;
  }

  /** No two codes start with the same letter, but for those on the status, which differ further on. */
  lemma CodesDiffer()
    ensures "CONTROL_COVERED" != "CONTROL_PARTIAL" && "CONTROL_COVERED" != "CONTROL_GAP" &&
            "CONTROL_PARTIAL" != "CONTROL_GAP"
    ensures forall code :: code in {"CONTROL_COVERED", "CONTROL_PARTIAL", "CONTROL_GAP"} ==>
            code != "" && code[0] == 'C'
    ensures "FREQUENCY_NOT_MET"[0] == 'F' && "REQUIRED_RECORD_TYPES_NOT_MET"[0] == 'R'
    ensures "NO_RECORD_TYPE_MATCH"[0] == 'N' && "INVALID_EVIDENCE_CLASS"[0] == 'I'
  {
    assert "CONTROL_COVERED"[8] != "CONTROL_PARTIAL"[8];
  }

  /** Main result. Each reason code is given exactly when what it says is so. */
  lemma ReasonsMean(o: Options, q: Requirements, records: seq<Record>)
    ensures var r := Evaluated(o, q, records);
            && ("CONTROL_COVERED" in r.reasons <==> r.status.Covered?)
            && ("CONTROL_PARTIAL" in r.reasons <==> r.status.PartlyCovered?)
            && ("CONTROL_GAP" in r.reasons <==> r.status.Gap?)
            && ("FREQUENCY_NOT_MET" in r.reasons <==> records == [] || !exists x :: Current(o, q, records, x))
            && ("REQUIRED_RECORD_TYPES_NOT_MET" in r.reasons <==>
                  q.requireAll && exists ty :: ty in q.types && !(exists x :: CurrentOf(o, q, records, x, ty)))
            && ("NO_RECORD_TYPE_MATCH" in r.reasons <==> !exists x :: x in records && Asked(q, x))
            && ("INVALID_EVIDENCE_CLASS" in r.reasons <==> exists x :: x in records && Asked(q, x) && !Usable(o, x))
  {
    hide *;
    var t := TallyAll(o, q, WindowStart(o, q, records), records);
    DecideReasons(q, t);
    EvaluatedIs(o, q, records);
    FrequencyMeans(o, q, records);
    TypesMean(o, q, records);
    AskedMeans(o, q, WindowStart(o, q, records), records);
  }

  ghost predicate CurrentOf(o: Options, q: Requirements, records: seq<Record>, r: Record, ty: string) {
    records != [] && Current(o, q, records, r) && TypeOf(r) == ty
  }

  lemma EvaluatedIs(o: Options, q: Requirements, records: seq<Record>)
    ensures Evaluated(o, q, records) == Decide(q, TallyAll(o, q, WindowStart(o, q, records), records))
  {
    hide Decide, TallyAll, WindowStart;
  }

  function StatusCode(status: ControlStatus): string {
    match status case Covered => "CONTROL_COVERED" case PartlyCovered => "CONTROL_PARTIAL" case Gap => "CONTROL_GAP"
  }

  lemma ReasonIn(q: Requirements, t: Tally, code: string)
    ensures var r := Decide(q, t);
            code in r.reasons <==>
            || code == StatusCode(r.status)
            || (t.matchedInWindow == 0 && code == "FREQUENCY_NOT_MET")
            || (q.requireAll && !(q.types <= t.matchedTypes) && code == "REQUIRED_RECORD_TYPES_NOT_MET")
            || (t.candidates == 0 && code == "NO_RECORD_TYPE_MATCH")
            || (t.invalidExcluded > 0 && code == "INVALID_EVIDENCE_CLASS")
            || code in IdentityReasons(t.evidence)
  {
    hide IdentityReasons;
  }

  lemma StatusCodes()
    ensures StatusCode(Covered) == "CONTROL_COVERED" && StatusCode(PartlyCovered) == "CONTROL_PARTIAL"
    ensures StatusCode(Gap) == "CONTROL_GAP"
    ensures forall status :: StatusCode(status) in {"CONTROL_COVERED", "CONTROL_PARTIAL", "CONTROL_GAP"}
  {
  }

  lemma DecideReasons(q: Requirements, t: Tally)
    ensures var r := Decide(q, t);
            && ("CONTROL_COVERED" in r.reasons <==> r.status.Covered?)
            && ("CONTROL_PARTIAL" in r.reasons <==> r.status.PartlyCovered?)
            && ("CONTROL_GAP" in r.reasons <==> r.status.Gap?)
            && ("FREQUENCY_NOT_MET" in r.reasons <==> t.matchedInWindow == 0)
            && ("REQUIRED_RECORD_TYPES_NOT_MET" in r.reasons <==> q.requireAll && !(q.types <= t.matchedTypes))
            && ("NO_RECORD_TYPE_MATCH" in r.reasons <==> t.candidates == 0)
            && ("INVALID_EVIDENCE_CLASS" in r.reasons <==> t.invalidExcluded > 0)
  {
    hide *;
    CodesDiffer();
    CodesListed();
    StatusCodes();
    NoIdentityReasons(t.evidence);
    ReasonIn(q, t, "CONTROL_COVERED");
    ReasonIn(q, t, "CONTROL_PARTIAL");
    ReasonIn(q, t, "CONTROL_GAP");
    ReasonIn(q, t, "FREQUENCY_NOT_MET");
    ReasonIn(q, t, "REQUIRED_RECORD_TYPES_NOT_MET");
    ReasonIn(q, t, "NO_RECORD_TYPE_MATCH");
    ReasonIn(q, t, "INVALID_EVIDENCE_CLASS");
  }

  lemma FrequencyMeans(o: Options, q: Requirements, records: seq<Record>)
    ensures var t := TallyAll(o, q, WindowStart(o, q, records), records);
            t.matchedInWindow == 0 <==> records == [] || !exists x :: Current(o, q, records, x)
  {
    hide Current, Meets, InWindow, WindowStart, TallyAll;
    TallyMeaning(o, q, WindowStart(o, q, records), records);
    if records != [] {
      forall x
        ensures x in records && Meets(o, q, x) && InWindow(WindowStart(o, q, records), x) <==> Current(o, q, records, x)
      {
        MatchedInWindow(o, q, records, x);
      }
    }
  }

  lemma TypesMean(o: Options, q: Requirements, records: seq<Record>)
    ensures var t := TallyAll(o, q, WindowStart(o, q, records), records);
            q.types <= t.matchedTypes <==> forall ty :: ty in q.types ==> exists x :: CurrentOf(o, q, records, x, ty)
  {
    hide CurrentOf, TallyAll, WindowStart;
    forall ty | ty in q.types
      ensures ty in TallyAll(o, q, WindowStart(o, q, records), records).matchedTypes <==>
              exists x :: CurrentOf(o, q, records, x, ty)
    {
      TypeMeans(o, q, records, ty);
    }
  }

  lemma TypeMeans(o: Options, q: Requirements, records: seq<Record>, ty: string)
    ensures ty in TallyAll(o, q, WindowStart(o, q, records), records).matchedTypes <==>
            exists x :: CurrentOf(o, q, records, x, ty)
  {
    hide Current, Meets, InWindow, WindowStart, TallyAll, TypeOf;
    TypesMeaning(o, q, WindowStart(o, q, records), records, ty);
    if x :| x in records && Meets(o, q, x) && InWindow(WindowStart(o, q, records), x) && TypeOf(x) == ty {
      MatchedInWindow(o, q, records, x);
      assert CurrentOf(o, q, records, x, ty);
    }
    if x :| CurrentOf(o, q, records, x, ty) {
      MatchedInWindow(o, q, records, x);
    }
  }

  lemma {:induction false} AskedMeans(o: Options, q: Requirements, start: Option<int>, records: seq<Record>)
    ensures var t := TallyAll(o, q, start, records);
            && (t.candidates == 0 <==> !exists x :: x in records && Asked(q, x))
            && (t.invalidExcluded > 0 <==> exists x :: x in records && Asked(q, x) && !Usable(o, x))
  {
    if records != [] {
      hide Tallied, Asked, Usable;
      var init, last := records[..|records| - 1], records[|records| - 1];
      AskedMeans(o, q, start, init);
      TallyCounts(o, q, start, TallyAll(o, q, start, init), last);
      assert records == init + [last];
      ExistsSnoc(init, last, x => Asked(q, x));
      ExistsSnoc(init, last, x => Asked(q, x) && !Usable(o, x));
    }
  }

  // ----- The evidence list -----

  ghost predicate Describes(o: Options, q: Requirements, r: Record, m: RecordMatch) {
    && m.recordID == Trim(r.recordID)
    && (m.status == Matched <==> FullyMet(o, q, r)) && (m.status == Partial <==> PartlyMet(o, q, r))
    && (forall f :: f in m.matched <==> f in q.fields && f in r.fields)
    && (forall f :: f in q.fields && f !in r.fields ==> f in m.missing)
    && (forall f :: f in m.missing ==>
          (f in q.fields && f !in r.fields) ||
              (Usable(o, r) && exists g :: g in r.identityMissing && f == Trim(g) && f != ""))
    && m.reasons ==
       (if !Usable(o, r) then {"INVALID_EVIDENCE", r.invalidCode}
        else if m.status == Matched then {"MATCHED"}
        else {if m.status == Partial then "PARTIAL_FIELD_MATCH" else "MISSING_REQUIRED_FIELDS"} + r.identityReasons)
  }

  /** The records asked for. */
  function Pertinent(q: Requirements, records: seq<Record>): seq<Record> {
    FlatMap((r: Record) => if Asked(q, r) then [r] else [], records)
  }

  /** Main result. The evidence lists the records asked for, in order, each with its standing. */
  lemma {:induction false} EvidenceMeans(o: Options, q: Requirements, start: Option<int>, records: seq<Record>)
    ensures var evidence := TallyAll(o, q, start, records).evidence;
            && |evidence| == |Pertinent(q, records)|
            && forall i :: 0 <= i < |evidence| ==> Describes(o, q, Pertinent(q, records)[i], evidence[i])
  {
    if records != [] {
      hide Tallied, Asked, Describes;
      var init, last := records[..|records| - 1], records[|records| - 1];
      EvidenceMeans(o, q, start, init);
      EntryDescribes(o, q, start, TallyAll(o, q, start, init), last);
      assert Pertinent(q, records) == Pertinent(q, init) + if Asked(q, last) then [last] else [];
    }
  }

  lemma EntryDescribes(o: Options, q: Requirements, start: Option<int>, t: Tally, r: Record)
    ensures var after := Tallied(o, q, start, t, r).evidence;
            if Asked(q, r) then |after| == |t.evidence| + 1 && after[..|t.evidence|] == t.evidence &&
                Describes(o, q, r, after[|t.evidence|])
            else after == t.evidence
  {
    ScopeIsAsked(q, r);
    MissingIsLacking(q, r);
    StandingMeans(o, q, r);
    MissingHolds(q, r);
    hide InScope, Asked, Lacking, HasSome, Meets, PartlyMeets, Trim;
  }

  lemma MissingHolds(q: Requirements, r: Record)
    ensures forall f :: f in Missing(q, r) <==>
              (f in q.fields && f !in r.fields) || exists g :: g in r.identityMissing && f == Trim(g) && f != ""
  {
    hide Trim;
  }

  /** Main result. A type is listed for remediation exactly when it is required and no usable record of
      it lies in the window. */
  lemma RemediationMeans(o: Options, q: Requirements, records: seq<Record>, ty: string)
    ensures ty in MissingRequiredTypes(Evaluated(o, q, records)) <==>
            && ty in q.types
            && !exists r ::
                 && r in records && Asked(q, r) && Usable(o, r)
                 && InWindow(WindowStart(o, q, records), r) && TypeOf(r) == ty
  {
    EvaluatedIs(o, q, records);
    PresentMeans(o, q, WindowStart(o, q, records), records, ty);
    hide TallyAll, WindowStart, Asked, Usable, InWindow, TypeOf, IdentityReasons;
  }

  // ----- The requirement sets -----

  /** `listed` holds the trimmed forms of the entries that are not blank. */
  ghost predicate Trimmed(listed: set<string>, entries: seq<string>) {
    forall x :: x in listed <==> x != "" && exists i :: 0 <= i < |entries| && x == Trim(entries[i])
  }

  /** The same for entries whose case does not matter. */
  ghost predicate Lowered(listed: set<string>, entries: seq<string>) {
    forall x :: x in listed <==> x != "" && exists i :: 0 <= i < |entries| && x == Trim(Lower(Trim(entries[i])))
  }

  ghost predicate Stands(q: Requirements, s: EvidenceSet) {
    && q.id == Trim(s.id) && q.minimumFrequency == Trim(s.minimumFrequency) && q.requireAll
    && Lowered(q.sourceProducts, s.sourceProducts) && Lowered(q.types, s.requiredRecordTypes)
    && Trimmed(q.fields, s.requiredFields)
  }

  lemma SetStands(s: EvidenceSet)
    ensures Stands(FromSet(s), s)
  {
    LoweredIs(s.sourceProducts);
    LoweredIs(s.requiredRecordTypes);
    TrimmedIs(s.requiredFields);
    hide LoweredSet, TrimmedSet, Trim, Lowered, Trimmed;
  }

  lemma LoweredIs(xs: seq<string>)
    ensures Lowered(LoweredSet(xs), xs)
  {
    hide Trim, Lower;
    forall x | x in LoweredSet(xs) ensures exists i :: 0 <= i < |xs| && x == Trim(Lower(Trim(xs[i]))) {
      var y :| y in xs && x == Trim(Lower(Trim(y)));
      var i :| 0 <= i < |xs| && xs[i] == y;
    }
    forall i | 0 <= i < |xs| && Trim(Lower(Trim(xs[i]))) != "" ensures Trim(Lower(Trim(xs[i]))) in LoweredSet(xs) {
      assert xs[i] in xs;
    }
  }

  lemma TrimmedIs(xs: seq<string>)
    ensures Trimmed(TrimmedSet(xs), xs)
  {
    hide Trim;
    forall x | x in TrimmedSet(xs) ensures exists i :: 0 <= i < |xs| && x == Trim(xs[i]) {
      var y :| y in xs && x == Trim(y);
      var i :| 0 <= i < |xs| && xs[i] == y;
    }
    forall i | 0 <= i < |xs| && Trim(xs[i]) != "" ensures Trim(xs[i]) in TrimmedSet(xs) {
      assert xs[i] in xs;
    }
  }

  /** A control without evidence sets has one requirement set, its own, that needs no type in particular. */
  lemma OwnRequirements(control: Control)
    requires control.evidenceSets == []
    ensures |RequirementSets(control)| == 1
    ensures var q := RequirementSets(control)[0];
            && q.id == "" && q.sourceProducts == {} && !q.requireAll &&
               q.minimumFrequency == Trim(control.minimumFrequency)
            && Trimmed(q.types, control.requiredRecordTypes) && Trimmed(q.fields, control.requiredFields)
  {
    TrimmedIs(control.requiredRecordTypes);
    TrimmedIs(control.requiredFields);
    hide TrimmedSet, Trim, Trimmed;
  }

  /** Otherwise it has one for each evidence set, in the order of a sorted arrangement of them. */
  lemma SetRequirements(control: Control) returns (sets: seq<EvidenceSet>)
    requires control.evidenceSets != []
    ensures multiset(sets) == multiset(control.evidenceSets) && |sets| == |RequirementSets(control)|
    ensures forall i :: 0 <= i < |sets| ==> Stands(RequirementSets(control)[i], sets[i])
  {
    sets := SortBy(SetBefore, control.evidenceSets);
    assert |multiset(sets)| == |sets|;
    forall i | 0 <= i < |sets| ensures Stands(RequirementSets(control)[i], sets[i]) {
      SetStands(sets[i]);
    }
    hide FromSet, Stands;
  }
}
