/** The compliance matcher (core/compliance/match/matcher.go): each evidence set of a control is
    scored against the records, and the preferred result is selected. Lists that the code keeps
    trimmed, sorted and free of duplicates are sets here. */
module Matcher {
  import opened Prelude
  import opened Text
  import opened Sorting

  /** A record as the matcher sees it: which field paths exist, whether its evidence class is
      invalid, and what identity linkage it lacks. */
  datatype Record = Record(
    recordID: string, recordType: string, sourceProduct: string, timestamp: int,
    fields: set<string>, invalid: bool, invalidCode: string,
    identityMissing: set<string>, identityReasons: set<string>)

  datatype EvidenceSet = EvidenceSet(id: string, sourceProducts: seq<string>, requiredRecordTypes: seq<string>,
                                     requiredFields: seq<string>, minimumFrequency: string)

  datatype Control = Control(requiredRecordTypes: seq<string>, requiredFields: seq<string>,
                             minimumFrequency: string, evidenceSets: seq<EvidenceSet>)

  datatype Requirements = Requirements(id: string, sourceProducts: set<string>, types: set<string>,
                                       fields: set<string>, minimumFrequency: string, requireAll: bool)

  datatype RecordStatus = Matched | Partial | Failed
  datatype ControlStatus = Covered | PartlyCovered | Gap

  datatype RecordMatch = RecordMatch(recordID: string, status: RecordStatus, matched: set<string>,
                                     missing: set<string>, reasons: set<string>)

  datatype ControlResult = ControlResult(
    status: ControlStatus, requiredTypes: set<string>,
    candidates: nat, matched: nat, partial: nat, failed: nat, invalidExcluded: nat,
    reasons: set<string>, evidence: seq<RecordMatch>,
    matchedRequiredTypes: nat, presentTypes: set<string>)

  /** Excluding invalid evidence, and the calendar: the instant n months before another. */
  datatype Options = Options(excludeInvalid: bool, monthsBefore: (int, nat) -> int)

  // ----- Requirement sets -----

  function TrimmedSet(xs: seq<string>): (r: set<string>)
    ensures forall x :: x in r <==> exists y :: y in xs && x == Trim(y) && x != ""
  {
    set y | y in xs && !Blank(y) :: Trim(y)
  }

  function LoweredSet(xs: seq<string>): set<string> {
    set y | y in xs && Trim(Lower(Trim(y))) != "" :: Trim(Lower(Trim(y)))
  }

  predicate SetBefore(a: EvidenceSet, b: EvidenceSet) {
    Less(Trim(a.id), Trim(b.id))
  }

  function FromSet(s: EvidenceSet): Requirements {
    Requirements(Trim(s.id), LoweredSet(s.sourceProducts), LoweredSet(s.requiredRecordTypes),
                 TrimmedSet(s.requiredFields), Trim(s.minimumFrequency), true)
  }

  function RequirementSets(control: Control): (rs: seq<Requirements>)
    ensures rs != []
  {
    if control.evidenceSets == [] then
      [Requirements("", {}, TrimmedSet(control.requiredRecordTypes), TrimmedSet(control.requiredFields),
                    Trim(control.minimumFrequency), false)]
    else
      var sets := SortBy(SetBefore, control.evidenceSets);
      seq(|sets|, i requires 0 <= i < |sets| => FromSet(sets[i]))
  }

  // ----- One record against one requirement set -----

  function TypeOf(r: Record): string {
    Lower(Trim(r.recordType))
  }

  predicate InScope(q: Requirements, r: Record) {
    TypeOf(r) in q.types && (q.sourceProducts != {} ==> Lower(Trim(r.sourceProduct)) in q.sourceProducts)
  }

  predicate Excluded(o: Options, r: Record) {
    o.excludeInvalid && r.invalid
  }

  function Present(q: Requirements, r: Record): set<string> {
    set f | f in q.fields && f in r.fields
  }

  /** The fields a record lacks: required ones, and identity linkage (blank entries dropped). */
  function Missing(q: Requirements, r: Record): set<string> {
    (set f | f in q.fields && f !in r.fields) + (set f | f in r.identityMissing && !Blank(f) :: Trim(f))
  }

  function StatusOf(q: Requirements, r: Record): RecordStatus {
    if Missing(q, r) == {} then Matched
    else if Present(q, r) != {} then Partial
    else Failed
  }

  function WindowStart(o: Options, q: Requirements, records: seq<Record>): Option<int> {
    if records == [] then None
    else
      var latest := records[|records| - 1].timestamp;
      var frequency := Lower(q.minimumFrequency);
      if frequency == "quarterly" then Some(o.monthsBefore(latest, 3))
      else if frequency == "monthly" then Some(o.monthsBefore(latest, 1))
      else if frequency == "weekly" then Some(latest - 7 * 24 * 3600)
      else if frequency == "daily" then Some(latest - 24 * 3600)
      else None
  }

  predicate InWindow(start: Option<int>, r: Record) {
    start.None? || r.timestamp >= start.value
  }

  // ----- Tallying the records -----

  datatype Tally = Tally(candidates: nat, matched: nat, partial: nat, failed: nat, invalidExcluded: nat,
                         evidence: seq<RecordMatch>, matchedInWindow: nat,
                         matchedTypes: set<string>, presentTypes: set<string>)

  const EMPTY := Tally(0, 0, 0, 0, 0, [], 0, {}, {})

  function RecordReasons(q: Requirements, r: Record): set<string> {
    match StatusOf(q, r)
    case Matched => {"MATCHED"}
    case Partial => {"PARTIAL_FIELD_MATCH"} + r.identityReasons
    case Failed => {"MISSING_REQUIRED_FIELDS"} + r.identityReasons
  }

  function Tallied(o: Options, q: Requirements, start: Option<int>, t: Tally, r: Record): Tally {
    if !InScope(q, r) then t
    else if Excluded(o, r) then
      t.(candidates := t.candidates + 1, failed := t.failed + 1, invalidExcluded := t.invalidExcluded + 1,
         evidence := t.evidence + [RecordMatch(Trim(r.recordID), Failed, Present(q, r),
                                               set f | f in q.fields && f !in r.fields,
                                               {"INVALID_EVIDENCE", r.invalidCode})])
    else
      var status := StatusOf(q, r);
      var inWindow := InWindow(start, r);
      t.(candidates := t.candidates + 1,
         matched := t.matched + (if status.Matched? then 1 else 0),
         partial := t.partial + (if status.Partial? then 1 else 0),
         failed := t.failed + (if status.Failed? then 1 else 0),
         evidence := t.evidence + [RecordMatch(Trim(r.recordID), status, Present(q, r), Missing(q, r),
                                               RecordReasons(q, r))],
         matchedInWindow := t.matchedInWindow + (if status.Matched? && inWindow then 1 else 0),
         matchedTypes := if status.Matched? && inWindow then t.matchedTypes + {TypeOf(r)} else t.matchedTypes,
         presentTypes := if inWindow then t.presentTypes + {TypeOf(r)} else t.presentTypes)
  }

  function TallyAll(o: Options, q: Requirements, start: Option<int>, records: seq<Record>): Tally {
    if records == [] then EMPTY
    else Tallied(o, q, start, TallyAll(o, q, start, records[..|records| - 1]), records[|records| - 1])
  }

  predicate IdentityReason(s: string) {
    s in {"MISSING_ACTOR_LINKAGE", "MISSING_DOWNSTREAM_LINKAGE", "MISSING_OWNER_LINKAGE", "MISSING_TARGET_LINKAGE",
          "MISSING_POLICY_BINDING", "MISSING_APPROVAL_BINDING", "INCOMPLETE_DELEGATION_CHAIN",
          "UNAPPROVED_PRIVILEGE_DRIFT"}
  }

  function IdentityReasons(evidence: seq<RecordMatch>): set<string> {
    set m, s | m in evidence && s in m.reasons && IdentityReason(Trim(s)) :: s
  }

  /** `minimumMatches`: every frequency asks for one. */
  const MINIMUM_MATCHES: nat := 1

  function AllTypesMet(q: Requirements, t: Tally): bool {
    q.requireAll ==> q.types <= t.matchedTypes
  }

  function Decide(q: Requirements, t: Tally): ControlResult {
    var frequencyMet := t.matchedInWindow >= MINIMUM_MATCHES;
    var status :=
      if t.matched > 0 && frequencyMet && AllTypesMet(q, t) then Covered
      else if t.matched > 0 || t.partial > 0 then PartlyCovered
      else Gap;
    var reasons :=
      {match status case Covered => "CONTROL_COVERED" case PartlyCovered => "CONTROL_PARTIAL" case Gap => "CONTROL_GAP"}
      + (if frequencyMet then {} else {"FREQUENCY_NOT_MET"})
      + (if AllTypesMet(q, t) then {} else {"REQUIRED_RECORD_TYPES_NOT_MET"})
      + (if t.candidates == 0 then {"NO_RECORD_TYPE_MATCH"} else {})
      + (if t.invalidExcluded > 0 then {"INVALID_EVIDENCE_CLASS"} else {})
      + IdentityReasons(t.evidence);
    ControlResult(status, q.types, t.candidates, t.matched, t.partial, t.failed, t.invalidExcluded,
                  reasons, t.evidence, |t.matchedTypes|, t.presentTypes)
  }

  function Evaluated(o: Options, q: Requirements, records: seq<Record>): ControlResult {
    Decide(q, TallyAll(o, q, WindowStart(o, q, records), records))
  }

  method EvaluateRequirementSet(o: Options, q: Requirements, records: seq<Record>) returns (result: ControlResult)
    ensures result == Evaluated(o, q, records)
  {
    hide InScope, Missing, Present;
    var start := WindowStart(o, q, records);
    var t := EMPTY;
    for i := 0 to |records|
      invariant t == TallyAll(o, q, start, records[..i])
    {
      assert records[..i + 1][..i] == records[..i];
      t := TallyRecord(o, q, start, t, records[i]);
    }
    assert records[..|records|] == records;
    return Decide(q, t);
  }

  method TallyRecord(o: Options, q: Requirements, start: Option<int>, before: Tally, r: Record) returns (t: Tally)
    ensures t == Tallied(o, q, start, before, r)
  {
    t := before;
    if !InScope(q, r) {
      return;
    }
    t := t.(candidates := t.candidates + 1);
    var present := Present(q, r);
    if Excluded(o, r) {
      var lacking := set f | f in q.fields && f !in r.fields;
      return t.(invalidExcluded := t.invalidExcluded + 1, failed := t.failed + 1,
                evidence := t.evidence + [RecordMatch(Trim(r.recordID), Failed, present, lacking,
                                                      {"INVALID_EVIDENCE", r.invalidCode})]);
    }
    var inWindow := InWindow(start, r);
    if inWindow {
      t := t.(presentTypes := t.presentTypes + {TypeOf(r)});
    }
    var missing := Missing(q, r);
    if missing == {} {
      t := t.(matched := t.matched + 1);
      if inWindow {
        t := t.(matchedInWindow := t.matchedInWindow + 1, matchedTypes := t.matchedTypes + {TypeOf(r)});
      }
    } else if present != {} {
      t := t.(partial := t.partial + 1);
    } else {
      t := t.(failed := t.failed + 1);
    }
    t := t.(evidence := t.evidence + [RecordMatch(Trim(r.recordID), StatusOf(q, r), present, missing,
                                                  RecordReasons(q, r))]);
  }

  // ----- Choosing among requirement sets -----

  function Rank(s: ControlStatus): nat {
    match s case Covered => 2 case PartlyCovered => 1 case Gap => 0
  }

  function MissingFields(evidence: seq<RecordMatch>): set<string> {
    set m, f | m in evidence && f in m.missing && !Blank(f) :: Trim(f)
  }

  function MissingFieldCount(r: ControlResult): nat {
    |MissingFields(r.evidence)|
  }

  /** `preferControlResult`. */
  predicate Prefer(a: ControlResult, b: ControlResult) {
    var ra, rb := |a.requiredTypes|, |b.requiredTypes|;
    var pa, pb := |a.presentTypes|, |b.presentTypes|;
    if Rank(a.status) != Rank(b.status) then Rank(a.status) > Rank(b.status)
    else if a.matchedRequiredTypes * rb != b.matchedRequiredTypes * ra then
      a.matchedRequiredTypes * rb > b.matchedRequiredTypes * ra
    else if pa * rb != pb * ra then pa * rb > pb * ra
    else if ra - pa != rb - pb then ra - pa < rb - pb
    else if MissingFieldCount(a) != MissingFieldCount(b) then MissingFieldCount(a) < MissingFieldCount(b)
    else if a.matched != b.matched then a.matched > b.matched
    else if a.partial != b.partial then a.partial > b.partial
    else if a.failed != b.failed then a.failed < b.failed
    else false
  }

  /** Which candidate the scan over the sorted sets keeps. */
  function Selected(cs: seq<ControlResult>): (k: nat)
    requires cs != []
    ensures k < |cs|
  {
    if |cs| == 1 then 0
    else
      var k := Selected(cs[..|cs| - 1]);
      if Prefer(cs[|cs| - 1], cs[k]) then |cs| - 1 else k
  }

  function Candidates(o: Options, control: Control, records: seq<Record>): (cs: seq<ControlResult>)
    ensures |cs| == |RequirementSets(control)|
    ensures forall i :: 0 <= i < |cs| ==> cs[i] == Evaluated(o, RequirementSets(control)[i], records)
  {
    var qs := RequirementSets(control);
    seq(|qs|, i requires 0 <= i < |qs| => Evaluated(o, qs[i], records))
  }

  method EvaluateControl(o: Options, control: Control, records: seq<Record>) returns (selected: ControlResult)
    ensures var cs := Candidates(o, control, records); selected == cs[Selected(cs)]
  {
    hide Evaluated, Prefer, RequirementSets;
    var qs := RequirementSets(control);
    ghost var cs := Candidates(o, control, records);
    selected := EvaluateRequirementSet(o, qs[0], records);
    assert cs[..1] == [cs[0]];
    for i := 1 to |qs|
      invariant selected == cs[..i][Selected(cs[..i])]
    {
      assert cs[..i + 1][..i] == cs[..i];
      var candidate := EvaluateRequirementSet(o, qs[i], records);
      if Prefer(candidate, selected) {
        selected := candidate;
      }
    }
    assert cs[..|cs|] == cs;
  }

  /** `MissingRequiredRecordTypes`. */
  function MissingRequiredTypes(r: ControlResult): set<string> {
    set t | t in r.requiredTypes && t !in r.presentTypes
  }
}
