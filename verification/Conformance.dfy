/** Proposal and activation conformance (core/ingest/actioncontract/conformance.go): each proposed
    control value must be met, tightened, or explicitly excepted by the observed one. */
module Conformance {
  import opened Prelude
  import opened Text
  import opened Sorting

  /** Integer scanning and timestamp parsing; the empty text is not a timestamp. */
  datatype Env = Env(scan: string -> int, parse: string -> Option<int>)

  ghost predicate Sane(env: Env) {
    env.parse("").None?
  }

  // ----- Comparing one value -----

  /** `strings.Split(s, "|")`. */
  function Split(s: string): (parts: seq<string>)
    ensures |parts| >= 1
  {
    if s == "" then [""]
    else
      var rest := Split(s[1..]);
      if s[0] == '|' then [""] + rest else [[s[0]] + rest[0]] + rest[1..]
  }

  /** The entries of a joined list; blank ones do not count. */
  function Entries(s: string): set<string> {
    set x | x in Split(s) && !Blank(x)
  }

  function CredentialStrength(value: string): int {
    var v := Trim(value);
    if v == "ephemeral" then 3 else if v == "scoped" then 2 else if v == "standing_or_unknown" then 1 else 0
  }

  function ApprovalStrength(env: Env, value: string): int {
    var parts := Split(value);
    if |parts| != 2 then 0 else env.scan(parts[1]) + if parts[0] == "true" then 100 else 0
  }

  predicate IsSuperset(got: string, want: string) {
    Entries(want) <= Entries(got) && |Entries(got)| > |Entries(want)|
  }

  /** `projectedValueTightens`. */
  predicate Tightens(env: Env, field: string, want: string, got: string) {
    if field == "credential_mode" then CredentialStrength(got) > CredentialStrength(want)
    else if field == "delegation_depth" then env.scan(got) < env.scan(want)
    else if field == "forbidden_effects" || field == "authority" || field == "preconditions" then IsSuperset(got, want)
    else if field == "approval" then ApprovalStrength(env, got) > ApprovalStrength(env, want)
    else if field == "compensation" then want == "false" && got == "true"
    else if field == "validity" then
      if want == "" then got != ""
      else env.parse(Trim(want)).Some? && env.parse(Trim(got)).Some? &&
           env.parse(Trim(got)).value < env.parse(Trim(want)).value
    else false
  }

  // ----- Exceptions -----

  function Normal(ref: string): string {
    Lower(Trim(ref))
  }

  const KNOWN: set<string> :=
    {"authority", "authority_requirements", "preconditions", "confirmation", "confirmation_requirement", "approval",
     "approval_requirement", "credential_mode", "delegation_depth", "expected_outcome", "forbidden_effects",
     "compensation", "compensation_requirement", "validity", "composition_ref", "contract_content_digest"}

  const ALIASES: map<string, string> :=
    map["authority" := "authority_requirements", "confirmation" := "confirmation_requirement",
        "approval" := "approval_requirement", "compensation" := "compensation_requirement"]

  /** The names under which an exception for a field may be given. */
  function AcceptedNames(field: string): set<string> {
    var f := Normal(field);
    {f} + (if f in ALIASES then {ALIASES[f]} else {}) + set c | c in ALIASES && ALIASES[c] == f
  }

  predicate Excepted(exceptions: seq<string>, field: string) {
    exists i :: 0 <= i < |exceptions| && Normal(exceptions[i]) in AcceptedNames(field)
  }

  function TrimmedSet(xs: seq<string>): set<string> {
    set x | x in xs && !Blank(x) :: Trim(x)
  }

  ghost function UnknownRefs(exceptions: seq<string>): (r: seq<string>) {
    FlatMap(UnknownOf, OrderedKeys(TrimmedSet(exceptions)))
  }

  function UnknownOf(x: string): seq<string> {
    if Normal(x) in KNOWN then [] else [Normal(x)]
  }

  method UnknownExceptionRefs(exceptions: seq<string>) returns (unknown: seq<string>)
    ensures unknown == UnknownRefs(exceptions)
  {
    hide UnknownOf, TrimmedSet, OrderedKeys;
    var sorted := SortedKeys(TrimmedSet(exceptions));
    unknown := UnknownAmong(sorted);
  }

  method UnknownAmong(sorted: seq<string>) returns (unknown: seq<string>)
    ensures unknown == FlatMap(UnknownOf, sorted)
  {
    hide UnknownOf;
    unknown := [];
    for i := 0 to |sorted|
      invariant unknown == FlatMap(UnknownOf, sorted[..i])
    {
      assert sorted[..i + 1] == sorted[..i] + [sorted[i]];
      FlatMapSnoc(UnknownOf, sorted[..i], sorted[i]);
      unknown := unknown + UnknownOf(sorted[i]);
    }
    assert sorted[..|sorted|] == sorted;
  }

  // ----- Comparing all values -----

  type Values = map<string, string>

  datatype Class = Exact | Tightened | ExplicitlyExcepted | Weakened | Mismatched

  datatype Reason = UnknownException(ref: string) | WeakenedField(field: string) | ExceptionPresent | ControlsTightened

  datatype Result = Result(classification: Class, valid: bool, reasons: seq<Reason>, exceptions: seq<string>)

  datatype Finding = Met | Tighter | Waived | Lacking

  /** What one field of the proposal comes to. */
  function Judge(env: Env, proposal: Values, actual: Values, exceptions: seq<string>, field: string): Finding
    requires field in proposal
  {
    if field in actual && actual[field] == proposal[field] then Met
    else if field in actual && Tightens(env, field, proposal[field], actual[field]) then Tighter
    else if Excepted(exceptions, field) then Waived
    else Lacking
  }

  ghost function FieldsWith(env: Env, proposal: Values, actual: Values, exceptions: seq<string>,
                            finding: Finding): set<string> {
    set f | f in proposal && Judge(env, proposal, actual, exceptions, f) == finding
  }

  /** The verdict: nothing in it but the list of waived fields of a weakened result, which stays in
      the order the fields were visited, depends on that order. */
  ghost predicate Verdict(env: Env, proposal: Values, actual: Values, exceptions: seq<string>, r: Result) {
    var lacking := FieldsWith(env, proposal, actual, exceptions, Lacking);
    var waived := FieldsWith(env, proposal, actual, exceptions, Waived);
    if UnknownRefs(exceptions) != [] then
      r == Result(Mismatched, false, [UnknownException(UnknownRefs(exceptions)[0])], [])
    else if lacking != {} then
      && r == Result(Weakened, false, [WeakenedField(OrderedKeys(lacking)[0])], r.exceptions)
      && multiset(r.exceptions) == multiset(waived)
    else if waived != {} then r == Result(ExplicitlyExcepted, true, [ExceptionPresent], OrderedKeys(waived))
    else if FieldsWith(env, proposal, actual, exceptions, Tighter) != {} then
      r == Result(Tightened, true, [ControlsTightened], [])
    else r == Result(Exact, true, [], [])
  }

  method CompareProjectedControls(env: Env, proposal: Values, actual: Values, exceptions: seq<string>)
    returns (r: Result)
    ensures Verdict(env, proposal, actual, exceptions, r)
  {
    hide Tightens, Excepted, UnknownRefs;
    var unknown := UnknownExceptionRefs(exceptions);
    if |unknown| > 0 {
      return Result(Mismatched, false, [UnknownException(unknown[0])], []);
    }
    var weakened, waived, tightened := Visit(env, proposal, actual, exceptions);
    hide Judge;
    if |weakened| > 0 {
      var sorted := SortedSlice(weakened, FieldsWith(env, proposal, actual, exceptions, Lacking));
      return Result(Weakened, false, [WeakenedField(sorted[0])], waived);
    }
    EmptyMultiset(weakened, FieldsWith(env, proposal, actual, exceptions, Lacking));
    EmptyMultiset(waived, FieldsWith(env, proposal, actual, exceptions, Waived));
    if |waived| > 0 {
      var sorted := SortedSlice(waived, FieldsWith(env, proposal, actual, exceptions, Waived));
      return Result(ExplicitlyExcepted, true, [ExceptionPresent], sorted);
    }
    if tightened {
      return Result(Tightened, true, [ControlsTightened], []);
    }
    return Result(Exact, true, [], []);
  }

  lemma EmptyMultiset(xs: seq<string>, keys: set<string>)
    requires multiset(xs) == multiset(keys)
    ensures xs == [] <==> keys == {}
  {
    assert |multiset(xs)| == |xs| && |multiset(keys)| == |keys|;
  }

  /** `sort.Strings` on the fields collected in some order. */
  method SortedSlice(xs: seq<string>, ghost keys: set<string>) returns (sorted: seq<string>)
    requires multiset(xs) == multiset(keys) && xs != []
    ensures sorted == OrderedKeys(keys) && sorted != []
  {
    SortStringsAscending(xs);
    sorted := SortStrings(xs);
    StringsWeakOrder(sorted);
    AscendingUnique(Less, sorted, OrderedKeys(keys));
  }

  /** The loop over the proposal's map, in whatever order it is iterated. */
  method Visit(env: Env, proposal: Values, actual: Values, exceptions: seq<string>)
    returns (weakened: seq<string>, waived: seq<string>, tightened: bool)
    ensures multiset(weakened) == multiset(FieldsWith(env, proposal, actual, exceptions, Lacking))
    ensures multiset(waived) == multiset(FieldsWith(env, proposal, actual, exceptions, Waived))
    ensures tightened <==> FieldsWith(env, proposal, actual, exceptions, Tighter) != {}
  {
    hide Judge, FieldsWith, Sorted;
    ghost var lacking := FieldsWith(env, proposal, actual, exceptions, Lacking);
    ghost var excepted := FieldsWith(env, proposal, actual, exceptions, Waived);
    ghost var tighter := FieldsWith(env, proposal, actual, exceptions, Tighter);
    weakened, waived, tightened := [], [], false;
    var todo := proposal.Keys;
    NoneSorted(env, proposal, actual, exceptions);
    while todo != {}
      invariant todo <= proposal.Keys
      invariant Sorted(lacking, excepted, tighter, todo, weakened, waived, tightened)
    {
      var field :| field in todo;
      var finding := JudgeField(env, proposal, actual, exceptions, field);
      Classified(env, proposal, actual, exceptions, field);
      VisitOne(lacking, excepted, tighter, todo, weakened, waived, tightened, field, finding);
      todo := todo - {field};
      match finding
      case Met =>
      case Tighter => tightened := true;
      case Waived => waived := waived + [field];
      case Lacking => weakened := weakened + [field];
    }
    AllSorted(lacking, excepted, tighter, weakened, waived, tightened);
  }

  /** The fields visited so far are sorted into their lists. */
  ghost predicate Sorted(lacking: set<string>, excepted: set<string>, tighter: set<string>, todo: set<string>,
                         weakened: seq<string>, waived: seq<string>, tightened: bool) {
    && multiset(weakened) == multiset(lacking - todo)
    && multiset(waived) == multiset(excepted - todo)
    && (tightened <==> tighter - todo != {})
  }

  lemma VisitOne(lacking: set<string>, excepted: set<string>, tighter: set<string>, todo: set<string>,
                 weakened: seq<string>, waived: seq<string>, tightened: bool, field: string, finding: Finding)
    requires Sorted(lacking, excepted, tighter, todo, weakened, waived, tightened) && field in todo
    requires (field in lacking <==> finding == Lacking) && (field in excepted <==> finding == Waived)
    requires field in tighter <==> finding == Tighter
    ensures Sorted(lacking, excepted, tighter, todo - {field},
                   if finding == Lacking then weakened + [field] else weakened,
                   if finding == Waived then waived + [field] else waived,
                   tightened || finding == Tighter)
  {
    hide *;
    SortedParts(lacking, excepted, tighter, todo, weakened, waived, tightened);
    ListOne(lacking, todo, weakened, field);
    ListOne(excepted, todo, waived, field);
    Visited(tighter, todo, field);
    SortedParts(lacking, excepted, tighter, todo - {field},
                if finding == Lacking then weakened + [field] else weakened,
                if finding == Waived then waived + [field] else waived,
                tightened || finding == Tighter);
  }

  lemma SortedParts(lacking: set<string>, excepted: set<string>, tighter: set<string>, todo: set<string>,
                    weakened: seq<string>, waived: seq<string>, tightened: bool)
    ensures Sorted(lacking, excepted, tighter, todo, weakened, waived, tightened) <==>
            && multiset(weakened) == multiset(lacking - todo)
            && multiset(waived) == multiset(excepted - todo)
            && (tightened <==> tighter - todo != {})
  {
  }

  /** A list of the visited members of a set, one visit later. */
  lemma ListOne(s: set<string>, todo: set<string>, listed: seq<string>, field: string)
    requires multiset(listed) == multiset(s - todo) && field in todo
    ensures multiset(if field in s then listed + [field] else listed) == multiset(s - (todo - {field}))
  {
    Visited(s, todo, field);
  }

  lemma NoneSorted(env: Env, proposal: Values, actual: Values, exceptions: seq<string>)
    ensures Sorted(FieldsWith(env, proposal, actual, exceptions, Lacking),
                   FieldsWith(env, proposal, actual, exceptions, Waived),
                   FieldsWith(env, proposal, actual, exceptions, Tighter), proposal.Keys, [], [], false)
  {
    hide Judge;
    assert forall finding :: FieldsWith(env, proposal, actual, exceptions, finding) - proposal.Keys == {};
  }

  lemma AllSorted(lacking: set<string>, excepted: set<string>, tighter: set<string>,
                  weakened: seq<string>, waived: seq<string>, tightened: bool)
    requires Sorted(lacking, excepted, tighter, {}, weakened, waived, tightened)
    ensures multiset(weakened) == multiset(lacking) && multiset(waived) == multiset(excepted)
    ensures tightened <==> tighter != {}
  {
    assert lacking - {} == lacking && excepted - {} == excepted && tighter - {} == tighter;
  }

  lemma Classified(env: Env, proposal: Values, actual: Values, exceptions: seq<string>, field: string)
    requires field in proposal
    ensures forall finding :: field in FieldsWith(env, proposal, actual, exceptions, finding) <==>
                              Judge(env, proposal, actual, exceptions, field) == finding
  {
    hide Judge;
  }

  lemma Visited(s: set<string>, todo: set<string>, field: string)
    requires field in todo
    ensures s - (todo - {field}) == (s - todo) + if field in s then {field} else {}
    ensures field in s ==> multiset(s - (todo - {field})) == multiset(s - todo) + multiset{field}
  {
  }

  method JudgeField(env: Env, proposal: Values, actual: Values, exceptions: seq<string>, field: string)
    returns (finding: Finding)
    requires field in proposal
    ensures finding == Judge(env, proposal, actual, exceptions, field)
  {
    hide Tightens;
    var want := proposal[field];
    if field !in actual {
      var excepted := ContainsException(exceptions, field);
      return if excepted then Waived else Lacking;
    }
    var got := actual[field];
    if got == want {
      return Met;
    }
    if Tightens(env, field, want, got) {
      return Tighter;
    }
    var excepted := ContainsException(exceptions, field);
    return if excepted then Waived else Lacking;
  }

  method ContainsException(exceptions: seq<string>, field: string) returns (found: bool)
    ensures found <==> Excepted(exceptions, field)
  {
    hide AcceptedNames, Normal;
    for i := 0 to |exceptions|
      invariant forall j :: 0 <= j < i ==> Normal(exceptions[j]) !in AcceptedNames(field)
    {
      if Normal(exceptions[i]) in AcceptedNames(field) {
        return true;
      }
    }
    return false;
  }

  // ----- Tightening is an order -----

  /** Main result. On every field tightening is irreflexive and transitive. */
  lemma TighteningIsOrder(env: Env, field: string, a: string, b: string, c: string)
    requires Sane(env)
    ensures !Tightens(env, field, a, a)
    ensures Tightens(env, field, a, b) && Tightens(env, field, b, c) ==> Tightens(env, field, a, c)
  {
    assert Trim("") == "";
    hide Split, CredentialStrength, ApprovalStrength, Trim, Entries;
  }

  // ----- What validity means -----

  /** Main result. The comparison is valid exactly when no exception is unknown and every proposed
      field is met, tightened or excepted. */
  lemma ValidMeans(env: Env, proposal: Values, actual: Values, exceptions: seq<string>, r: Result)
    requires Verdict(env, proposal, actual, exceptions, r)
    ensures r.valid <==>
            && UnknownRefs(exceptions) == []
            && forall f :: f in proposal ==>
                 || (f in actual && (actual[f] == proposal[f] || Tightens(env, f, proposal[f], actual[f])))
                 || Excepted(exceptions, f)
  {
    hide Tightens, Excepted, UnknownRefs;
    forall f | f in proposal
      ensures f in FieldsWith(env, proposal, actual, exceptions, Lacking) <==>
              !(f in actual && (actual[f] == proposal[f] || Tightens(env, f, proposal[f], actual[f]))) &&
                  !Excepted(exceptions, f)
    {
    }
    hide FieldsWith, Judge;
    assert forall f :: f in FieldsWith(env, proposal, actual, exceptions, Lacking) ==> f in proposal
      by { OnlyProposed(env, proposal, actual, exceptions); }
  }

  lemma OnlyProposed(env: Env, proposal: Values, actual: Values, exceptions: seq<string>)
    ensures forall f :: f in FieldsWith(env, proposal, actual, exceptions, Lacking) ==> f in proposal
  {
    hide Judge;
  }

  /** Main result. Classification, validity and reasons are the same for every order in which the
      proposal's map may be iterated; so is the exception list, as a multiset. */
  lemma IterationOrderIrrelevant(env: Env, proposal: Values, actual: Values, exceptions: seq<string>, r: Result,
                                 s: Result)
    requires Verdict(env, proposal, actual, exceptions, r) && Verdict(env, proposal, actual, exceptions, s)
    ensures r.classification == s.classification && r.valid == s.valid && r.reasons == s.reasons
    ensures multiset(r.exceptions) == multiset(s.exceptions)
    ensures !r.classification.Weakened? ==> r == s
  {
    hide FieldsWith, UnknownRefs;
  }

  /** Every field of `a` is met or tightened by `b`. */
  ghost predicate Within(env: Env, a: Values, b: Values) {
    forall f :: f in a ==> f in b && (b[f] == a[f] || Tightens(env, f, a[f], b[f]))
  }

  /** That list does stay open: where fields are lacking, any arrangement of the waived ones is a verdict. */
  lemma WeakenedOrderOpen(env: Env, proposal: Values, actual: Values, exceptions: seq<string>, r: Result,
                          waived: seq<string>)
    requires Verdict(env, proposal, actual, exceptions, r) && r.classification.Weakened?
    requires multiset(waived) == multiset(r.exceptions)
    ensures Verdict(env, proposal, actual, exceptions, r.(exceptions := waived))
  {
    hide FieldsWith, UnknownRefs;
  }

  lemma NoExceptions()
    ensures UnknownRefs([]) == [] && forall f :: !Excepted([], f)
  {
    assert TrimmedSet([]) == {};
  }

  lemma ValidWithoutExceptions(env: Env, a: Values, b: Values, r: Result)
    requires Verdict(env, a, b, [], r)
    ensures r.valid <==> Within(env, a, b)
    ensures r.classification.Exact? <==> forall f :: f in a ==> f in b && b[f] == a[f]
  {
    NoExceptions();
    ValidMeans(env, a, b, [], r);
    hide Tightens, Excepted, UnknownRefs;
    if r.classification.Exact? {
      assert FieldsWith(env, a, b, [], Lacking) == {} && FieldsWith(env, a, b, [], Tighter) == {} &&
             FieldsWith(env, a, b, [], Waived) == {};
      forall f | f in a ensures f in b && b[f] == a[f] {
        assert f !in FieldsWith(env, a, b, [], Tighter) && f !in FieldsWith(env, a, b, [], Lacking) &&
               f !in FieldsWith(env, a, b, [], Waived);
        assert Judge(env, a, b, [], f) == Met;
      }
    }
    if forall f :: f in a ==> f in b && b[f] == a[f] {
      assert forall f :: f in a ==> Judge(env, a, b, [], f) == Met;
      assert FieldsWith(env, a, b, [], Lacking) == {} && FieldsWith(env, a, b, [], Tighter) == {} &&
             FieldsWith(env, a, b, [], Waived) == {};
    }
  }

  /** Main result. Conformance without exceptions is an order on control values: it composes, and
      two sets of values that conform to each other agree on every common field. */
  lemma ConformanceIsOrder(env: Env, a: Values, b: Values, c: Values)
    requires Sane(env)
    ensures Within(env, a, a)
    ensures Within(env, a, b) && Within(env, b, c) ==> Within(env, a, c)
    ensures Within(env, a, b) && Within(env, b, a) ==> a == b
  {
    hide Tightens;
    forall f | f in a && f in b && f in c
      ensures Tightens(env, f, a[f], b[f]) && Tightens(env, f, b[f], c[f]) ==> Tightens(env, f, a[f], c[f])
      ensures !(Tightens(env, f, a[f], b[f]) && Tightens(env, f, b[f], a[f]))
    {
      TighteningIsOrder(env, f, a[f], b[f], c[f]);
      TighteningIsOrder(env, f, a[f], b[f], a[f]);
    }
    forall f | f in a && f in b ensures !(Tightens(env, f, a[f], b[f]) && Tightens(env, f, b[f], a[f])) {
      TighteningIsOrder(env, f, a[f], b[f], a[f]);
    }
  }
}
