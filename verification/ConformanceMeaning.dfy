/** What a comparison of controls says in terms of the values compared: how each field may differ, which
    exceptions count, and what each classification means. */
module ConformanceMeaning {
  import opened Prelude
  import opened Text
  import opened Sorting
  import opened Conformance

  // ----- Lists joined by bars -----

  /** `x` stands between two bars, or a bar and an end, of `s`. */
  ghost predicate PartAt(s: string, x: string, i: int, j: int) {
    && 0 <= i <= j <= |s| && s[i..j] == x && '|' !in x
    && (i == 0 || s[i - 1] == '|') && (j == |s| || s[j] == '|')
  }

  ghost predicate Part(s: string, x: string) {
    exists i, j :: PartAt(s, x, i, j)
  }

  /** The first part of a text, up to its first bar. */
  function Head(s: string): (h: string)
    ensures h <= s && '|' !in h && (|h| == |s| || s[|h|] == '|')
  {
    if s == "" || s[0] == '|' then "" else [s[0]] + Head(s[1..])
  }

  lemma {:induction false} SplitHead(s: string)
    ensures Split(s) == if |Head(s)| == |s| then [s] else [Head(s)] + Split(s[|Head(s)| + 1..])
  {
    if s != "" && s[0] != '|' {
      SplitHead(s[1..]);
      assert |Head(s)| == |Head(s[1..])| + 1;
      if |Head(s)| != |s| {
        assert s[|Head(s)| + 1..] == s[1..][|Head(s[1..])| + 1..];
      } else {
        assert [s[0]] + s[1..] == s;
      }
    }
  }

  lemma HeadClear(s: string, k: int)
    requires 0 <= k < |Head(s)|
    ensures s[k] != '|'
  {
    assert s[k] == Head(s)[k] && Head(s)[k] in Head(s);
  }

  lemma PartClear(s: string, x: string, i: int, j: int, k: int)
    requires PartAt(s, x, i, j) && i <= k < j
    ensures s[k] != '|'
  {
    assert s[k] == x[k - i] && x[k - i] in x;
  }

  /** A part at the start of the text is its head. */
  lemma PartAtStart(s: string, x: string, j: int)
    requires PartAt(s, x, 0, j)
    ensures x == Head(s)
  {
    var h := |Head(s)|;
    if j < h {
      HeadClear(s, j);
    } else if h < j {
      PartClear(s, x, 0, j, h);
    }
    assert s[..h] == Head(s) && s[0..h] == s[..h];
  }

  /** Any other part lies in what follows the head. */
  lemma PartAfter(s: string, x: string, i: int, j: int)
    requires PartAt(s, x, i, j) && i > 0
    ensures |Head(s)| < i && PartAt(s[|Head(s)| + 1..], x, i - |Head(s)| - 1, j - |Head(s)| - 1)
  {
    var h := |Head(s)|;
    if i - 1 < h {
      HeadClear(s, i - 1);
    }
    hide Head;
    var rest := s[h + 1..];
    assert rest[i - h - 1..j - h - 1] == s[i..j];
    if i > h + 1 { assert rest[i - h - 2] == s[i - 1]; }
    if j < |s| { assert rest[j - h - 1] == s[j]; }
  }

  lemma PartOfRest(s: string, h: nat, x: string, i: int, j: int)
    requires h < |s| && s[h] == '|' && PartAt(s[h + 1..], x, i, j)
    ensures PartAt(s, x, i + h + 1, j + h + 1)
  {
    var rest := s[h + 1..];
    assert s[i + h + 1..j + h + 1] == rest[i..j];
    if i > 0 { assert rest[i - 1] == s[i + h]; }
    if j < |rest| { assert rest[j] == s[j + h + 1]; }
  }

  lemma HeadPart(s: string, x: string)
    ensures |Head(s)| == |s| ==> (Part(s, x) <==> x == s)
    ensures |Head(s)| < |s| ==> (Part(s, x) <==> x == Head(s) || Part(s[|Head(s)| + 1..], x))
  {
    hide PartAt, Head;
    if i, j :| PartAt(s, x, i, j) {
      PartRange(s, x, i, j);
      if i == 0 { PartAtStart(s, x, j); } else { PartAfter(s, x, i, j); }
    }
    HeadIsPart(s);
    if |Head(s)| < |s| {
      var rest := s[|Head(s)| + 1..];
      if i, j :| PartAt(rest, x, i, j) {
        PartOfRest(s, |Head(s)|, x, i, j);
      }
    }
  }

  lemma PartRange(s: string, x: string, i: int, j: int)
    requires PartAt(s, x, i, j)
    ensures 0 <= i <= j <= |s|
  {
  }

  lemma HeadIsPart(s: string)
    ensures PartAt(s, Head(s), 0, |Head(s)|)
    ensures |Head(s)| == |s| ==> Head(s) == s
  {
    assert s[0..|Head(s)|] == Head(s);
  }

  /** Splitting gives exactly the parts. */
  lemma {:induction false} SplitIsParts(s: string, x: string)
    ensures x in Split(s) <==> Part(s, x)
    decreases |s|
  {
    hide Part;
    SplitHead(s);
    HeadPart(s, x);
    if |Head(s)| < |s| {
      SplitIsParts(s[|Head(s)| + 1..], x);
    }
  }

  /** A text that is a joined list's entry: a part that is not blank. */
  ghost predicate Entry(s: string, x: string) {
    Part(s, x) && Trim(x) != ""
  }

  lemma EntriesAre(s: string, x: string)
    ensures x in Entries(s) <==> Entry(s, x)
  {
    SplitIsParts(s, x);
    hide Split, Part, Trim;
  }

  /** Every entry of `want` is kept, and there are more. */
  ghost predicate AddsTo(want: string, got: string) {
    && (forall x :: Entry(want, x) ==> Entry(got, x))
    && exists x :: Entry(got, x) && !Entry(want, x)
  }

  lemma SupersetAdds(want: string, got: string)
    ensures IsSuperset(got, want) <==> AddsTo(want, got)
  {
    forall x ensures (x in Entries(got) <==> Entry(got, x)) && (x in Entries(want) <==> Entry(want, x)) {
      EntriesAre(got, x);
      EntriesAre(want, x);
    }
    hide Entries, Entry;
    var e, f := Entries(want), Entries(got);
    if e <= f {
      assert f == e + (f - e);
      assert |f| == |e| + |f - e|;
      if x :| x in f && x !in e { assert x in f - e; }
    }
  }

  // ----- Approvals -----

  /** Whether approval is required, and how many, as the two parts of the value. */
  lemma ApprovalParts(env: Env, required: string, count: string)
    requires '|' !in required && '|' !in count
    ensures ApprovalStrength(env, required + "|" + count) == env.scan(count) + if required == "true" then 100 else 0
  {
    var value := required + "|" + count;
    HeadIs(value, required, count);
    HeadWhole(count);
    SplitHead(value);
    SplitHead(count);
    assert value[|required| + 1..] == count;
  }

  lemma {:induction false} HeadIs(s: string, h: string, rest: string)
    requires s == h + "|" + rest && '|' !in h
    ensures Head(s) == h
  {
    if h == "" {
      assert s[0] == '|';
    } else {
      assert s[0] == h[0] && h[0] in h;
      assert s[1..] == h[1..] + "|" + rest;
      HeadIs(s[1..], h[1..], rest);
    }
  }

  lemma {:induction false} HeadWhole(s: string)
    requires '|' !in s
    ensures Head(s) == s
  {
    if s != "" {
      assert s[0] in s;
      HeadWhole(s[1..]);
    }
  }

  /** Main result. With fewer than a hundred approvals, approval tightens exactly when it becomes required
      or, the requirement being the same, asks for more. */
  lemma ApprovalTightens(env: Env, before: bool, after: bool, wanted: string, gotten: string)
    requires '|' !in wanted && '|' !in gotten && 0 <= env.scan(wanted) < 100 && 0 <= env.scan(gotten) < 100
    ensures Tightens(env, "approval", Flag(before) + "|" + wanted, Flag(after) + "|" + gotten) <==>
            (after && !before) || (after == before && env.scan(gotten) > env.scan(wanted))
  {
    FlagPlain(before);
    FlagPlain(after);
    ApprovalParts(env, Flag(before), wanted);
    ApprovalParts(env, Flag(after), gotten);
    ApprovalField(env, Flag(before) + "|" + wanted, Flag(after) + "|" + gotten);
    hide Tightens, ApprovalStrength, Flag;
  }

  lemma ApprovalField(env: Env, want: string, got: string)
    ensures Tightens(env, "approval", want, got) <==> ApprovalStrength(env, got) > ApprovalStrength(env, want)
  {
    FieldNamesDiffer();
    hide ApprovalStrength;
  }

  function Flag(b: bool): string { if b then "true" else "false" }

  lemma FlagPlain(b: bool)
    ensures '|' !in Flag(b) && (Flag(b) == "true" <==> b)
  {
    assert |"true"| != |"false"|;
  }

  /** From more than a hundred approvals on, dropping the requirement counts as tightening. */
  lemma ManyApprovalsOutweigh(env: Env, wanted: string, gotten: string)
    requires '|' !in wanted && '|' !in gotten && env.scan(gotten) > env.scan(wanted) + 100
    ensures Tightens(env, "approval", "true|" + wanted, "false|" + gotten)
  {
    FlagPlain(true);
    FlagPlain(false);
    ApprovalParts(env, "true", wanted);
    ApprovalParts(env, "false", gotten);
    assert "true" + "|" + wanted == "true|" + wanted && "false" + "|" + gotten == "false|" + gotten;
    ApprovalField(env, "true|" + wanted, "false|" + gotten);
    hide Tightens, ApprovalStrength;
  }

  // ----- One field -----

  /** Where a credential mode stands: ephemeral above scoped above standing above anything else. */
  predicate Above(want: string, got: string) {
    var w, g := Trim(want), Trim(got);
    || (g == "ephemeral" && w != "ephemeral")
    || (g == "scoped" && w != "ephemeral" && w != "scoped")
    || (g == "standing_or_unknown" && w != "ephemeral" && w != "scoped" && w != "standing_or_unknown")
  }

  predicate EndsSooner(env: Env, want: string, got: string) {
    if want == "" then got != ""
    else match env.parse(Trim(want))
         case None => false
         case Some(t) => (match env.parse(Trim(got)) case None => false case Some(u) => u < t)
  }

  /** What it takes of each field for the observed value to be stricter than the proposed one. */
  ghost predicate Stricter(env: Env, field: string, want: string, got: string) {
    || (field == "credential_mode" && Above(want, got))
    || (field == "delegation_depth" && env.scan(got) < env.scan(want))
    || (field in {"authority", "preconditions", "forbidden_effects"} && AddsTo(want, got))
    || (field == "approval" && ApprovalStrength(env, want) < ApprovalStrength(env, got))
    || (field == "compensation" && want == "false" && got == "true")
    || (field == "validity" && EndsSooner(env, want, got))
  }

  lemma FieldNamesDiffer()
    ensures |"credential_mode"| == 15 && |"delegation_depth"| == 16 && |"forbidden_effects"| == 17
    ensures |"authority"| == 9 && |"preconditions"| == 13 && |"approval"| == 8 && |"compensation"| == 12
    ensures |"validity"| == 8 && "validity" != "approval"
  {
    assert "validity"[0] != "approval"[0];
  }

  lemma CredentialAbove(want: string, got: string)
    ensures CredentialStrength(got) > CredentialStrength(want) <==> Above(want, got)
  {
    assert |"ephemeral"| == 9 && |"scoped"| == 6 && |"standing_or_unknown"| == 19;
    hide Trim;
  }

  lemma TightensIsStricter(env: Env, field: string, want: string, got: string)
    ensures Tightens(env, field, want, got) <==> Stricter(env, field, want, got)
  {
    FieldNamesDiffer();
    CredentialAbove(want, got);
    SupersetAdds(want, got);
    hide CredentialStrength, Above, IsSuperset, AddsTo, ApprovalStrength, Trim;
  }

  /** The field is there and equal or stricter. */
  ghost predicate Held(env: Env, proposal: Values, actual: Values, field: string)
    requires field in proposal
  {
    field in actual && (actual[field] == proposal[field] || Stricter(env, field, proposal[field], actual[field]))
  }

  // ----- Exceptions -----

  predicate AliasOf(short: string, long: string) {
    || (short == "authority" && long == "authority_requirements")
    || (short == "confirmation" && long == "confirmation_requirement")
    || (short == "approval" && long == "approval_requirement")
    || (short == "compensation" && long == "compensation_requirement")
  }

  /** Two names of one field. */
  predicate SameField(m: string, n: string) {
    m == n || AliasOf(m, n) || AliasOf(n, m)
  }

  /** Some exception names the field, in any case and with any spaces around. */
  ghost predicate Exempt(exceptions: seq<string>, field: string) {
    exists i :: 0 <= i < |exceptions| && SameField(Lower(Trim(field)), Lower(Trim(exceptions[i])))
  }

  lemma AliasesAre(short: string, long: string)
    ensures short in ALIASES && ALIASES[short] == long <==> AliasOf(short, long)
  {
    assert |"authority"| == 9 && |"confirmation"| == 12 && |"approval"| == 8 && |"compensation"| == 12;
    assert "confirmation"[3] != "compensation"[3];
  }

  lemma AcceptedAre(field: string, name: string)
    ensures name in AcceptedNames(field) <==> SameField(Lower(Trim(field)), name)
  {
    AliasesAre(Lower(Trim(field)), name);
    AliasesAre(name, Lower(Trim(field)));
    hide ALIASES, AliasOf, Lower, Trim;
  }

  lemma ExceptedIsExempt(exceptions: seq<string>, field: string)
    ensures Excepted(exceptions, field) <==> Exempt(exceptions, field)
  {
    forall i | 0 <= i < |exceptions|
      ensures Normal(exceptions[i]) in AcceptedNames(field) <==>
              SameField(Lower(Trim(field)), Lower(Trim(exceptions[i])))
    {
      AcceptedAre(field, Normal(exceptions[i]));
    }
    hide AcceptedNames, SameField, Lower, Trim;
  }

  /** The fields a comparison looks at. */
  predicate Compared(field: string) {
    || field == "authority" || field == "preconditions" || field == "confirmation" || field == "approval"
    || field == "credential_mode" || field == "delegation_depth" || field == "expected_outcome"
    || field == "forbidden_effects" || field == "compensation" || field == "validity"
  }

  /** A reference is recognised if it names a compared field or one of two parts of the contract. */
  ghost predicate Recognised(ref: string) {
    var n := Lower(Trim(ref));
    n == "composition_ref" || n == "contract_content_digest" || exists f :: Compared(f) && SameField(f, n)
  }

  lemma KnownNames(n: string)
    ensures n in KNOWN <==>
            || Compared(n) || n == "composition_ref" || n == "contract_content_digest"
            || n == "authority_requirements" || n == "confirmation_requirement"
            || n == "approval_requirement" || n == "compensation_requirement"
  {
  }

  lemma NamesOfCompared(n: string)
    ensures (exists f :: Compared(f) && SameField(f, n)) <==>
            || Compared(n) || n == "authority_requirements" || n == "confirmation_requirement"
            || n == "approval_requirement" || n == "compensation_requirement"
  {
    assert SameField(n, n);
    if n == "authority_requirements" { assert Compared("authority") && SameField("authority", n); }
    if n == "confirmation_requirement" { assert Compared("confirmation") && SameField("confirmation", n); }
    if n == "approval_requirement" { assert Compared("approval") && SameField("approval", n); }
    if n == "compensation_requirement" { assert Compared("compensation") && SameField("compensation", n); }
  }

  lemma KnownIsRecognised(ref: string)
    ensures Normal(ref) in KNOWN <==> Recognised(ref)
  {
    KnownNames(Normal(ref));
    NamesOfCompared(Normal(ref));
    hide KNOWN, Compared, SameField, Lower, Trim;
  }

  /** An exception that is not blank and not recognised. */
  ghost predicate Stray(exceptions: seq<string>, i: int) {
    0 <= i < |exceptions| && Trim(exceptions[i]) != "" && !Recognised(exceptions[i])
  }

  lemma {:induction false} UnknownIn(sorted: seq<string>, u: string)
    ensures u in FlatMap(UnknownOf, sorted) <==> exists x :: x in sorted && Normal(x) !in KNOWN && Normal(x) == u
  {
    if sorted != [] {
      hide KNOWN, Normal;
      var init, last := sorted[..|sorted| - 1], sorted[|sorted| - 1];
      assert sorted == init + [last];
      UnknownIn(init, u);
      FlatMapSnoc(UnknownOf, init, last);
      assert forall x :: x in sorted <==> x in init || x == last;
    }
  }

  /** The unknown references are the normal forms of the stray exceptions. */
  lemma UnknownIsStray(exceptions: seq<string>, u: string)
    ensures u in UnknownRefs(exceptions) <==> exists i :: Stray(exceptions, i) && Lower(Trim(exceptions[i])) == u
  {
    hide KNOWN, Lower, Trim, Recognised, UnknownOf, OrderedKeys;
    UnknownIn(OrderedKeys(TrimmedSet(exceptions)), u);
    forall x ensures Normal(Trim(x)) == Normal(x) && (Normal(x) in KNOWN <==> Recognised(x)) {
      TrimIdempotent(x);
      KnownIsRecognised(x);
    }
    if i :| Stray(exceptions, i) && Lower(Trim(exceptions[i])) == u {
      assert exceptions[i] in exceptions;
      assert Trim(exceptions[i]) in TrimmedSet(exceptions);
      assert Normal(Trim(exceptions[i])) == u;
    }
    if x :| x in TrimmedSet(exceptions) && Normal(x) !in KNOWN && Normal(x) == u {
      var y :| y in exceptions && !Blank(y) && Trim(y) == x;
      var i :| 0 <= i < |exceptions| && exceptions[i] == y;
      assert Stray(exceptions, i);
    }
  }

  lemma NoUnknownNoStray(exceptions: seq<string>)
    ensures UnknownRefs(exceptions) == [] <==> !exists i :: Stray(exceptions, i)
  {
    hide UnknownRefs, Stray;
    if UnknownRefs(exceptions) != [] {
      UnknownIsStray(exceptions, UnknownRefs(exceptions)[0]);
    }
    if i :| Stray(exceptions, i) {
      StrayIsUnknown(exceptions, i);
    }
  }

  lemma StrayIsUnknown(exceptions: seq<string>, i: int)
    requires Stray(exceptions, i)
    ensures Lower(Trim(exceptions[i])) in UnknownRefs(exceptions)
  {
    UnknownIsStray(exceptions, Lower(Trim(exceptions[i])));
    hide UnknownRefs, Recognised, Lower, Trim;
  }

  // ----- The classification -----

  ghost predicate Lacks(env: Env, proposal: Values, actual: Values, exceptions: seq<string>, field: string) {
    field in proposal && !Held(env, proposal, actual, field) && !Exempt(exceptions, field)
  }

  ghost predicate Waives(env: Env, proposal: Values, actual: Values, exceptions: seq<string>, field: string) {
    field in proposal && !Held(env, proposal, actual, field) && Exempt(exceptions, field)
  }

  ghost predicate Differs(proposal: Values, actual: Values, field: string) {
    field in proposal && field in actual && actual[field] != proposal[field]
  }

  lemma JudgeMeans(env: Env, proposal: Values, actual: Values, exceptions: seq<string>, field: string)
    requires field in proposal
    ensures var finding := Judge(env, proposal, actual, exceptions, field);
            && (finding == Lacking <==> Lacks(env, proposal, actual, exceptions, field))
            && (finding == Waived <==> Waives(env, proposal, actual, exceptions, field))
            && (finding == Tighter <==> Held(env, proposal, actual, field) && Differs(proposal, actual, field))
  {
    if field in actual {
      TightensIsStricter(env, field, proposal[field], actual[field]);
    }
    ExceptedIsExempt(exceptions, field);
    hide Tightens, Stricter, Excepted, Exempt;
  }

  lemma FieldsMean(env: Env, proposal: Values, actual: Values, exceptions: seq<string>)
    ensures forall f :: f in FieldsWith(env, proposal, actual, exceptions, Lacking) <==>
            Lacks(env, proposal, actual, exceptions, f)
    ensures forall f :: f in FieldsWith(env, proposal, actual, exceptions, Waived) <==>
            Waives(env, proposal, actual, exceptions, f)
    ensures forall f :: f in FieldsWith(env, proposal, actual, exceptions, Tighter) <==>
              f in proposal && Held(env, proposal, actual, f) && Differs(proposal, actual, f)
  {
    forall f | f in proposal
      ensures var finding := Judge(env, proposal, actual, exceptions, f);
              && (finding == Lacking <==> Lacks(env, proposal, actual, exceptions, f))
              && (finding == Waived <==> Waives(env, proposal, actual, exceptions, f))
              && (finding == Tighter <==> Held(env, proposal, actual, f) && Differs(proposal, actual, f))
    {
      JudgeMeans(env, proposal, actual, exceptions, f);
    }
    hide Judge, Held, Exempt;
  }

  /** Main result. What each classification means, in terms of the values and exceptions given. */
  lemma ClassMeans(env: Env, proposal: Values, actual: Values, exceptions: seq<string>, r: Result)
    requires Verdict(env, proposal, actual, exceptions, r)
    ensures var stray := exists i :: Stray(exceptions, i);
            var lacks := exists f :: Lacks(env, proposal, actual, exceptions, f);
            var waives := exists f :: Waives(env, proposal, actual, exceptions, f);
            var differs := exists f :: Differs(proposal, actual, f);
            && (r.classification.Mismatched? <==> stray)
            && (r.classification.Weakened? <==> !stray && lacks)
            && (r.classification.ExplicitlyExcepted? <==> !stray && !lacks && waives)
            && (r.classification.Tightened? <==> !stray && !lacks && !waives && differs)
            && (r.classification.Exact? <==> !stray && !lacks && !waives && !differs)
            && (r.valid <==> !stray && !lacks)
  {
    hide *;
    NoUnknownNoStray(exceptions);
    FieldsMean(env, proposal, actual, exceptions);
    VerdictClasses(env, proposal, actual, exceptions, r);
    if !(exists f :: Lacks(env, proposal, actual, exceptions, f)) &&
        !(exists f :: Waives(env, proposal, actual, exceptions, f)) {
      DiffersHeld(env, proposal, actual, exceptions);
    }
  }

  /** Where nothing is lacking or waived, fields that differ are tightened ones. */
  lemma DiffersHeld(env: Env, proposal: Values, actual: Values, exceptions: seq<string>)
    requires !exists f :: Lacks(env, proposal, actual, exceptions, f)
    requires !exists f :: Waives(env, proposal, actual, exceptions, f)
    ensures forall f :: Differs(proposal, actual, f) ==> f in proposal && Held(env, proposal, actual, f)
  {
    hide Held, Exempt;
    forall f | Differs(proposal, actual, f) ensures f in proposal && Held(env, proposal, actual, f) {
      assert !Lacks(env, proposal, actual, exceptions, f) && !Waives(env, proposal, actual, exceptions, f);
    }
  }

  lemma VerdictClasses(env: Env, proposal: Values, actual: Values, exceptions: seq<string>, r: Result)
    requires Verdict(env, proposal, actual, exceptions, r)
    ensures var lacking := FieldsWith(env, proposal, actual, exceptions, Lacking);
            var waived := FieldsWith(env, proposal, actual, exceptions, Waived);
            var tighter := FieldsWith(env, proposal, actual, exceptions, Tighter);
            var unknown := UnknownRefs(exceptions) != [];
            && (r.classification.Mismatched? <==> unknown)
            && (r.classification.Weakened? <==> !unknown && lacking != {})
            && (r.classification.ExplicitlyExcepted? <==> !unknown && lacking == {} && waived != {})
            && (r.classification.Tightened? <==> !unknown && lacking == {} && waived == {} && tighter != {})
            && (r.classification.Exact? <==> !unknown && lacking == {} && waived == {} && tighter == {})
            && (r.valid <==> !unknown && lacking == {})
  {
    hide FieldsWith, UnknownRefs, OrderedKeys;
  }

  /** What the reason names, and which exceptions are listed. */
  lemma ReasonMeans(env: Env, proposal: Values, actual: Values, exceptions: seq<string>, r: Result)
    requires Verdict(env, proposal, actual, exceptions, r)
    ensures r.classification.Mismatched? ==>
              exists i :: Stray(exceptions, i) && r.reasons == [UnknownException(Lower(Trim(exceptions[i])))] &&
                  r.exceptions == []
    ensures r.classification.Weakened? ==>
              exists f :: && Lacks(env, proposal, actual, exceptions, f) && r.reasons == [WeakenedField(f)]
                          && forall g :: Lacks(env, proposal, actual, exceptions, g) ==> !Less(g, f)
    ensures r.classification.ExplicitlyExcepted? ==> r.reasons == [ExceptionPresent] && Ascending(Less, r.exceptions)
    ensures r.classification.Weakened? || r.classification.ExplicitlyExcepted? ==>
              forall f :: f in r.exceptions <==> Waives(env, proposal, actual, exceptions, f)
    ensures r.classification.Tightened? ==> r.reasons == [ControlsTightened] && r.exceptions == []
    ensures r.classification.Exact? ==> r.reasons == [] && r.exceptions == []
  {
    hide UnknownRefs, Stray, FieldsWith, Lacks, Waives, Lower, Trim;
    FieldsMean(env, proposal, actual, exceptions);
    var lacking := FieldsWith(env, proposal, actual, exceptions, Lacking);
    var waived := FieldsWith(env, proposal, actual, exceptions, Waived);
    if r.classification.Mismatched? {
      UnknownIsStray(exceptions, UnknownRefs(exceptions)[0]);
    }
    if r.classification.Weakened? {
      LeastFirstOf(lacking);
      ListsAll(r.exceptions, waived);
    }
    if r.classification.ExplicitlyExcepted? {
      ListsAll(r.exceptions, waived);
    }
  }

  lemma LeastFirstOf(keys: set<string>)
    requires keys != {}
    ensures OrderedKeys(keys) != [] && OrderedKeys(keys)[0] in keys
    ensures forall k :: k in keys ==> !Less(k, OrderedKeys(keys)[0])
  {
    var ks := OrderedKeys(keys);
    assert |multiset(keys)| == |keys|;
    assert |multiset(ks)| == |ks|;
    forall k | k in keys ensures !Less(k, ks[0]) {
      assert k in ks;
      var i :| 0 <= i < |ks| && ks[i] == k;
      if i == 0 { LessIrreflexive(k); }
    }
  }

  lemma ListsAll(xs: seq<string>, keys: set<string>)
    requires multiset(xs) == multiset(keys)
    ensures forall x :: x in xs <==> x in keys
  {
    forall x ensures x in xs <==> x in keys {
      assert x in xs <==> x in multiset(xs);
    }
  }

  // ----- What a valid comparison promises -----

  /** Main result. Without exceptions a comparison is valid exactly when every proposed field is there and
      equal or stricter. */
  lemma ValidInValues(env: Env, proposal: Values, actual: Values, r: Result)
    requires Verdict(env, proposal, actual, [], r)
    ensures r.valid <==> forall f :: f in proposal ==> Held(env, proposal, actual, f)
  {
    hide *;
    ClassMeans(env, proposal, actual, [], r);
    NoExemptions(env, proposal, actual);
  }

  lemma NoExemptions(env: Env, proposal: Values, actual: Values)
    ensures !exists i :: Stray([], i)
    ensures forall f :: Lacks(env, proposal, actual, [], f) <==> f in proposal && !Held(env, proposal, actual, f)
  {
    hide Held, Recognised;
  }

  /** The fields on which values may be stricter than proposed. */
  predicate Ordered(f: string) {
    f in {"delegation_depth", "credential_mode", "authority", "preconditions", "forbidden_effects", "approval",
          "compensation", "validity"}
  }

  /** In particular: depth does not grow, the credential does not move down, listed entries are kept,
      approval does not get weaker, compensation is not dropped, validity does not end later, and every
      other field is equal. */
  lemma ValidPromises(env: Env, proposal: Values, actual: Values, r: Result, f: string)
    requires Verdict(env, proposal, actual, [], r) && r.valid && f in proposal
    ensures f in actual
    ensures f == "delegation_depth" ==> env.scan(actual[f]) <= env.scan(proposal[f])
    ensures f == "credential_mode" ==> actual[f] == proposal[f] || Above(proposal[f], actual[f])
    ensures f in {"authority", "preconditions", "forbidden_effects"} ==>
              forall x :: Entry(proposal[f], x) ==> Entry(actual[f], x)
    ensures f == "approval" ==> ApprovalStrength(env, actual[f]) >= ApprovalStrength(env, proposal[f])
    ensures f == "compensation" ==> actual[f] == proposal[f] || (proposal[f] == "false" && actual[f] == "true")
    ensures f == "validity" ==> actual[f] == proposal[f] || EndsSooner(env, proposal[f], actual[f])
    ensures Ordered(f) || actual[f] == proposal[f]
  {
    ValidInValues(env, proposal, actual, r);
    FieldNamesDiffer();
    hide Verdict, Above, Entry, ApprovalStrength, EndsSooner;
    assert Held(env, proposal, actual, f);
  }
}
