/** Frequency windows: adding records moves the window, and this is exactly how a verdict can fall. */
module MatcherWindows {
  import opened Prelude
  import opened Text
  import opened Sorting
  import opened Matcher
  import opened MatcherChoice

  /** Whatever the frequency, added records lower a set's status exactly when it was satisfied and no
      longer is; a partly covered set never falls further. */
  lemma StatusFallsIff(o: Options, q: Requirements, fewer: seq<Record>, more: seq<Record>)
    requires forall r :: r in fewer ==> r in more
    ensures Rank(Evaluated(o, q, more).status) < Rank(Evaluated(o, q, fewer).status) <==>
            Satisfied(o, q, fewer) && !Satisfied(o, q, more)
    ensures Rank(Evaluated(o, q, fewer).status) >= 1 ==> Rank(Evaluated(o, q, more).status) >= 1
  {
    StatusMeaning(o, q, fewer);
    StatusMeaning(o, q, more);
    hide Evaluated, Meets, PartlyMeets, Satisfied;
  }

  /** The same for a control: it falls exactly when some evidence set was satisfied and none is. */
  lemma ControlFallsIff(o: Options, control: Control, fewer: seq<Record>, more: seq<Record>)
    requires forall r :: r in fewer ==> r in more
    ensures var qs := RequirementSets(control);
            Rank(ControlResultOf(o, control, more).status) < Rank(ControlResultOf(o, control, fewer).status) <==>
            && (exists i :: 0 <= i < |qs| && Satisfied(o, qs[i], fewer))
            && !(exists i :: 0 <= i < |qs| && Satisfied(o, qs[i], more))
  {
    hide Evaluated, RequirementSets, ControlResultOf, Satisfied;
    CoveredIffSomeSetSatisfied(o, control, fewer);
    CoveredIffSomeSetSatisfied(o, control, more);
    SelectedHasBestRank(o, control, fewer);
    SelectedHasBestRank(o, control, more);
    var cs, ds := Candidates(o, control, fewer), Candidates(o, control, more);
    var i :| 0 <= i < |cs| && cs[i].status == ControlResultOf(o, control, fewer).status;
    StatusFallsIff(o, RequirementSets(control)[i], fewer, more);
    assert ds[i] == Evaluated(o, RequirementSets(control)[i], more);
  }

  /** The window of the longer list starts no later than that of the shorter. */
  ghost predicate StartsNoLater(more: Option<int>, fewer: Option<int>) {
    more.None? || (fewer.Some? && more.value <= fewer.value)
  }

  /** Main result. As long as the window does not move on, added records never lower a status. A list
      without records has no window, and no status to lose. */
  lemma WindowHoldsStatus(o: Options, q: Requirements, fewer: seq<Record>, more: seq<Record>)
    requires forall r :: r in fewer ==> r in more
    requires fewer == [] || StartsNoLater(WindowStart(o, q, more), WindowStart(o, q, fewer))
    ensures Rank(Evaluated(o, q, fewer).status) <= Rank(Evaluated(o, q, more).status)
  {
    hide *;
    StatusFallsIff(o, q, fewer, more);
    if Satisfied(o, q, fewer) {
      StaysSatisfied(o, q, fewer, more);
    }
  }

  lemma StaysSatisfied(o: Options, q: Requirements, fewer: seq<Record>, more: seq<Record>)
    requires Satisfied(o, q, fewer) && forall r :: r in fewer ==> r in more
    requires fewer == [] || StartsNoLater(WindowStart(o, q, more), WindowStart(o, q, fewer))
    ensures Satisfied(o, q, more)
  {
    hide Meets, TypeOf, WindowStart;
    var early, late := WindowStart(o, q, more), WindowStart(o, q, fewer);
    var r :| r in fewer && Meets(o, q, r) && InWindow(late, r);
    assert r in more && InWindow(early, r);
    if q.requireAll {
      forall ty | ty in q.types
        ensures exists x :: x in more && Meets(o, q, x) && InWindow(early, x) && TypeOf(x) == ty
      {
        var x :| x in fewer && Meets(o, q, x) && InWindow(late, x) && TypeOf(x) == ty;
        assert x in more && InWindow(early, x);
      }
    }
  }

  /** What the window must hold for a set to be covered at all. */
  lemma CoverageNeedsWindow(o: Options, q: Requirements, records: seq<Record>)
    requires forall r :: r in records && Meets(o, q, r) ==> !InWindow(WindowStart(o, q, records), r)
    ensures !Evaluated(o, q, records).status.Covered?
  {
    StatusMeaning(o, q, records);
    hide Evaluated, Meets, WindowStart;
  }

  /** A month and a quarter before an instant lie before it. */
  ghost predicate Calendar(o: Options) {
    forall t, n :: o.monthsBefore(t, n) <= t
  }

  /** One meeting record covers a set that needs no other type, whatever the frequency. */
  lemma OneRecordCovers(o: Options, q: Requirements, r: Record)
    requires Calendar(o) && Meets(o, q, r) && (q.requireAll ==> q.types == {TypeOf(r)})
    ensures Evaluated(o, q, [r]).status.Covered?
  {
    StatusMeaning(o, q, [r]);
    hide Evaluated, InScope, Excluded, StatusOf, TypeOf, Lower, Meets;
    assert r in [r] && InWindow(WindowStart(o, q, [r]), r);
    assert Satisfied(o, q, [r]);
  }

  /** `later` lies a whole window after `r`. */
  ghost predicate WindowAfter(o: Options, q: Requirements, r: Record, later: Record) {
    var frequency := Lower(q.minimumFrequency);
    || (frequency == "daily" && later.timestamp > r.timestamp + 24 * 3600)
    || (frequency == "weekly" && later.timestamp > r.timestamp + 7 * 24 * 3600)
    || (frequency == "monthly" && o.monthsBefore(later.timestamp, 1) > r.timestamp)
    || (frequency == "quarterly" && o.monthsBefore(later.timestamp, 3) > r.timestamp)
  }

  lemma FrequenciesDiffer()
    ensures "daily" != "weekly" && "daily" != "monthly" && "weekly" != "monthly"
    ensures "quarterly" != "daily" && "quarterly" != "weekly" && "quarterly" != "monthly"
  {
  }

  /** Main result. A record is in the window exactly when the last record is not a whole window later. */
  lemma InWindowIff(o: Options, q: Requirements, records: seq<Record>, r: Record)
    requires records != []
    ensures InWindow(WindowStart(o, q, records), r) <==> !WindowAfter(o, q, r, records[|records| - 1])
  {
    hide Lower;
    FrequenciesDiffer();
  }

  lemma WindowMoved(o: Options, q: Requirements, r: Record, later: Record, more: seq<Record>)
    requires WindowAfter(o, q, r, later) && more != [] && more[|more| - 1] == later
    ensures !InWindow(WindowStart(o, q, more), r)
  {
    InWindowIff(o, q, more, r);
  }

  /** Main result. Coverage by one record outlasts another that the set does not count, exactly as long
      as the other is not a whole window later. */
  lemma CoverageLastsWindow(o: Options, q: Requirements, r: Record, later: Record)
    requires Meets(o, q, r) && (q.requireAll ==> q.types == {TypeOf(r)}) && !Meets(o, q, later)
    ensures Evaluated(o, q, [r, later]).status.Covered? <==> !WindowAfter(o, q, r, later)
  {
    hide Evaluated, Meets, WindowStart, TypeOf, WindowAfter, InWindow;
    var both := [r, later];
    InWindowIff(o, q, both, r);
    StatusMeaning(o, q, both);
    assert r in both;
  }

  /** Main result. The law fails for each of the four frequencies: a record that covers its set stops
      doing so once a record a whole window later is added, even one the set does not ask about. */
  lemma WindowBreaksMonotonicity(o: Options, q: Requirements, r: Record, later: Record)
    requires Calendar(o) && Meets(o, q, r) && (q.requireAll ==> q.types == {TypeOf(r)})
    requires !Meets(o, q, later) && WindowAfter(o, q, r, later)
    ensures Evaluated(o, q, [r]).status.Covered? && !Evaluated(o, q, [r, later]).status.Covered?
    ensures Rank(Evaluated(o, q, [r, later]).status) == 1
  {
    hide Evaluated, Meets, WindowStart, TypeOf, WindowAfter;
    OneRecordCovers(o, q, r);
    WindowMoved(o, q, r, later, [r, later]);
    CoverageNeedsWindow(o, q, [r, later]);
    StatusFallsIff(o, q, [r], [r, later]);
  }
}
