/** What an accepted lifecycle history says about the whole of its past: replay does not depend
    on input order, the verdict and the reason codes are functions of the entire history, and
    runs obey counting laws. */
module LifecycleHistory {
  import opened Prelude
  import opened Text
  import opened Sorting
  import opened Lifecycle

  ghost predicate AcceptedHistory(id: string, es: seq<Event>) {
    Fold(id, es).Accepted?
  }

  ghost function Final(id: string, es: seq<Event>): State {
    Fold(id, es).state
  }

  lemma {:induction false} PrefixAccepted(id: string, es: seq<Event>, n: nat)
    requires n <= |es| && AcceptedHistory(id, es)
    ensures AcceptedHistory(id, es[..n])
    decreases |es|
  {
    if n == |es| {
      assert es[..n] == es;
    } else {
      var init := es[..|es| - 1];
      PrefixAccepted(id, init, n);
      assert init[..n] == es[..n];
    }
  }

  /** The last step of a non-empty accepted history. */
  lemma LastStep(id: string, es: seq<Event>)
    requires es != [] && AcceptedHistory(id, es)
    ensures AcceptedHistory(id, es[..|es| - 1])
    ensures Step(Final(id, es[..|es| - 1]), es[|es| - 1]) == Accepted(Final(id, es))
    ensures Final(id, es) == Apply(Final(id, es[..|es| - 1]), es[|es| - 1])
  {
  }

  // ----- What acceptance means event by event -----

  ghost predicate DistinctIds(es: seq<Event>) {
    forall i, j :: 0 <= i < j < |es| ==> es[i].id != es[j].id
  }

  ghost predicate AllParse(es: seq<Event>) {
    forall e :: e in es ==> e.occurredAt.instant.Some?
  }

  function Ids(es: seq<Event>): (ids: seq<string>)
    ensures |ids| == |es| && forall i :: 0 <= i < |es| ==> ids[i] == es[i].id
  {
    seq(|es|, i requires 0 <= i < |es| => es[i].id)
  }

  /** What one accepted step checked and recorded. */
  lemma StepRecords(s: State, e: Event, s': State)
    requires Step(s, e) == Accepted(s')
    ensures e.occurredAt.instant.Some? && e.id !in s.events && s'.events == s.events + [e.id]
    ensures s'.contractID == s.contractID && s'.complete == s.complete
  {
    hide Allowed, Next, CodesAfter, ValidRef, Sha256Digest;
  }

  lemma {:induction false} AcceptedFacts(id: string, es: seq<Event>)
    requires AcceptedHistory(id, es)
    ensures DistinctIds(es) && AllParse(es)
    ensures Final(id, es).contractID == id && !Final(id, es).complete
    ensures Final(id, es).events == Ids(es)
  {
    if es != [] {
      hide Step, Apply, Final, AcceptedHistory;
      var init, e := es[..|es| - 1], es[|es| - 1];
      LastStep(id, es);
      StepRecords(Final(id, init), e, Final(id, es));
      AcceptedFacts(id, init);
      assert es == init + [e];
      forall i | 0 <= i < |init| ensures es[i].id != e.id {
        assert Ids(init)[i] == es[i].id;
      }
    }
  }

  // ----- Order independence -----

  /** On events whose timestamps parse, `EventBefore` is a weak order, and with distinct ids a strict one. */
  lemma EventOrder(es: seq<Event>)
    requires AllParse(es)
    ensures WeakOrderOn(EventBefore, es)
    ensures DistinctIds(es) ==> StrictOn(EventBefore, es)
  {
    forall x, y | x in es && y in es && EventBefore(x, y) ensures !EventBefore(y, x) {
      if Less(x.id, y.id) { LessAsymmetric(x.id, y.id); }
    }
    forall x, y, z | x in es && y in es && z in es && !EventBefore(y, x) && !EventBefore(z, y)
      ensures !EventBefore(z, x)
    {
      if !Less(y.id, x.id) && !Less(z.id, y.id) { LessNotTransitive(x.id, y.id, z.id); }
    }
    if DistinctIds(es) {
      forall x, y | x in es && y in es && x != y ensures EventBefore(x, y) || EventBefore(y, x) {
        assert x.id != y.id;
        LessTotal(x.id, y.id);
      }
    }
  }

  /** Where only some timestamps parse it is no order at all: these three events form a cycle. */
  lemma ComparatorCycles(x: Event, y: Event, z: Event)
    requires x.occurredAt == Stamp("3", Some(1)) && y.occurredAt == Stamp("1", Some(2)) &&
             z.occurredAt == Stamp("2", None)
    ensures EventBefore(x, y) && EventBefore(y, z) && EventBefore(z, x)
    ensures !WeakOrderOn(EventBefore, [x, y, z])
  {
    assert Less("1", "2") && Less("2", "3");
    var es := [x, y, z];
    assert es[0] == x && es[1] == y && es[2] == z;
    LessAsymmetric("1", "2");
    LessAsymmetric("2", "3");
    assert !EventBefore(y, x) && !EventBefore(z, y) && EventBefore(z, x);
  }

  /** `ordered` is a result the library sort may return for `events`: an arrangement of them,
      ascending whenever the comparator is an order on them at all. */
  ghost predicate SortResult(events: seq<Event>, ordered: seq<Event>) {
    multiset(ordered) == multiset(events) && (AllParse(events) ==> Ascending(EventBefore, ordered))
  }

  lemma SortByIsSortResult(events: seq<Event>)
    ensures SortResult(events, SortBy(EventBefore, events))
  {
    if AllParse(events) {
      EventOrder(events);
      SortByAscending(EventBefore, events);
    }
  }

  lemma OneAcceptsBothAgree(id: string, xs: seq<Event>, ys: seq<Event>, xo: seq<Event>, yo: seq<Event>)
    requires multiset(xs) == multiset(ys) && SortResult(xs, xo) && SortResult(ys, yo)
    requires Replayed(id, xo).Accepted?
    ensures xo == yo
  {
    AcceptedFacts(id, xo);
    forall e | e in xs ensures e.occurredAt.instant.Some? { Member(e, xs, xo); }
    forall e | e in ys ensures e.occurredAt.instant.Some? { Member(e, ys, xo); }
    EventOrder(xo);
    AscendingUnique(EventBefore, xo, yo);
  }

  /** Main result. Acceptance and the resulting state depend only on which events there are:
      neither the input order nor the tie-breaking of the sort matters. */
  lemma ReplayOrderIndependent(id: string, xs: seq<Event>, ys: seq<Event>, ordered: seq<Event>)
    requires multiset(xs) == multiset(ys) && SortResult(ys, ordered)
    ensures Replay(id, xs).Accepted? <==> Replayed(id, ordered).Accepted?
    ensures Replay(id, xs).Accepted? ==> Replayed(id, ordered) == Replay(id, xs)
  {
    SortByIsSortResult(xs);
    if Replay(id, xs).Accepted? {
      OneAcceptsBothAgree(id, xs, ys, SortBy(EventBefore, xs), ordered);
    } else if Replayed(id, ordered).Accepted? {
      OneAcceptsBothAgree(id, ys, xs, ordered, SortBy(EventBefore, xs));
    }
  }

  /** A list with an unparseable timestamp is rejected however the sort arranges it. */
  lemma UnparseableRejected(id: string, events: seq<Event>, ordered: seq<Event>)
    requires multiset(ordered) == multiset(events) && !AllParse(events)
    ensures Replayed(id, ordered).Rejected?
  {
    if Replayed(id, ordered).Accepted? {
      AcceptedFacts(id, ordered);
      var e :| e in events && e.occurredAt.instant.None?;
      Member(e, events, ordered);
      assert false;
    }
  }

  /** Timelines: the state lists the ids of the sorted events, the two paths agree with plain
      replay, and every permutation yields the same timeline. */
  lemma TimelineOrderIndependent(id: string, xs: seq<Event>, ys: seq<Event>)
    requires multiset(xs) == multiset(ys) && TimelineOf(id, xs).Some?
    ensures TimelineOf(id, ys) == TimelineOf(id, xs)
    ensures var t := TimelineOf(id, xs).value;
            && multiset(t.events) == multiset(xs)
            && Ascending(EventBefore, t.events)
            && t.state.events == Ids(t.events)
            && Replay(id, xs) == Accepted(t.state)
            && t.sourceDigests == t.state.sourceDigests
  {
    hide Fold;
    var xo, yo := SortBy(EventBefore, xs), SortBy(EventBefore, ys);
    TimelineReplays(id, xs);
    SortByIsSortResult(ys);
    SortByIsSortResult(xs);
    OneAcceptsBothAgree(id, xs, ys, xo, yo);
    AcceptedFacts(id, xo);
    forall e | e in xs ensures e.occurredAt.instant.Some? { Member(e, xs, xo); }
  }

  /** Projecting sorts twice; the second sort changes nothing that is accepted. */
  lemma TimelineReplays(id: string, xs: seq<Event>)
    requires TimelineOf(id, xs).Some?
    ensures Replay(id, xs) == Accepted(TimelineOf(id, xs).value.state)
  {
    hide Fold;
    var xo := SortBy(EventBefore, xs);
    VerifiedIsBoundReplay(id, xo);
    ReplayOrderIndependent(id, xo, xs, xo) by { SortByIsSortResult(xs); }
  }

  /** The strict entry point accepts exactly the bound histories that replay accepts. */
  lemma VerifiedIsBoundReplay(id: string, events: seq<Event>)
    ensures Verified(id, events).Accepted? <==>
            (forall e :: e in events ==> Bound(id, e)) && Replay(id, events).Accepted?
    ensures Verified(id, events).Accepted? ==> Verified(id, events) == Replay(id, events)
  {
    hide Replay, Bound;
    if forall e :: e in events ==> Bound(id, e) {
      assert forall i :: 0 <= i < |events| ==> Bound(id, events[i]);
    }
  }

  // ----- Complete judges the entire history -----

  predicate GapBearing(e: Event) {
    || e.kind in {ExecutionBlocked, EffectUnresolved, CompensationFailed, CompensationUnresolved,
                  ContainmentPartial, ContainmentUnresolved}
    || (e.kind == Kind.Contained && Unresolved(e.status))
  }

  ghost predicate HasBlockingCode(codes: seq<Reason>) {
    exists r :: r in codes && BlockingGap(r)
  }

  lemma EmittedGap(codes: seq<Reason>, e: Event)
    ensures HasBlockingCode(CodesAfter(codes, e)) <==> HasBlockingCode(codes) || GapBearing(e)
  {
    var after := CodesAfter(codes, e);
    if HasBlockingCode(codes) {
      var r :| r in codes && BlockingGap(r);
      assert r in after;
    }
    if GapBearing(e) {
      assert after == codes + Emitted(e) && Emitted(e)[0] in after && BlockingGap(Emitted(e)[0]);
    }
  }

  lemma GapSnoc(es: seq<Event>, last: Event)
    ensures (exists e :: e in es + [last] && GapBearing(e)) <==>
            (exists e :: e in es && GapBearing(e)) || GapBearing(last)
  {
    hide GapBearing;
    assert forall e :: e in es + [last] <==> e in es || e == last;
  }

  lemma {:induction false} GapCodesPersist(id: string, es: seq<Event>)
    requires AcceptedHistory(id, es)
    ensures HasBlockingCode(Final(id, es).reasonCodes) <==> exists e :: e in es && GapBearing(e)
  {
    if es != [] {
      hide Fold, Final, CodesAfter, GapBearing, HasBlockingCode;
      var init, e := es[..|es| - 1], es[|es| - 1];
      CodesStep(id, es);
      GapCodesPersist(id, init);
      EmittedGap(Final(id, init).reasonCodes, e);
      assert es == init + [e];
      GapSnoc(init, e);
    }
  }

  /** Main result. `Complete` holds exactly when the final status is terminal and no gap-bearing
      event was accepted anywhere in the history, earlier activations included. */
  lemma CompleteJudgesWholeHistory(id: string, events: seq<Event>)
    requires Replay(id, events).Accepted?
    ensures var s := Replay(id, events).state;
            s.complete <==> Terminal(s.status) && forall e :: e in events ==> !GapBearing(e)
  {
    var ordered := SortBy(EventBefore, events);
    GapCodesPersist(id, ordered);
    forall e | e in events ensures e in ordered { Member(e, events, ordered); }
    forall e | e in ordered ensures e in events { Member(e, ordered, events); }
  }

  // ----- Reason codes are the history's codes, discharged by compensation -----

  /** The position just after the last completed compensation. */
  function AfterLastCompensated(es: seq<Event>): (k: nat)
    ensures k <= |es|
    ensures k > 0 ==> es[k - 1].kind == Kind.Compensated
    ensures forall i :: k <= i < |es| ==> es[i].kind != Kind.Compensated
  {
    if es == [] then 0
    else if es[|es| - 1].kind == Kind.Compensated then |es|
    else AfterLastCompensated(es[..|es| - 1])
  }

  /** Every code the events emit, in order. */
  function AllEmitted(es: seq<Event>): seq<Reason> {
    FlatMap(Emitted, es)
  }

  lemma {:induction false} WithoutDistributes(a: seq<Reason>, b: seq<Reason>, target: Reason)
    ensures Without(a + b, target) == Without(a, target) + Without(b, target)
  {
    if b == [] {
      assert a + b == a;
    } else {
      var n := |b| - 1;
      assert (a + b)[..|a + b| - 1] == a + b[..n];
      WithoutDistributes(a, b[..n], target);
    }
  }

  lemma {:induction false} WithoutIdempotent(a: seq<Reason>, target: Reason)
    requires target !in a
    ensures Without(a, target) == a
  {
    if a != [] {
      assert a == a[..|a| - 1] + [a[|a| - 1]];
      WithoutIdempotent(a[..|a| - 1], target);
    }
  }

  /** The codes the history leaves standing. */
  function Standing(es: seq<Event>): seq<Reason> {
    var k := AfterLastCompensated(es);
    Without(AllEmitted(es[..k]), RequiredCompensationMissing) + AllEmitted(es[k..])
  }

  lemma WithoutAgain(before: seq<Reason>, after: seq<Reason>, target: Reason)
    ensures Without(Without(before, target) + after, target) == Without(before + after, target)
  {
    WithoutDistributes(before, after, target);
    WithoutDistributes(Without(before, target), after, target);
    WithoutIdempotent(Without(before, target), target);
  }

  lemma DischargeSettles(es: seq<Event>, e: Event)
    requires e.kind == Kind.Compensated
    ensures Standing(es + [e]) == Without(Standing(es), RequiredCompensationMissing)
  {
    var k := AfterLastCompensated(es);
    var all := es + [e];
    assert AfterLastCompensated(all) == |all|;
    assert all[..|all|] == all && all[|all|..] == [];
    AllEmittedSplit(es, k, e);
    assert Emitted(e) == [];
    assert AllEmitted(all) == AllEmitted(es[..k]) + AllEmitted(es[k..]);
    hide Emitted, Without, AfterLastCompensated;
    WithoutAgain(AllEmitted(es[..k]), AllEmitted(es[k..]), RequiredCompensationMissing);
  }

  lemma AllEmittedSplit(es: seq<Event>, k: nat, e: Event)
    requires k <= |es|
    ensures AllEmitted(es + [e]) == AllEmitted(es[..k]) + AllEmitted(es[k..]) + Emitted(e)
  {
    hide Emitted;
    FlatMapSnoc(Emitted, es, e);
    FlatMapConcat(Emitted, es[..k], es[k..]);
    assert es[..k] + es[k..] == es;
  }

  lemma OpenGrows(es: seq<Event>, e: Event)
    requires e.kind != Kind.Compensated
    ensures Standing(es + [e]) == Standing(es) + Emitted(e)
  {
    hide Emitted, Without;
    var k := AfterLastCompensated(es);
    var all := es + [e];
    var open := es[k..];
    assert all[..|all| - 1] == es;
    assert all[..k] == es[..k];
    assert all[k..] == open + [e];
    FlatMapSnoc(Emitted, open, e);
  }

  lemma StandingStep(es: seq<Event>, e: Event)
    ensures Standing(es + [e]) == CodesAfter(Standing(es), e)
  {
    hide Emitted, Without, Standing;
    if e.kind == Kind.Compensated {
      DischargeSettles(es, e);
    } else {
      OpenGrows(es, e);
    }
  }

  lemma NothingStands(id: string)
    ensures Final(id, []).reasonCodes == Standing([])
  {
    assert AfterLastCompensated([]) == 0;
  }

  lemma CodesStep(id: string, es: seq<Event>)
    requires es != [] && AcceptedHistory(id, es)
    ensures var init := es[..|es| - 1];
            AcceptedHistory(id, init) &&
                Final(id, es).reasonCodes == CodesAfter(Final(id, init).reasonCodes, es[|es| - 1])
  {
    hide Allowed, Next, Emitted;
    LastStep(id, es);
  }

  /** Main result. The codes are exactly those emitted by the history, in order, except that
      compensation requirements raised before the last completed compensation are gone. */
  lemma {:induction false} ReasonCodesAreHistory(id: string, es: seq<Event>)
    requires AcceptedHistory(id, es)
    ensures Final(id, es).reasonCodes == Standing(es)
  {
    hide Fold, CodesAfter, Standing;
    if es == [] {
      NothingStands(id);
    } else {
      var init, e := es[..|es| - 1], es[|es| - 1];
      CodesStep(id, es);
      ReasonCodesAreHistory(id, init);
      assert es == init + [e];
      StandingStep(init, e);
    }
  }

  lemma {:induction false} EmittedRequirement(es: seq<Event>)
    ensures RequiredCompensationMissing in AllEmitted(es) <==>
            exists i :: 0 <= i < |es| && es[i].kind == Kind.CompensationRequired
  {
    if es != [] {
      var init, e := es[..|es| - 1], es[|es| - 1];
      EmittedRequirement(init);
      assert RequiredCompensationMissing in Emitted(e) <==> e.kind == Kind.CompensationRequired;
      if i :| 0 <= i < |es| && es[i].kind == Kind.CompensationRequired {
        assert i < |init| ==> init[i] == es[i];
      }
    }
  }

  /** Some requirement follows the last completed compensation. */
  ghost predicate Outstanding(es: seq<Event>) {
    exists i :: 0 <= i < |es| && es[i].kind == Kind.CompensationRequired && UncompensatedAfter(es, i)
  }

  ghost predicate UncompensatedAfter(es: seq<Event>, i: int)
    requires 0 <= i < |es|
  {
    forall j :: i < j < |es| ==> es[j].kind != Kind.Compensated
  }

  lemma OutstandingIsOpen(es: seq<Event>)
    ensures Outstanding(es) <==>
            var open := es[AfterLastCompensated(es)..];
            exists i :: 0 <= i < |open| && open[i].kind == Kind.CompensationRequired
  {
    var k := AfterLastCompensated(es);
    var open := es[k..];
    if i :| 0 <= i < |open| && open[i].kind == Kind.CompensationRequired {
      assert es[k + i] == open[i] && UncompensatedAfter(es, k + i);
    }
    if i :| 0 <= i < |es| && es[i].kind == Kind.CompensationRequired && UncompensatedAfter(es, i) {
      if i < k {
        assert false;
      }
      assert open[i - k] == es[i];
    }
  }

  /** Outstanding compensation: the code is present exactly when some requirement follows the
      last completed compensation in replay order. */
  lemma OutstandingCompensation(id: string, es: seq<Event>)
    requires AcceptedHistory(id, es)
    ensures RequiredCompensationMissing in Final(id, es).reasonCodes <==> Outstanding(es)
  {
    ReasonCodesAreHistory(id, es);
    OutstandingIsOpen(es);
    EmittedRequirement(es[AfterLastCompensated(es)..]);
  }

  // ----- Run counting -----

  function Count(es: seq<Event>, p: Kind -> bool): nat {
    if es == [] then 0
    else Count(es[..|es| - 1], p) + if p(es[|es| - 1].kind) then 1 else 0
  }

  predicate Finish(k: Kind) { k.ExecutionSucceeded? || k.ExecutionFailed? }
  predicate Start(k: Kind) { k.ExecutionStarted? }
  predicate Grant(k: Kind) { k.Approved? || k.Activated? }

  /** The status before the last event, why the event was legal there, and the status after it. */
  lemma StatusStep(id: string, es: seq<Event>)
    requires es != [] && AcceptedHistory(id, es)
    ensures var before := Final(id, es[..|es| - 1]).status;
            && AcceptedHistory(id, es[..|es| - 1])
            && Allowed(before, es[|es| - 1].kind)
            && Final(id, es).status == Next(before, es[|es| - 1])
  {
    hide Next, Emitted, Without;
    LastStep(id, es);
  }

  /** The counting law with the slack the current status still holds. */
  lemma {:induction false} RunInvariant(id: string, es: seq<Event>)
    requires AcceptedHistory(id, es)
    ensures var status := Final(id, es).status;
            && Count(es, Finish) + (if status == Executing then 1 else 0) <= Count(es, Start)
            && Count(es, Start) + (if status == Active then 1 else 0) <= Count(es, Grant)
            && (es == [] <==> status == Unknown)
            && status != Revoking && status != Unverifiable
  {
    if es != [] {
      hide Fold, Allowed, Next;
      StatusStep(id, es);
      RunInvariant(id, es[..|es| - 1]);
      OneRunStep(Final(id, es[..|es| - 1]).status, es[|es| - 1]);
    }
  }

  function One(b: bool): nat { if b then 1 else 0 }

  /** How one legal step moves the slack of the counting law. */
  lemma OneRunStep(before: Status, e: Event)
    requires Allowed(before, e.kind) && before != Revoking
    ensures var after := Next(before, e);
            && One(Finish(e.kind)) + One(after == Executing) <= One(Start(e.kind)) + One(before == Executing)
            && One(Start(e.kind)) + One(after == Active) <= One(Grant(e.kind)) + One(before == Active)
            && after != Unknown && after != Revoking && after != Unverifiable
  {
  }

  /** Main result. In every prefix, finished runs never outnumber started ones, and started runs
      never outnumber grants. */
  lemma RunCounting(id: string, es: seq<Event>, n: nat)
    requires AcceptedHistory(id, es) && n <= |es|
    ensures Count(es[..n], Finish) <= Count(es[..n], Start) <= Count(es[..n], Grant)
  {
    hide Fold;
    PrefixAccepted(id, es, n);
    RunInvariant(id, es[..n]);
  }

  /** A history opens with its only `proposed` or `registered` event. */
  lemma OpensOnce(id: string, es: seq<Event>, i: nat)
    requires AcceptedHistory(id, es) && i < |es|
    ensures es[i].kind in {Kind.Proposed, Registered} <==> i == 0
  {
    hide Fold;
    StepAt(id, es, i);
    RunInvariant(id, es[..i]);
  }

  /** The status before event `i`, and why the event was legal there. */
  lemma StepAt(id: string, es: seq<Event>, i: nat)
    requires AcceptedHistory(id, es) && i < |es|
    ensures AcceptedHistory(id, es[..i]) && AcceptedHistory(id, es[..i + 1])
    ensures var before := Final(id, es[..i]).status;
            && Allowed(before, es[i].kind)
            && Final(id, es[..i + 1]).status == Next(before, es[i])
  {
    hide Fold, Allowed, Next;
    PrefixAccepted(id, es, i);
    PrefixAccepted(id, es, i + 1);
    assert es[..i + 1][..i] == es[..i];
    StatusStep(id, es[..i + 1]);
  }

  /** `approved` can only answer the opening event, so it never precedes an immediate `activated`
      and never recurs; `revocation_acknowledged` is never accepted. */
  lemma DeadTransitions(id: string, es: seq<Event>, i: nat)
    requires AcceptedHistory(id, es) && i < |es|
    ensures es[i].kind == Approved ==> i == 1
    ensures es[i].kind == Approved && i + 1 < |es| ==> es[i + 1].kind != Activated
    ensures es[i].kind != RevocationAcknowledged
  {
    hide Fold;
    StepAt(id, es, i);
    RunInvariant(id, es[..i]);
    if es[i].kind == Approved {
      assert Final(id, es[..i]).status == Status.Proposed;
      ProposedIsFirst(id, es[..i]);
      if i + 1 < |es| {
        StepAt(id, es, i + 1);
      }
    }
  }

  lemma ProposedIsFirst(id: string, es: seq<Event>)
    requires AcceptedHistory(id, es) && Final(id, es).status == Status.Proposed
    ensures |es| == 1
  {
    hide Fold, Allowed, Next, Count;
    RunInvariant(id, es);
    StatusStep(id, es);
    RunInvariant(id, es[..|es| - 1]);
    ProposedOpens(Final(id, es[..|es| - 1]).status, es[|es| - 1]);
  }

  lemma ProposedOpens(before: Status, e: Event)
    requires Allowed(before, e.kind) && Next(before, e) == Status.Proposed
    ensures before == Unknown
  {
  }

  /** As long as no activation follows a start, the contract cannot become active again. */
  lemma {:induction false} InactiveAfterStart(id: string, es: seq<Event>, i: nat)
    requires AcceptedHistory(id, es) && i < |es| && es[i].kind == ExecutionStarted
    requires forall j :: i < j < |es| ==> es[j].kind != Activated
    ensures Final(id, es).status !in {Unknown, Status.Proposed, Active}
    decreases |es|
  {
    hide Fold;
    var init := es[..|es| - 1];
    StatusStep(id, es);
    RunInvariant(id, es);
    if i < |es| - 1 {
      InactiveAfterStart(id, init, i);
    }
  }

  /** Main result. Between two starts there is an activation. */
  lemma ActivationBetweenStarts(id: string, es: seq<Event>, i: nat, k: nat)
    requires AcceptedHistory(id, es) && i < k < |es|
    requires es[i].kind == es[k].kind == ExecutionStarted
    ensures exists j :: i < j < k && es[j].kind == Activated
  {
    hide Fold;
    StepAt(id, es, k);
    if forall j :: i < j < k ==> es[j].kind != Activated {
      InactiveAfterStart(id, es[..k], i);
      assert false;
    }
  }
}
