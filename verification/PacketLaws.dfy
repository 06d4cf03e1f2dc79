/** Axis derivation is a join with terminal overrides, and a packet's timeline is complete exactly
    when no item of the packet records a gap. */
module PacketLaws {
  import opened Prelude
  import opened Text
  import opened Sorting
  import opened Packet
  import Lifecycle
  import LifecycleHistory

  // ----- Axes -----

  /** An axis without terminal items has the greatest state of its items, or is missing. */
  lemma {:induction false} JoinIsMaximum(evidence: seq<Evidence>, a: Axis)
    ensures forall e :: e in evidence && On(e, a) && !IsTerminal(e) ==> Rank(StateOf(e)) <= Rank(Joined(evidence, a))
    ensures Joined(evidence, a) == Missing ||
            exists e :: e in evidence && On(e, a) && !IsTerminal(e) && StateOf(e) == Joined(evidence, a)
  {
    hide On, StateOf, IsTerminal;
    if evidence != [] {
      var init, last := evidence[..|evidence| - 1], evidence[|evidence| - 1];
      JoinIsMaximum(init, a);
      assert evidence == init + [last];
      assert forall e :: e in evidence <==> e in init || e == last;
    }
  }

  lemma RankInjective(s: AxisState, t: AxisState)
    requires Rank(s) == Rank(t)
    ensures s == t
  {
  }

  /** Main result. Without terminal items the order of the evidence does not matter. */
  lemma AxisOrderFree(xs: seq<Evidence>, ys: seq<Evidence>, a: Axis)
    requires multiset(xs) == multiset(ys)
    requires forall e :: e in xs && On(e, a) ==> !IsTerminal(e)
    ensures AxisResult(xs, a) == AxisResult(ys, a)
  {
    hide On, StateOf, IsTerminal;
    forall e ensures e in xs <==> e in ys {
      if e in xs { Member(e, xs, ys); }
      if e in ys { Member(e, ys, xs); }
    }
    NoTerminal(xs, a);
    NoTerminal(ys, a);
    JoinIsMaximum(xs, a);
    JoinIsMaximum(ys, a);
    RankInjective(Joined(xs, a), Joined(ys, a));
  }

  lemma {:induction false} NoTerminal(evidence: seq<Evidence>, a: Axis)
    requires forall e :: e in evidence && On(e, a) ==> !IsTerminal(e)
    ensures LastTerminal(evidence, a) == None
  {
    hide On, StateOf, IsTerminal;
    if evidence != [] {
      NoTerminal(evidence[..|evidence| - 1], a);
    }
  }

  /** With terminal items the last of them decides alone, whatever else the axis shows. */
  lemma {:induction false} TerminalOverrides(evidence: seq<Evidence>, a: Axis, i: nat)
    requires i < |evidence| && On(evidence[i], a) && IsTerminal(evidence[i])
    requires forall j :: i < j < |evidence| ==> !(On(evidence[j], a) && IsTerminal(evidence[j]))
    ensures LastTerminal(evidence, a) == Some(StateOf(evidence[i]))
    ensures AxisResult(evidence, a) == StateOf(evidence[i])
  {
    hide On, StateOf, IsTerminal;
    if i < |evidence| - 1 {
      TerminalOverrides(evidence[..|evidence| - 1], a, i);
    }
  }

  /** The verdict: complete when all seventeen axes are present, gap when some axis is unknown or
      gap, otherwise partial. */
  lemma VerdictMeaning(evidence: seq<Evidence>)
    ensures |AXES| == 17
    ensures var v := VerdictOf(AllStates(evidence));
            && (v.Complete? <==> forall a :: AxisResult(evidence, a) == Present)
            && (v.HasGap? <==> exists a :: AxisResult(evidence, a) in {Unknown, Gap})
  {
    var states := AllStates(evidence);
    forall a: Axis ensures a in AXES { EveryAxis(a); }
    hide AXES, AxisResult;
    assert forall a: Axis :: a in states && states[a] == AxisResult(evidence, a);
    assert AXES[0] in AXES by { EveryAxis(AXES[0]); }
  }

  // ----- Reasons -----

  /** No two axes share a name, so no two reasons coincide. */
  lemma NameInjective(a: Axis, b: Axis)
    requires Name(a) == Name(b)
    ensures a == b
  {
    NameHash(a);
    NameHash(b);
  }

  function Hash(s: string): (int, char, char) {
    (|s|, if s == "" then 'x' else s[0], if |s| < 4 then 'x' else s[3])
  }

  lemma NameHash(a: Axis)
    ensures Hash(Name(a)) == match a
      case Authority => (9, 'A', 'H') case Readiness => (9, 'R', 'D') case Preconditions => (13, 'P', 'C')
      case Confirmation => (12, 'C', 'F') case Credential => (10, 'C', 'D') case Delegation => (10, 'D', 'E')
      case Approval => (8, 'A', 'R') case Enforcement => (11, 'E', 'O') case Containment => (11, 'C', 'T')
      case ResourceLifecycle => (18, 'R', 'O') case Compensation => (12, 'C', 'P') case Proof => (5, 'P', 'O')
      case Freshness => (9, 'F', 'S') case Correlation => (11, 'C', 'R') case Execution => (9, 'E', 'C')
      case Effect => (6, 'E', 'E') case Outcome => (7, 'O', 'C')
  {
  }

  lemma ReasonInjective(states: States, a: Axis, b: Axis)
    requires ReasonFor(states, a) != [] && ReasonFor(states, a) == ReasonFor(states, b)
    ensures a == b
  {
    hide Name;
    var r := ReasonFor(states, a)[0];
    assert r == "MISSING_" + Name(a) || r == "UNKNOWN_" + Name(a) || r == "GAP_" + Name(a);
    assert r == "MISSING_" + Name(b) || r == "UNKNOWN_" + Name(b) || r == "GAP_" + Name(b);
    if r[0] == 'G' {
      assert r[4..] == Name(a) == Name(b);
    } else {
      assert r[8..] == Name(a) == Name(b);
    }
    NameInjective(a, b);
  }

  /** Main result. Each axis that is not present contributes exactly one reason: the number of
      occurrences of its code is one, and the list is as long as there are such axes. */
  lemma OneReasonPerAxis(evidence: seq<Evidence>, a: Axis)
    ensures var states := AllStates(evidence);
            && (states[a].Present? <==> ReasonFor(states, a) == [])
            && (!states[a].Present? ==> multiset(Reasons(states))[ReasonFor(states, a)[0]] == 1)
            && |Reasons(states)| == |Lacking(states, AXES)|
  {
    var states := AllStates(evidence);
    EveryAxis(a);
    AxesDistinct();
    hide AXES, Name, AxisResult, AllStates;
    CountReasons(states, AXES, a);
    assert AXES[..|AXES|] == AXES;
  }

  lemma AxesDistinct()
    ensures forall i, j :: 0 <= i < j < |AXES| ==> AXES[i] != AXES[j]
  {
  }

  /** The axes of a list that are not present. */
  ghost function Lacking(states: States, axes: seq<Axis>): set<Axis>
    requires forall b :: b in axes ==> b in states
  {
    set b | b in axes && !states[b].Present?
  }

  lemma {:induction false} CountReasons(states: States, axes: seq<Axis>, a: Axis)
    requires forall b :: b in axes ==> b in states
    requires forall i, j :: 0 <= i < j < |axes| ==> axes[i] != axes[j]
    requires a in states
    ensures var raw := FlatMap((b: Axis) => ReasonFor(states, b), axes);
            && (!states[a].Present? ==> multiset(raw)[ReasonFor(states, a)[0]] == if a in axes then 1 else 0)
            && |raw| == |Lacking(states, axes)|
  {
    hide Name;
    if axes != [] {
      var init, last := axes[..|axes| - 1], axes[|axes| - 1];
      assert axes == init + [last];
      assert last !in init;
      CountReasons(states, init, a);
      var f := (b: Axis) => ReasonFor(states, b);
      FlatMapSnoc(f, init, last);
      LackingSnoc(states, init, last);
      if !states[a].Present? { ReasonCount(states, a, last); }
      hide ReasonFor, Lacking;
      assert multiset(FlatMap(f, axes)) == multiset(FlatMap(f, init)) + multiset(f(last));
    }
  }

  lemma LackingSnoc(states: States, init: seq<Axis>, last: Axis)
    requires (forall b :: b in init ==> b in states) && last in states && last !in init
    ensures |Lacking(states, init + [last])| == |Lacking(states, init)| + |ReasonFor(states, last)|
  {
    hide Name;
    var before := Lacking(states, init);
    assert Lacking(states, init + [last]) == if states[last].Present? then before else before + {last};
  }

  lemma ReasonCount(states: States, a: Axis, b: Axis)
    requires a in states && b in states && !states[a].Present?
    ensures multiset(ReasonFor(states, b))[ReasonFor(states, a)[0]] == if a == b then 1 else 0
  {
    hide Name;
    if ReasonFor(states, a) == ReasonFor(states, b) {
      ReasonInjective(states, a, b);
    }
  }

  // ----- Packet timelines -----

  /** Which evidence records a gap, in the packet's own terms. */
  predicate GapEvidence(e: Evidence) {
    GapText(Normal(e.kind), Normal(Attribute(e, "state")))
  }

  predicate GapText(kind: string, state: string) {
    || (kind in {"execution", "execution_failed"} && state == "blocked")
    || (kind in {"test_result", "effect_validated", "effect"} &&
        state in {"unknown", "unresolved", "started", "requested", ""})
    || (kind in {"contained", "containment"} && state in {"partial", "unresolved", "unknown", "gap"})
    || (kind == "compensation" &&
        state !in {"required", "not_required", "started", "requested", "completed", "succeeded", "present"})
  }

  lemma RawUnresolved(s: string)
    requires Lifecycle.Unresolved(s)
    ensures Normal(s) == s
  {
    assert Trim(s) == s;
    assert Lower(s) == s;
  }

  /** The kinds of event that bear a gap by themselves. */
  predicate GapKind(k: Lifecycle.Kind) {
    || k.ExecutionBlocked? || k.EffectUnresolved? || k.CompensationFailed? || k.CompensationUnresolved?
    || k.ContainmentPartial? || k.ContainmentUnresolved?
  }

  lemma KindOfGap(evidenceKind: string, rawState: string)
    ensures var k := EvidenceEventKind(evidenceKind, rawState);
            && (k.Some? && GapKind(k.value) <==> GapText(Normal(evidenceKind), Normal(rawState)))
            && (k == Some(Lifecycle.Kind.Contained) ==> !Lifecycle.Unresolved(Normal(rawState)))
  {
    hide *;
    if Normal(evidenceKind) == "compensation" {
      CompensationGaps(evidenceKind, rawState);
    } else if Normal(evidenceKind) in {"contained", "containment"} {
      ContainmentGaps(evidenceKind, rawState);
    } else {
      OtherGaps(evidenceKind, rawState);
    }
  }

  lemma CompensationGaps(evidenceKind: string, rawState: string)
    requires Normal(evidenceKind) == "compensation"
    ensures var k := EvidenceEventKind(evidenceKind, rawState);
            && (k.Some? && GapKind(k.value) <==> GapText(Normal(evidenceKind), Normal(rawState)))
            && k != Some(Lifecycle.Kind.Contained)
  {
    hide Normal;
  }

  lemma ContainmentGaps(evidenceKind: string, rawState: string)
    requires Normal(evidenceKind) in {"contained", "containment"}
    ensures var k := EvidenceEventKind(evidenceKind, rawState);
            && (k.Some? && GapKind(k.value) <==> GapText(Normal(evidenceKind), Normal(rawState)))
            && (k == Some(Lifecycle.Kind.Contained) ==> !Lifecycle.Unresolved(Normal(rawState)))
  {
    hide Normal;
  }

  lemma OtherGaps(evidenceKind: string, rawState: string)
    requires Normal(evidenceKind) !in {"compensation", "contained", "containment"}
    ensures var k := EvidenceEventKind(evidenceKind, rawState);
            && (k.Some? && GapKind(k.value) <==> GapText(Normal(evidenceKind), Normal(rawState)))
            && k != Some(Lifecycle.Kind.Contained)
  {
    hide Normal;
  }

  /** An item's event bears a gap exactly when the item records one; in particular a containment
      that merely failed counts as contained. */
  lemma GapEvidenceIsGapEvent(e: Evidence)
    ensures GapEvidence(e) <==> AnyGapEvent(EventOf(e))
  {
    hide Normal, EvidenceEventKind, GapText, Attribute;
    var state := Attribute(e, "state");
    KindOfGap(e.kind, state);
    if Lifecycle.Unresolved(state) {
      RawUnresolved(state);
    }
    if EventOf(e) != [] {
      var x := EventOf(e)[0];
      assert EventOf(e) == [x] && x.status == state && Some(x.kind) == EvidenceEventKind(e.kind, state);
      assert LifecycleHistory.GapBearing(x) <==> GapKind(x.kind);
    }
  }

  ghost predicate AnyGapEvent(events: seq<Lifecycle.Event>) {
    exists x :: x in events && LifecycleHistory.GapBearing(x)
  }

  ghost predicate AnyGapEvidence(evidence: seq<Evidence>) {
    exists e :: e in evidence && GapEvidence(e)
  }

  lemma AnyGapConcat(a: seq<Lifecycle.Event>, b: seq<Lifecycle.Event>)
    ensures AnyGapEvent(a + b) <==> AnyGapEvent(a) || AnyGapEvent(b)
  {
    hide LifecycleHistory.GapBearing;
    assert forall x :: x in a + b <==> x in a || x in b;
  }

  lemma AnyGapSnoc(evidence: seq<Evidence>, e: Evidence)
    ensures AnyGapEvidence(evidence + [e]) <==> AnyGapEvidence(evidence) || GapEvidence(e)
  {
    hide GapEvidence;
    assert forall x :: x in evidence + [e] <==> x in evidence || x == e;
  }

  lemma {:induction false} EventsOfEvidence(evidence: seq<Evidence>)
    ensures AnyGapEvent(Events(evidence)) <==> AnyGapEvidence(evidence)
  {
    hide GapEvidence, EventOf, LifecycleHistory.GapBearing;
    if evidence != [] {
      var init, last := evidence[..|evidence| - 1], evidence[|evidence| - 1];
      EventsOfEvidence(init);
      GapEvidenceIsGapEvent(last);
      hide AnyGapEvidence;
      assert evidence == init + [last];
      FlatMapSnoc(EventOf, init, last);
      AnyGapConcat(Events(init), EventOf(last));
      AnyGapSnoc(init, last);
    }
  }

  /** Main result. A packet's projected timeline is complete if and only if it ends in a terminal
      status and no evidence item of the packet, however early, records a gap. */
  lemma PacketTimelineComplete(contractID: string, evidence: seq<Evidence>)
    requires Lifecycle.TimelineOf(contractID, Events(evidence)).Some?
    ensures var s := Lifecycle.TimelineOf(contractID, Events(evidence)).value.state;
            s.complete <==> Lifecycle.Terminal(s.status) && forall e :: e in evidence ==> !GapEvidence(e)
  {
    var events := Events(evidence);
    LifecycleHistory.TimelineOrderIndependent(contractID, events, events);
    LifecycleHistory.CompleteJudgesWholeHistory(contractID, events);
    EventsOfEvidence(evidence);
  }
}
