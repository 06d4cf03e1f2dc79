/** Evidence packets: the seventeen-axis verdict (core/governance/types.go) and the projection of
    evidence onto lifecycle events (core/governance/graph.go). */
module Packet {
  import opened Prelude
  import opened Text
  import opened Sorting
  import Lifecycle

  datatype Evidence = Evidence(kind: string, ref: Lifecycle.Ref, occurredAt: Lifecycle.Stamp,
                               contractRef: Lifecycle.Ref, attributes: Option<map<string, string>>)

  /** An attribute, or the empty string. */
  function Attribute(e: Evidence, key: string): string {
    if e.attributes.Some? && key in e.attributes.value then e.attributes.value[key] else ""
  }

  function Normal(s: string): string {
    Lower(Trim(s))
  }

  // ----- Axes -----

  datatype Axis =
    | Authority | Readiness | Preconditions | Confirmation | Credential | Delegation | Approval
    | Enforcement | Containment | ResourceLifecycle | Compensation | Proof | Freshness
    | Correlation | Execution | Effect | Outcome

  const AXES: seq<Axis> :=
    [Authority, Readiness, Preconditions, Confirmation, Credential, Delegation, Approval, Enforcement,
     Containment, ResourceLifecycle, Compensation, Proof, Freshness, Correlation, Execution, Effect, Outcome]

  function AxisOf(kind: string): Option<Axis> {
    if kind == "authority" || kind == "authorization" then Some(Authority)
    else if kind == "readiness" then Some(Readiness)
    else if kind == "precondition" || kind == "preconditions" then Some(Preconditions)
    else if kind == "confirmation" then Some(Confirmation)
    else if kind == "credential" then Some(Credential)
    else if kind == "delegation" then Some(Delegation)
    else if kind == "approval" then Some(Approval)
    else if kind == "enforcement" then Some(Enforcement)
    else if kind == "containment" then Some(Containment)
    else if kind == "resource" || kind == "resource_lifecycle" then Some(ResourceLifecycle)
    else if kind == "compensation" then Some(Compensation)
    else if kind == "proof" then Some(Proof)
    else if kind == "freshness" then Some(Freshness)
    else if kind == "correlation" then Some(Correlation)
    else if kind == "execution" then Some(Execution)
    else if kind == "effect" then Some(Effect)
    else if kind == "outcome" then Some(Outcome)
    else None
  }

  /** The axis in the upper case of its reason codes. */
  function Name(a: Axis): string {
    match a
    case Authority => "AUTHORITY" case Readiness => "READINESS" case Preconditions => "PRECONDITIONS"
    case Confirmation => "CONFIRMATION" case Credential => "CREDENTIAL" case Delegation => "DELEGATION"
    case Approval => "APPROVAL" case Enforcement => "ENFORCEMENT" case Containment => "CONTAINMENT"
    case ResourceLifecycle => "RESOURCE_LIFECYCLE" case Compensation => "COMPENSATION" case Proof => "PROOF"
    case Freshness => "FRESHNESS" case Correlation => "CORRELATION" case Execution => "EXECUTION"
    case Effect => "EFFECT" case Outcome => "OUTCOME"
  }

  datatype AxisState = Missing | Present | Unknown | Gap

  /** missing < present < unknown < gap. */
  function Rank(s: AxisState): nat {
    match s case Missing => 0 case Present => 1 case Unknown => 2 case Gap => 3
  }

  function StateOf(e: Evidence): AxisState {
    var s := Normal(Attribute(e, "state"));
    if s == "unknown" || s == "unverifiable" then Unknown
    else if s == "gap" || s == "failed" then Gap
    else if s == "required" then Gap
    else if s == "not_required" || s == "completed" || s == "succeeded" then Present
    else if s == "started" || s == "requested" then Unknown
    else if s == "partial" then Unknown
    else if s == "blocked" then Gap
    else if s == "recorded" then Unknown
    else Present
  }

  predicate IsTerminal(e: Evidence) {
    Attribute(e, "terminal") == "true"
  }

  predicate On(e: Evidence, a: Axis) {
    AxisOf(Normal(e.kind)) == Some(a)
  }

  /** The greatest state of the items on an axis that are not terminal. */
  function Joined(evidence: seq<Evidence>, a: Axis): AxisState {
    if evidence == [] then Missing
    else
      var e := evidence[|evidence| - 1];
      var before := Joined(evidence[..|evidence| - 1], a);
      if On(e, a) && !IsTerminal(e) && Rank(StateOf(e)) > Rank(before) then StateOf(e) else before
  }

  /** The last terminal item on an axis. */
  function LastTerminal(evidence: seq<Evidence>, a: Axis): Option<AxisState> {
    if evidence == [] then None
    else
      var e := evidence[|evidence| - 1];
      if On(e, a) && IsTerminal(e) then Some(StateOf(e)) else LastTerminal(evidence[..|evidence| - 1], a)
  }

  function AxisResult(evidence: seq<Evidence>, a: Axis): AxisState {
    match LastTerminal(evidence, a)
    case Some(s) => s
    case None => Joined(evidence, a)
  }

  datatype Verdict = Complete | Incomplete | HasGap

  type States = map<Axis, AxisState>

  function ReasonFor(states: States, a: Axis): seq<string> {
    if a !in states then []
    else
      match states[a]
      case Missing => ["MISSING_" + Name(a)]
      case Present => []
      case Unknown => ["UNKNOWN_" + Name(a)]
      case Gap => ["GAP_" + Name(a)]
  }

  function AllStates(evidence: seq<Evidence>): (m: States)
    ensures forall a :: a in m <==> a in AXES
    ensures forall a :: a in m ==> m[a] == AxisResult(evidence, a)
  {
    map a | a in AXES :: AxisResult(evidence, a)
  }

  function VerdictOf(states: States): Verdict
    requires forall a :: a in AXES ==> a in states
  {
    if exists a :: a in AXES && (states[a].Unknown? || states[a].Gap?) then HasGap
    else if forall a :: a in AXES ==> states[a].Present? then Complete
    else Incomplete
  }

  function Reasons(states: States): seq<string> {
    SortStrings(FlatMap((a: Axis) => ReasonFor(states, a), AXES))
  }

  method DerivePacketCompleteness(evidence: seq<Evidence>)
    returns (verdict: Verdict, states: States, reasons: seq<string>)
    ensures states == AllStates(evidence)
    ensures verdict == VerdictOf(states) && reasons == Reasons(states)
  {
    states := CollectStates(evidence);
    verdict, reasons := Judge(states);
  }

  /** The first half: item by item, terminal states kept apart and applied last. */
  method CollectStates(evidence: seq<Evidence>) returns (states: States)
    ensures states == AllStates(evidence)
  {
    hide On, StateOf, IsTerminal, AXES, Joined, LastTerminal;
    states := map a | a in AXES :: Missing;
    var terminal: States := map[];
    NoItems();
    for i := 0 to |evidence|
      invariant Folded(evidence[..i], states, terminal)
    {
      assert evidence[..i + 1] == evidence[..i] + [evidence[i]];
      states, terminal := CollectItem(evidence[..i], evidence[i], states, terminal);
    }
    assert evidence[..|evidence|] == evidence;
    states := Override(states, terminal);
  }

  ghost predicate Folded(evidence: seq<Evidence>, states: States, terminal: States) {
    && (forall a :: a in states <==> a in AXES)
    && (forall a :: a in states ==> states[a] == Joined(evidence, a))
    && (forall a :: a in terminal ==> a in AXES)
    && (forall a :: LastTerminal(evidence, a) == if a in terminal then Some(terminal[a]) else None)
  }

  lemma NoItems()
    ensures forall a :: Joined([], a) == Missing && LastTerminal([], a) == None
  {
  }

  method CollectItem(ghost before: seq<Evidence>, e: Evidence, states: States, terminal: States)
    returns (states': States, terminal': States)
    requires Folded(before, states, terminal)
    ensures Folded(before + [e], states', terminal')
  {
    states', terminal' := states, terminal;
    var axis := AxisOf(Normal(e.kind));
    OnAxis(e);
    NeverMissing(e);
    OneMore(before, e);
    hide On, StateOf, IsTerminal, AXES, Joined, LastTerminal, AxisOf, Normal;
    if axis.Some? {
      var state := StateOf(e);
      EveryAxis(axis.value);
      if IsTerminal(e) {
        terminal' := terminal[axis.value := state];
      } else if states[axis.value] == Missing || state == Gap || (state == Unknown && states[axis.value] == Present) {
        states' := states[axis.value := state];
      }
    }
  }

  lemma OneMore(before: seq<Evidence>, e: Evidence)
    ensures forall a :: Joined(before + [e], a) ==
              if On(e, a) && !IsTerminal(e) && Rank(StateOf(e)) > Rank(Joined(before, a)) then StateOf(e)
                else Joined(before, a)
    ensures forall a :: LastTerminal(before + [e], a) ==
              if On(e, a) && IsTerminal(e) then Some(StateOf(e)) else LastTerminal(before, a)
  {
    hide On, StateOf, IsTerminal;
    assert (before + [e])[..|before + [e]| - 1] == before;
  }

  /** Terminal states replace joined ones, in whatever order the map yields them. */
  method Override(joined: States, terminal: States) returns (states: States)
    requires forall a :: a in terminal ==> a in joined
    ensures states == map a | a in joined :: if a in terminal then terminal[a] else joined[a]
  {
    states := joined;
    var todo := terminal.Keys;
    while todo != {}
      invariant todo <= terminal.Keys
      invariant forall a :: a in states <==> a in joined
      invariant forall a :: a in states ==> states[a] == if a in terminal && a !in todo then terminal[a] else joined[a]
    {
      var a :| a in todo;
      todo := todo - {a};
      states := states[a := terminal[a]];
    }
  }

  lemma OnAxis(e: Evidence)
    ensures forall a :: On(e, a) <==> AxisOf(Normal(e.kind)) == Some(a)
  {
  }

  lemma NeverMissing(e: Evidence)
    ensures StateOf(e) != Missing
  {
  }

  lemma EveryAxis(a: Axis)
    ensures a in AXES
  {
    match a
    case Authority => assert AXES[0] == a;
    case Readiness => assert AXES[1] == a;
    case Preconditions => assert AXES[2] == a;
    case Confirmation => assert AXES[3] == a;
    case Credential => assert AXES[4] == a;
    case Delegation => assert AXES[5] == a;
    case Approval => assert AXES[6] == a;
    case Enforcement => assert AXES[7] == a;
    case Containment => assert AXES[8] == a;
    case ResourceLifecycle => assert AXES[9] == a;
    case Compensation => assert AXES[10] == a;
    case Proof => assert AXES[11] == a;
    case Freshness => assert AXES[12] == a;
    case Correlation => assert AXES[13] == a;
    case Execution => assert AXES[14] == a;
    case Effect => assert AXES[15] == a;
    case Outcome => assert AXES[16] == a;
  }

  /** The second half: one reason per axis that is not present, and the verdict. */
  method Judge(states: States) returns (verdict: Verdict, reasons: seq<string>)
    requires forall a :: a in AXES ==> a in states
    ensures verdict == VerdictOf(states) && reasons == Reasons(states)
  {
    hide AXES, Name;
    reasons := [];
    var complete, gap := true, false;
    for i := 0 to |AXES|
      invariant reasons == FlatMap((a: Axis) => ReasonFor(states, a), AXES[..i])
      invariant complete <==> forall j :: 0 <= j < i ==> states[AXES[j]].Present?
      invariant gap <==> exists j :: 0 <= j < i && (states[AXES[j]].Unknown? || states[AXES[j]].Gap?)
    {
      assert AXES[..i + 1][..i] == AXES[..i];
      var axis := AXES[i];
      assert axis in AXES;
      match states[axis]
      case Missing =>
        complete := false;
        reasons := reasons + ["MISSING_" + Name(axis)];
      case Present =>
      case Unknown =>
        complete, gap := false, true;
        reasons := reasons + ["UNKNOWN_" + Name(axis)];
      case Gap =>
        complete, gap := false, true;
        reasons := reasons + ["GAP_" + Name(axis)];
    }
    assert AXES[..|AXES|] == AXES;
    reasons := SortStrings(reasons);
    verdict := if gap then HasGap else if complete then Complete else Incomplete;
  }

  // ----- Events -----

  /** `EvidenceEventKind`: the lifecycle kind an evidence item stands for, if any. */
  function EvidenceEventKind(evidenceKind: string, rawState: string): Option<Lifecycle.Kind> {
    var kind, state := Normal(evidenceKind), Normal(rawState);
    if kind == "proposal" then Some(Lifecycle.Kind.Proposed)
    else if kind == "approval" then Some(Lifecycle.Approved)
    else if kind == "activation" || kind == "policy_enforcement" || kind == "enforcement" then Some(Lifecycle.Activated)
    else if kind == "tool_invocation" || kind == "execution_started" then Some(Lifecycle.ExecutionStarted)
    else if kind == "execution" || kind == "execution_failed" then
      if state == "failed" || state == "gap" || state == "rejected" then Some(Lifecycle.ExecutionFailed)
      else if state == "blocked" then Some(Lifecycle.ExecutionBlocked)
      else if state == "succeeded" || state == "completed" then Some(Lifecycle.ExecutionSucceeded)
      else Some(Lifecycle.ExecutionStarted)
    else if kind == "test_result" || kind == "effect_validated" || kind == "effect" then
      if state == "recorded" then Some(Lifecycle.Kind.EffectRecorded)
      else if state == "rejected" || state == "failed" || state == "gap" then Some(Lifecycle.EffectRejected)
      else if state == "unknown" || state == "unresolved" || state == "started" || state == "requested" ||
          state == "" then
        Some(Lifecycle.EffectUnresolved)
      else Some(Lifecycle.EffectValidated)
    else if kind == "contained" || kind == "containment" then
      if state == "partial" then Some(Lifecycle.ContainmentPartial)
      else if state == "requested" || state == "started" then Some(Lifecycle.ContainmentRequested)
      else if state == "unresolved" || state == "unknown" || state == "gap" then Some(Lifecycle.ContainmentUnresolved)
      else Some(Lifecycle.Kind.Contained)
    else if kind == "compensation" then
      if state == "required" then Some(Lifecycle.Kind.CompensationRequired)
      else if state == "not_required" then Some(Lifecycle.CompensationNotRequired)
      else if state == "failed" || state == "rejected" || state == "gap" then Some(Lifecycle.CompensationFailed)
      else if state == "unknown" || state == "unresolved" then Some(Lifecycle.CompensationUnresolved)
      else if state == "started" || state == "requested" then Some(Lifecycle.CompensationStarted)
      else if state == "completed" || state == "succeeded" || state == "present" then Some(Lifecycle.Kind.Compensated)
      else Some(Lifecycle.CompensationUnresolved)
    else None
  }

  function EventOf(e: Evidence): seq<Lifecycle.Event> {
    var state := Attribute(e, "state");
    var id := if Attribute(e, "event_id") != "" then Attribute(e, "event_id") else e.ref.id;
    var digest := if Attribute(e, "source_digest") != "" then Attribute(e, "source_digest") else e.ref.digest;
    match EvidenceEventKind(e.kind, state)
    case None => []
    case Some(kind) => [Lifecycle.Event(id, e.contractRef, kind, e.occurredAt, state, digest)]
  }

  function Events(evidence: seq<Evidence>): seq<Lifecycle.Event> {
    FlatMap(EventOf, evidence)
  }

  method EventsFromPacket(evidence: seq<Evidence>) returns (events: seq<Lifecycle.Event>)
    ensures events == Events(evidence)
  {
    hide EvidenceEventKind;
    events := [];
    for i := 0 to |evidence|
      invariant events == Events(evidence[..i])
    {
      assert evidence[..i + 1][..i] == evidence[..i];
      var e := evidence[i];
      var state, id, digest := "", e.ref.id, e.ref.digest;
      if e.attributes.Some? {
        state := Attribute(e, "state");
        if Attribute(e, "event_id") != "" {
          id := Attribute(e, "event_id");
        }
        if Attribute(e, "source_digest") != "" {
          digest := Attribute(e, "source_digest");
        }
      }
      var kind := EvidenceEventKind(e.kind, state);
      if kind.Some? {
        events := events + [Lifecycle.Event(id, e.contractRef, kind.value, e.occurredAt, state, digest)];
      }
    }
    assert evidence[..|evidence|] == evidence;
  }
}
