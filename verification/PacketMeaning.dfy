/** What the texts of an evidence item mean: which axis it belongs to, in which state, and which lifecycle
    event it becomes. */
module PacketMeaning {
  import opened Prelude
  import opened Text
  import opened Sorting
  import opened Packet
  import Lifecycle

  /** The item's attribute of this name, without case and surrounding spaces. */
  function Given(e: Evidence, key: string): string {
    match e.attributes
    case None => Lower(Trim(""))
    case Some(m) => Lower(Trim(if key in m then m[key] else ""))
  }

  // ----- Axes -----

  /** Kinds are the axis names in small letters, and three synonyms. */
  predicate NamesAxis(kind: string, a: Axis) {
    || kind == Lower(Name(a))
    || (kind == "authorization" && a == Authority)
    || (kind == "precondition" && a == Preconditions)
    || (kind == "resource" && a == ResourceLifecycle)
  }

  lemma NamesLower()
    ensures Lower("AUTHORITY") == "authority" && Lower("READINESS") == "readiness" &&
            Lower("PRECONDITIONS") == "preconditions"
    ensures Lower("CONFIRMATION") == "confirmation" && Lower("CREDENTIAL") == "credential" &&
            Lower("DELEGATION") == "delegation"
    ensures Lower("APPROVAL") == "approval" && Lower("ENFORCEMENT") == "enforcement" &&
            Lower("CONTAINMENT") == "containment"
  {
  }

  lemma MoreNamesLower()
    ensures Lower("RESOURCE_LIFECYCLE") == "resource_lifecycle" && Lower("COMPENSATION") == "compensation"
    ensures Lower("PROOF") == "proof" && Lower("FRESHNESS") == "freshness" && Lower("CORRELATION") == "correlation"
    ensures Lower("EXECUTION") == "execution" && Lower("EFFECT") == "effect" && Lower("OUTCOME") == "outcome"
  {
  }

  /** The axis a name or synonym stands for, one axis at a time. */
  predicate Denotes(kind: string, a: Axis) {
    match a
    case Authority => kind == "authority" || kind == "authorization"
    case Readiness => kind == "readiness"
    case Preconditions => kind == "preconditions" || kind == "precondition"
    case Confirmation => kind == "confirmation"
    case Credential => kind == "credential"
    case Delegation => kind == "delegation"
    case Approval => kind == "approval"
    case Enforcement => kind == "enforcement"
    case Containment => kind == "containment"
    case ResourceLifecycle => kind == "resource_lifecycle" || kind == "resource"
    case Compensation => kind == "compensation"
    case Proof => kind == "proof"
    case Freshness => kind == "freshness"
    case Correlation => kind == "correlation"
    case Execution => kind == "execution"
    case Effect => kind == "effect"
    case Outcome => kind == "outcome"
  }

  lemma NamedIsDenoted(kind: string, a: Axis)
    ensures NamesAxis(kind, a) <==> Denotes(kind, a)
  {
    NamesLower();
    MoreNamesLower();
    hide Lower;
  }

  lemma DenotedAxis(kind: string, a: Axis)
    requires Denotes(kind, a)
    ensures AxisOf(kind) == Some(a)
  {
  }

  lemma AxisDenoted(kind: string)
    requires AxisOf(kind).Some?
    ensures Denotes(kind, AxisOf(kind).value)
  {
  }

  /** Main result. An item belongs to an axis exactly when its kind is the name of the axis, in any case,
      or one of three synonyms. */
  lemma AxisMeans(e: Evidence, a: Axis)
    ensures On(e, a) <==> NamesAxis(Lower(Trim(e.kind)), a)
  {
    hide *;
    var kind := Lower(Trim(e.kind));
    NamedIsDenoted(kind, a);
    OnIs(e, a);
    if Denotes(kind, a) { DenotedAxis(kind, a); }
    if AxisOf(kind).Some? { AxisDenoted(kind); }
  }

  lemma OnIs(e: Evidence, a: Axis)
    ensures On(e, a) <==> AxisOf(Lower(Trim(e.kind))) == Some(a)
  {
    hide AxisOf, Lower, Trim;
  }

  // ----- States -----

  /** Main result. What the state of an item counts as. */
  lemma StateMeans(e: Evidence)
    ensures var s := Given(e, "state");
            && (StateOf(e) == Gap <==> s in {"gap", "failed", "required", "blocked"})
            && (StateOf(e) == Unknown <==>
                s in {"unknown", "unverifiable", "started", "requested", "partial", "recorded"})
            && (StateOf(e) == Present <==>
                  s !in {"gap", "failed", "required", "blocked", "unknown", "unverifiable", "started", "requested",
                         "partial", "recorded"})
            && StateOf(e) != Missing
            && (IsTerminal(e) <==>
                e.attributes.Some? && "terminal" in e.attributes.value && e.attributes.value["terminal"] == "true")
  {
    StateText(e);
    StateTexts(Given(e, "state"));
    hide Lower, Trim, Given;
  }

  lemma StateText(e: Evidence)
    ensures Normal(Attribute(e, "state")) == Given(e, "state")
  {
    hide Lower, Trim;
  }

  lemma StateTexts(s: string)
    ensures s in {"unknown", "unverifiable"} || s in {"started", "requested", "partial", "recorded"} ==>
              s !in {"gap", "failed", "required", "blocked"}
    ensures s in {"not_required", "completed", "succeeded"} ==>
              s !in {"gap", "failed", "required", "blocked", "unknown", "unverifiable", "started", "requested",
                     "partial", "recorded"}
  {
  }

  /** Missing, present, unknown and gap rank in this order, with nothing in between. */
  lemma RanksMean()
    ensures Rank(Missing) < Rank(Present) < Rank(Unknown) < Rank(Gap)
  {
  }

  /** Each code is the axis name behind the word for its state. */
  lemma ReasonTexts(states: States, a: Axis)
    requires a in states
    ensures ReasonFor(states, a) ==
            if states[a].Present? then []
            else [(if states[a].Missing? then "MISSING" else if states[a].Unknown? then "UNKNOWN"
                   else "GAP") + "_" + Name(a)]
  {
    assert "MISSING" + "_" == "MISSING_" && "UNKNOWN" + "_" == "UNKNOWN_" && "GAP" + "_" == "GAP_";
    assert "MISSING" + "_" + Name(a) == "MISSING_" + Name(a);
  }

  // ----- Events -----

  predicate OfExecution(kind: string) { kind == "execution" || kind == "execution_failed" }
  predicate OfEffect(kind: string) { kind == "effect" || kind == "effect_validated" || kind == "test_result" }
  predicate OfContainment(kind: string) { kind == "containment" || kind == "contained" }
  predicate WentWrong(state: string) { state == "failed" || state == "gap" || state == "rejected" }
  predicate NotKnown(state: string) { state == "unknown" || state == "unresolved" }
  predicate Begun(state: string) { state == "started" || state == "requested" }

  /** Which items become an event of this kind. */
  predicate Becomes(kind: string, state: string, k: Lifecycle.Kind) {
    match k
    case Proposed => kind == "proposal"
    case Approved => kind == "approval"
    case Activated => kind == "activation" || kind == "policy_enforcement" || kind == "enforcement"
    case ExecutionStarted =>
      || kind == "tool_invocation" || kind == "execution_started"
      || (OfExecution(kind) && !WentWrong(state) && state != "blocked" && state != "succeeded" && state != "completed")
    case ExecutionFailed => OfExecution(kind) && WentWrong(state)
    case ExecutionBlocked => OfExecution(kind) && state == "blocked"
    case ExecutionSucceeded => OfExecution(kind) && (state == "succeeded" || state == "completed")
    case EffectRecorded => OfEffect(kind) && state == "recorded"
    case EffectRejected => OfEffect(kind) && WentWrong(state)
    case EffectUnresolved => OfEffect(kind) && (NotKnown(state) || Begun(state) || state == "")
    case EffectValidated =>
      OfEffect(kind) && state != "recorded" && !WentWrong(state) && !NotKnown(state) && !Begun(state) && state != ""
    case ContainmentPartial => OfContainment(kind) && state == "partial"
    case ContainmentRequested => OfContainment(kind) && Begun(state)
    case ContainmentUnresolved => OfContainment(kind) && (NotKnown(state) || state == "gap")
    case Contained => OfContainment(kind) && state != "partial" && !Begun(state) && !NotKnown(state) && state != "gap"
    case CompensationRequired => kind == "compensation" && state == "required"
    case CompensationNotRequired => kind == "compensation" && state == "not_required"
    case CompensationFailed => kind == "compensation" && WentWrong(state)
    case CompensationStarted => kind == "compensation" && Begun(state)
    case Compensated => kind == "compensation" && (state == "completed" || state == "succeeded" || state == "present")
    case CompensationUnresolved =>
      && kind == "compensation" && state != "required" && state != "not_required" && !WentWrong(state) && !Begun(state)
      && state != "completed" && state != "succeeded" && state != "present"
    case _ => false
  }

  lemma CompensationBecomes(evidenceKind: string, rawState: string, k: Lifecycle.Kind)
    requires Normal(evidenceKind) == "compensation"
    ensures EvidenceEventKind(evidenceKind, rawState) == Some(k) <==> Becomes(Normal(evidenceKind), Normal(rawState), k)
  {
    hide Normal;
  }

  lemma EffectBecomes(evidenceKind: string, rawState: string, k: Lifecycle.Kind)
    requires OfEffect(Normal(evidenceKind))
    ensures EvidenceEventKind(evidenceKind, rawState) == Some(k) <==> Becomes(Normal(evidenceKind), Normal(rawState), k)
  {
    hide Normal;
  }

  lemma ContainmentBecomes(evidenceKind: string, rawState: string, k: Lifecycle.Kind)
    requires OfContainment(Normal(evidenceKind))
    ensures EvidenceEventKind(evidenceKind, rawState) == Some(k) <==> Becomes(Normal(evidenceKind), Normal(rawState), k)
  {
    hide Normal;
  }

  lemma ExecutionBecomes(evidenceKind: string, rawState: string, k: Lifecycle.Kind)
    requires OfExecution(Normal(evidenceKind))
    ensures EvidenceEventKind(evidenceKind, rawState) == Some(k) <==> Becomes(Normal(evidenceKind), Normal(rawState), k)
  {
    hide Normal;
  }

  lemma OtherBecomes(evidenceKind: string, rawState: string, k: Lifecycle.Kind)
    requires Normal(evidenceKind) != "compensation" && !OfEffect(Normal(evidenceKind))
    requires !OfContainment(Normal(evidenceKind)) && !OfExecution(Normal(evidenceKind))
    ensures EvidenceEventKind(evidenceKind, rawState) == Some(k) <==> Becomes(Normal(evidenceKind), Normal(rawState), k)
  {
    hide Normal;
  }

  /** Main result. An item becomes an event of a kind exactly when kind and state say so. */
  lemma KindMeans(evidenceKind: string, rawState: string, k: Lifecycle.Kind)
    ensures EvidenceEventKind(evidenceKind, rawState) == Some(k) <==>
            Becomes(Lower(Trim(evidenceKind)), Lower(Trim(rawState)), k)
  {
    hide *;
    NormalIs(evidenceKind);
    NormalIs(rawState);
    var kind := Normal(evidenceKind);
    if kind == "compensation" { CompensationBecomes(evidenceKind, rawState, k); }
    else if OfEffect(kind) { EffectBecomes(evidenceKind, rawState, k); }
    else if OfContainment(kind) { ContainmentBecomes(evidenceKind, rawState, k); }
    else if OfExecution(kind) { ExecutionBecomes(evidenceKind, rawState, k); }
    else { OtherBecomes(evidenceKind, rawState, k); }
  }

  lemma NormalIs(s: string)
    ensures Normal(s) == Lower(Trim(s))
  {
  }

  /** An attribute that is not empty, or else the value that stands for it. */
  function OrElse(e: Evidence, key: string, other: string): string {
    if e.attributes.Some? && key in e.attributes.value && e.attributes.value[key] != "" then e.attributes.value[key]
      else other
  }

  /** The event carries the item's contract, time and raw state, and id and digest unless overridden. */
  lemma EventMeans(e: Evidence)
    ensures |EventOf(e)| <= 1
    ensures EventOf(e) != [] ==>
              var x := EventOf(e)[0];
              && x.contractRef == e.contractRef && x.occurredAt == e.occurredAt && x.status == OrElse(e, "state", "")
              && x.id == OrElse(e, "event_id", e.ref.id) && x.sourceDigest == OrElse(e, "source_digest", e.ref.digest)
              && EvidenceEventKind(e.kind, OrElse(e, "state", "")) == Some(x.kind)
    ensures EventOf(e) == [] ==> EvidenceEventKind(e.kind, OrElse(e, "state", "")) == None
  {
    hide EvidenceEventKind;
  }
}
