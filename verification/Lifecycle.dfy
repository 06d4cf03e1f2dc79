/** The governed lifecycle reducer (core/governance/reducer.go): events are sorted by
    (instant, id) and folded through an explicit transition table. */
module Lifecycle {
  import opened Prelude
  import opened Text
  import opened Sorting

  datatype Ref = Ref(id: string, kind: string, digest: string, source: string,
                     sourceProduct: string, schemaID: string, schemaVersion: string)

  predicate ValidRef(r: Ref) {
    && r.id != "" && r.kind != "" && Sha256Digest(r.digest) && r.source != ""
    && r.sourceProduct != "" && r.schemaID != "" && r.schemaVersion != ""
  }

  /** A producer timestamp: its text, and the instant RFC 3339 assigns to it, if any. */
  datatype Stamp = Stamp(text: string, instant: Option<int>)

  datatype Kind =
    | Proposed | Registered | Approved | Activated
    | ExecutionStarted | ExecutionSucceeded | ExecutionFailed | ExecutionBlocked
    | EffectRecorded | EffectValidated | EffectRejected | EffectUnresolved
    | ContainmentRequested | ContainmentPartial | ContainmentUnresolved | Contained
    | CompensationRequired | CompensationNotRequired | CompensationStarted
    | CompensationFailed | CompensationUnresolved | Compensated
    | StopRequested | StopAcknowledged | RevocationRequested | RevocationAcknowledged
    | NoKind | OtherKind(text: string)

  datatype Status =
    | Unknown | Proposed | Active | Executing | Failed | Succeeded | EffectRecorded
    | CompensationRequired | Compensating | Containing | Blocked | Partial | Gap
    | Compensated | Stopping | Revoking | Contained | Unverifiable

  datatype Reason =
    | GapExecutionBlocked | GapEffect | RequiredCompensationMissing | GapCompensation
    | GapContainment | GapContainmentPartial | EvidenceDigestOrReferenceMissing

  datatype Event = Event(id: string, contractRef: Ref, kind: Kind, occurredAt: Stamp,
                         status: string, sourceDigest: string)

  datatype State = State(contractID: string, status: Status, events: seq<string>,
                         sourceDigests: seq<string>, complete: bool, reasonCodes: seq<Reason>)

  datatype Fault =
    | DigestBoundEvidenceRequired | ForeignEvent(id: string) | EventIdRequired
    | DuplicateEvent(id: string) | BadTimestamp(id: string) | BadDigest(id: string)
    | DuplicateDigest | KindRequired(id: string) | UnknownKind(text: string)
    | IllegalTransition(from: Status, kind: Kind)

  /** The reducer returns the state it had reached even when it fails. */
  datatype Outcome = Accepted(state: State) | Rejected(state: State, fault: Fault)

  // ----- Ordering -----

  predicate EventBefore(left: Event, right: Event) {
    if left.occurredAt.instant.Some? && right.occurredAt.instant.Some? then
      if left.occurredAt.instant.value == right.occurredAt.instant.value then Less(left.id, right.id)
      else left.occurredAt.instant.value < right.occurredAt.instant.value
    else if left.occurredAt.text == right.occurredAt.text then Less(left.id, right.id)
    else Less(left.occurredAt.text, right.occurredAt.text)
  }

  // ----- The transition table -----

  predicate Effect(k: Kind) {
    k.EffectRecorded? || k.EffectValidated? || k.EffectRejected? || k.EffectUnresolved?
  }

  predicate Repair(k: Kind) {
    k.CompensationStarted? || k.CompensationFailed? || k.CompensationUnresolved? || k.Compensated?
  }

  predicate Disposition(k: Kind) {
    k.CompensationRequired? || k.CompensationNotRequired?
  }

  predicate Containment(k: Kind) {
    k.Contained? || k.ContainmentPartial? || k.ContainmentUnresolved?
  }

  predicate Halt(k: Kind) {
    k.StopRequested? || k.RevocationRequested?
  }

  /** The rows of the table, including the later additions for effects after a completed
      compensation and for activations of a finished run. */
  predicate Allowed(status: Status, k: Kind) {
    match status
    case Unknown => k.Proposed? || k.Registered?
    case Proposed => k.Approved? || k.Activated?
    case Active => k.ExecutionStarted? || k.ExecutionBlocked? || Halt(k)
    case Executing => Effect(k) || k.ExecutionSucceeded? || k.ExecutionFailed? || k.ExecutionBlocked? || Halt(k)
    case Failed => Disposition(k) || Repair(k) || Containment(k) || k.Activated?
    case Succeeded => Effect(k) || Disposition(k) || Repair(k) || Containment(k) || k.ContainmentRequested? ||
        k.Activated?
    case EffectRecorded => (Effect(k) && !k.EffectRecorded?) || Disposition(k) || Repair(k)
    case CompensationRequired => Effect(k) || Repair(k) || Containment(k) || k.ContainmentRequested?
    case Compensating => Effect(k) || (Repair(k) && !k.CompensationStarted?) || Containment(k) ||
        k.ContainmentRequested?
    case Containing => Containment(k) || Disposition(k) || Repair(k)
    case Blocked => Disposition(k) || Repair(k) || k.Contained? || k.Activated?
    case Partial => Disposition(k) || Repair(k)
    case Gap => Disposition(k) || Repair(k)
    case Compensated => Effect(k) || Containment(k) || k.ContainmentRequested? || k.Activated?
    case Stopping => k.StopAcknowledged? || k.Contained?
    case Revoking => k.RevocationAcknowledged? || k.Contained?
    case Contained => Disposition(k) || k.CompensationStarted? || k.Compensated? || k.Activated?
    case Unverifiable => false
  }

  predicate Unresolved(status: string) {
    status == "unresolved" || status == "unknown" || status == "gap"
  }

  function Next(status: Status, e: Event): Status {
    var k := e.kind;
    if k.Proposed? || k.Registered? then Status.Proposed
    else if k.Approved? || k.Activated? then Active
    else if k.ExecutionStarted? then Executing
    else if k.ExecutionSucceeded? || k.EffectValidated? then Succeeded
    else if k.ExecutionFailed? || k.EffectRejected? then Failed
    else if k.ExecutionBlocked? then Blocked
    else if k.EffectUnresolved? then Gap
    else if k.EffectRecorded? then Status.EffectRecorded
    else if k.CompensationRequired? then Status.CompensationRequired
    else if k.CompensationNotRequired? then status
    else if k.CompensationStarted? then Compensating
    else if k.CompensationFailed? || k.CompensationUnresolved? then Gap
    else if k.Contained? then (if Unresolved(e.status) then Gap else Status.Contained)
    else if k.ContainmentRequested? then Containing
    else if k.ContainmentPartial? then Partial
    else if k.ContainmentUnresolved? then Gap
    else if k.Compensated? then Status.Compensated
    else if k.StopRequested? || k.RevocationRequested? then Stopping
    else if k.StopAcknowledged? || k.RevocationAcknowledged? then Status.Contained
    else status
  }

  /** The reason code an event appends, if any. */
  function Emitted(e: Event): seq<Reason> {
    var k := e.kind;
    if k.ExecutionBlocked? then [GapExecutionBlocked]
    else if k.EffectUnresolved? then [GapEffect]
    else if k.CompensationRequired? then [RequiredCompensationMissing]
    else if k.CompensationFailed? || k.CompensationUnresolved? then [GapCompensation]
    else if k.ContainmentPartial? then [GapContainmentPartial]
    else if k.ContainmentUnresolved? || (k.Contained? && Unresolved(e.status)) then [GapContainment]
    else []
  }

  function Without(reasons: seq<Reason>, target: Reason): (r: seq<Reason>)
    ensures forall x :: x in r <==> x in reasons && x != target
  {
    if reasons == [] then []
    else
      var n := |reasons| - 1;
      assert reasons == reasons[..n] + [reasons[n]];
      Without(reasons[..n], target) + if reasons[n] == target then [] else [reasons[n]]
  }

  function CodesAfter(codes: seq<Reason>, e: Event): seq<Reason> {
    if e.kind == Kind.Compensated then Without(codes, RequiredCompensationMissing)
    else codes + Emitted(e)
  }

  // ----- One step and the fold -----

  /** The checks of one loop iteration, in the order the loop makes them. */
  function Check(contractID: string, status: Status, seen: set<string>, seenDigests: set<string>,
                 e: Event): Option<Fault> {
    if (e.contractRef.digest != "" || e.contractRef.schemaID != "" || e.sourceDigest != "")
       && (!ValidRef(e.contractRef) || e.contractRef.id != contractID || !Sha256Digest(e.sourceDigest))
    then Some(DigestBoundEvidenceRequired)
    else if e.contractRef.id != contractID then Some(ForeignEvent(e.id))
    else if e.id == "" then Some(EventIdRequired)
    else if e.id in seen then Some(DuplicateEvent(e.id))
    else if e.occurredAt.instant.None? then Some(BadTimestamp(e.id))
    else if e.sourceDigest != "" && !Sha256Digest(e.sourceDigest) then Some(BadDigest(e.id))
    else if e.sourceDigest != "" && e.sourceDigest in seenDigests then Some(DuplicateDigest)
    else if e.kind == NoKind then Some(KindRequired(e.id))
    else if e.kind.OtherKind? then Some(UnknownKind(e.kind.text))
    else if !Allowed(status, e.kind) && (status != Unknown || e.kind != Registered)
    then Some(IllegalTransition(status, e.kind))
    else None
  }

  function Elements(xs: seq<string>): (r: set<string>)
    ensures forall x :: x in r <==> x in xs
  {
    set x | x in xs
  }

  function Apply(s: State, e: Event): State {
    s.(status := Next(s.status, e),
       events := s.events + [e.id],
       sourceDigests := s.sourceDigests + if e.sourceDigest == "" then [] else [e.sourceDigest],
       reasonCodes := CodesAfter(s.reasonCodes, e))
  }

  function Step(s: State, e: Event): Outcome {
    match Check(s.contractID, s.status, Elements(s.events), Elements(s.sourceDigests), e)
    case Some(fault) => Rejected(s, fault)
    case None => Accepted(Apply(s, e))
  }

  function Initial(contractID: string): State {
    State(contractID, Unknown, [], [], false, [])
  }

  function Fold(contractID: string, es: seq<Event>): Outcome {
    if es == [] then Accepted(Initial(contractID))
    else
      match Fold(contractID, es[..|es| - 1])
      case Rejected(s, fault) => Rejected(s, fault)
      case Accepted(s) => Step(s, es[|es| - 1])
  }

  predicate BlockingGap(r: Reason) {
    r in {GapContainment, GapContainmentPartial, GapEffect, GapExecutionBlocked, GapCompensation}
  }

  predicate Terminal(status: Status) {
    status in {Succeeded, Failed, Status.Contained, Status.Compensated}
  }

  function Judged(s: State): State {
    s.(complete := Terminal(s.status) && forall r :: r in s.reasonCodes ==> !BlockingGap(r))
  }

  /** What the reducer computes for one particular order of the events. */
  function Replayed(contractID: string, ordered: seq<Event>): Outcome {
    match Fold(contractID, ordered)
    case Rejected(s, fault) => Rejected(s, fault)
    case Accepted(s) => Accepted(Judged(s))
  }

  function Replay(contractID: string, events: seq<Event>): Outcome {
    Replayed(contractID, SortBy(EventBefore, events))
  }

  // ----- The reducer itself -----

  /** The in-place filter of the reason codes: the kept codes are compacted to the front. */
  method RemoveReason(reasons: array<Reason>, target: Reason) returns (kept: nat)
    modifies reasons
    ensures kept <= reasons.Length
    ensures reasons[..kept] == Without(old(reasons[..]), target)
  {
    kept := 0;
    ghost var was := reasons[..];
    for i := 0 to reasons.Length
      invariant kept <= i
      invariant reasons[..kept] == Without(was[..i], target)
      invariant forall j :: i <= j < reasons.Length ==> reasons[j] == was[j]
    {
      assert was[..i + 1][..i] == was[..i];
      var reason := reasons[i];
      if reason != target {
        reasons[kept] := reason;
        kept := kept + 1;
        assert reasons[..kept] == reasons[..kept - 1] + [reason];
      }
    }
    assert was[..reasons.Length] == was;
  }

  method HasBlockingGap(reasons: seq<Reason>) returns (found: bool)
    ensures found <==> exists r :: r in reasons && BlockingGap(r)
  {
    for i := 0 to |reasons|
      invariant forall j :: 0 <= j < i ==> !BlockingGap(reasons[j])
    {
      if BlockingGap(reasons[i]) {
        return true;
      }
    }
    return false;
  }

  method UpdateCodes(codes: seq<Reason>, e: Event) returns (r: seq<Reason>)
    ensures r == CodesAfter(codes, e)
  {
    if e.kind != Kind.Compensated {
      return codes + Emitted(e);
    }
    var buffer := new Reason[|codes|](k requires 0 <= k < |codes| => codes[k]);
    assert buffer[..] == codes;
    var kept := RemoveReason(buffer, RequiredCompensationMissing);
    r := buffer[..kept];
  }

  /** The bookkeeping for an event that passed every check. */
  method Accept(s: State, seen: set<string>, seenDigests: set<string>, e: Event)
    returns (s': State, seen': set<string>, seenDigests': set<string>)
    requires seen == Elements(s.events) && seenDigests == Elements(s.sourceDigests)
    ensures s' == Apply(s, e)
    ensures seen' == Elements(s'.events) && seenDigests' == Elements(s'.sourceDigests)
  {
    s', seen', seenDigests' := s.(events := s.events + [e.id]), seen + {e.id}, seenDigests;
    if e.sourceDigest != "" {
      s' := s'.(sourceDigests := s'.sourceDigests + [e.sourceDigest]);
      seenDigests' := seenDigests' + {e.sourceDigest};
    }
    var codes := UpdateCodes(s'.reasonCodes, e);
    s' := s'.(status := Next(s'.status, e), reasonCodes := codes);
  }

  method ReduceChecked(contractID: string, events: seq<Event>) returns (out: Outcome)
    ensures out == Replay(contractID, events)
  {
    var ordered := SortBy(EventBefore, events);
    var s := Initial(contractID);
    var seen: set<string>, seenDigests: set<string> := {}, {};
    for i := 0 to |ordered|
      invariant Fold(contractID, ordered[..i]) == Accepted(s)
      invariant s.contractID == contractID && !s.complete
      invariant seen == Elements(s.events) && seenDigests == Elements(s.sourceDigests)
    {
      var e := ordered[i];
      FoldOne(contractID, ordered, i, s);
      var fault := Check(contractID, s.status, seen, seenDigests, e);
      if fault.Some? {
        FaultIsFinal(contractID, ordered, i + 1);
        return Rejected(s, fault.value);
      }
      s, seen, seenDigests := Accept(s, seen, seenDigests, e);
    }
    assert ordered[..|ordered|] == ordered;
    var blocked := HasBlockingGap(s.reasonCodes);
    s := s.(complete := Terminal(s.status) && !blocked);
    return Accepted(s);
  }

  lemma FoldOne(contractID: string, es: seq<Event>, i: nat, s: State)
    requires i < |es| && Fold(contractID, es[..i]) == Accepted(s)
    ensures Fold(contractID, es[..i + 1]) == Step(s, es[i])
  {
    assert es[..i + 1][..i] == es[..i];
  }

  /** A fault in a prefix is the fault of the whole. */
  lemma {:induction false} FaultIsFinal(contractID: string, es: seq<Event>, n: nat)
    requires n <= |es| && Fold(contractID, es[..n]).Rejected?
    ensures Fold(contractID, es) == Fold(contractID, es[..n])
    decreases |es| - n
  {
    if n == |es| {
      assert es[..n] == es;
    } else {
      assert es[..n + 1][..n] == es[..n];
      FaultIsFinal(contractID, es, n + 1);
    }
  }

  /** Every event carries a complete reference to this contract and a well-formed digest. */
  predicate Bound(contractID: string, e: Event) {
    ValidRef(e.contractRef) && e.contractRef.id == contractID && Sha256Digest(e.sourceDigest)
  }

  function Verified(contractID: string, events: seq<Event>): Outcome {
    if forall i :: 0 <= i < |events| ==> Bound(contractID, events[i]) then Replay(contractID, events)
    else Rejected(State(contractID, Unverifiable, [], [], false, [EvidenceDigestOrReferenceMissing]),
                  DigestBoundEvidenceRequired)
  }

  method ReduceVerified(contractID: string, events: seq<Event>) returns (out: Outcome)
    ensures out == Verified(contractID, events)
  {
    for i := 0 to |events|
      invariant forall j :: 0 <= j < i ==> Bound(contractID, events[j])
    {
      if !Bound(contractID, events[i]) {
        return Rejected(State(contractID, Unverifiable, [], [], false, [EvidenceDigestOrReferenceMissing]),
                        DigestBoundEvidenceRequired);
      }
    }
    out := ReduceChecked(contractID, events);
  }

  // ----- Timelines (core/governance/graph.go) -----

  datatype Timeline = Timeline(contractID: string, events: seq<Event>, state: State, sourceDigests: seq<string>)

  function TimelineOf(contractID: string, events: seq<Event>): Option<Timeline> {
    var sorted := SortBy(EventBefore, events);
    var out := if sorted != [] && ValidRef(sorted[0].contractRef) then Verified(contractID, sorted)
      else Replay(contractID, sorted);
    if out.Rejected? then None
    else Some(Timeline(contractID, sorted, out.state, out.state.sourceDigests))
  }

  method ProjectTimeline(contractID: string, events: seq<Event>) returns (timeline: Option<Timeline>)
    ensures timeline == TimelineOf(contractID, events)
  {
    var sorted := SortBy(EventBefore, events);
    var out;
    if sorted != [] && ValidRef(sorted[0].contractRef) {
      out := ReduceVerified(contractID, sorted);
    } else {
      out := ReduceChecked(contractID, sorted);
    }
    if out.Rejected? {
      return None;
    }
    return Some(Timeline(contractID, sorted, out.state, out.state.sourceDigests));
  }
}
