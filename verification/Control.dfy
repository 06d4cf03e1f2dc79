/** Signed control documents (core/governance/control.go): each record is checked in turn, and its
    control event moves a table of outstanding requests. */
module Control {
  import opened Prelude
  import opened Text
  import opened Sorting
  import opened Json

  datatype Fault = Malformed | Tampered | SignatureInvalid | Nested(fault: Fault) | ParentMismatch | AuthorityExpanded

  /** Timestamp parsing (instant 0 is Go's zero time) and the two signature checks. */
  datatype Env = Env(parse: string -> Option<int>, outer: Object -> Option<Fault>, nested: Object -> Option<Fault>)

  type Prior = map<string, Object>

  const REVOCATION := "external_revocation"

  function Command(c: Object): string { TextOr(c, "command") }
  function Phase(c: Object): string { TextOr(c, "phase") }

  predicate Invalidation(command: string) {
    command == "capability_invalidation" || command == "descendant_invalidation"
  }

  /** Commands whose request is discharged by its response. */
  predicate Ordinary(command: string) {
    !Invalidation(command) && command != REVOCATION
  }

  predicate Requests(c: Object) {
    Phase(c) == "requested" || Phase(c) == "attempted"
  }

  predicate Responds(c: Object) {
    Phase(c) == "acknowledged" || Phase(c) == "failed" || Phase(c) == "denied" || Phase(c) == "invalidated"
  }

  predicate SameText(a: Object, b: Object, key: string) {
    TextOr(a, key) != "" && TextOr(a, key) == TextOr(b, key)
  }

  predicate CausedBy(c: Object, request: Object) {
    && ObjectAt(c, "causal_ref").Some?
    && TextOr(request, "evidence_id") != ""
    && TextAt(ObjectAt(c, "causal_ref").value, "id") == Some(TextOr(request, "evidence_id"))
  }

  predicate SamePlace(c: Object, request: Object) {
    SameText(c, request, "boundary_id") && SameText(c, request, "resource_id") &&
        SameText(c, request, "adapter_identity")
  }

  predicate InScope(c: Object, request: Object) {
    StringsAt(c, "affected_scope") <= StringsAt(request, "affected_scope")
  }

  datatype Step = Moved(prior: Prior) | Refused(fault: Fault)

  /** `verifyControlPhase`: the new table, or the fault. */
  function PhaseStep(prior: Prior, c: Object): Step {
    var command := Command(c);
    if command == "" || Phase(c) == "" then Refused(Malformed)
    else
      var key := if Invalidation(command) && command !in prior then REVOCATION else command;
      if Requests(c) then
        if key in prior then Refused(ParentMismatch) else Moved(prior[command := c])
      else if key !in prior then Refused(ParentMismatch)
      else if !Responds(c) then Refused(Malformed)
      else if Invalidation(command) then Moved(prior)
      else if !CausedBy(c, prior[key]) || !SamePlace(c, prior[key]) then Refused(ParentMismatch)
      else if !InScope(c, prior[key]) then Refused(AuthorityExpanded)
      else Moved(if command == REVOCATION then prior else prior - {command})
  }

  /** The table of outstanding requests, updated in place. */
  class Outstanding {
    var prior: Prior

    constructor ()
      ensures prior == map[]
    {
      prior := map[];
    }

    method VerifyPhase(c: Object) returns (fault: Option<Fault>)
      modifies this
      ensures match PhaseStep(old(prior), c)
              case Moved(next) => fault == None && prior == next
              case Refused(f) => fault == Some(f) && prior == old(prior)
    {
      var command, phase := Command(c), Phase(c);
      if command == "" || phase == "" {
        return Some(Malformed);
      }
      var prev: Option<Object> := if command in prior then Some(prior[command]) else None;
      if Invalidation(command) && prev.None? {
        prev := if REVOCATION in prior then Some(prior[REVOCATION]) else None;
      }
      if Requests(c) {
        if prev.Some? {
          return Some(ParentMismatch);
        }
        prior := prior[command := c];
        return None;
      }
      if prev.None? {
        return Some(ParentMismatch);
      }
      if Responds(c) {
        if Invalidation(command) {
          return None;
        }
        if !CausedBy(c, prev.value) {
          return Some(ParentMismatch);
        }
        if !SamePlace(c, prev.value) {
          return Some(ParentMismatch);
        }
        if !InScope(c, prev.value) {
          return Some(AuthorityExpanded);
        }
        if command != REVOCATION {
          prior := prior - {command};
        }
        return None;
      }
      return Some(Malformed);
    }
  }

  // ----- Documents -----

  datatype Progress = Progress(seen: set<string>, last: int, prior: Prior, statuses: seq<string>)

  datatype Outcome = Going(at: Progress) | Stopped(at: Progress, fault: Fault)

  function Instant(env: Env, r: Object): int {
    match env.parse(TextOr(r, "occurred_at"))
    case None => 0
    case Some(t) => t
  }

  function KindOf(r: Object): seq<string> {
    match TextAt(r, "kind")
    case None => []
    case Some(k) => [k]
  }

  /** One record of the document. */
  function RecordStep(env: Env, p: Progress, r: Object): Outcome {
    var id := TextOr(r, "record_id");
    if id == "" || id in p.seen then Stopped(p, Tampered)
    else
      var p1 := p.(seen := p.seen + {id});
      var ts := Instant(env, r);
      if ts == 0 || (p.last != 0 && ts < p.last) then Stopped(p1, Malformed)
      else
        var p2 := p1.(last := ts);
        if env.outer(r).Some? then Stopped(p2, env.outer(r).value)
        else
          match ObjectAt(r, "control")
          case None => Going(p2)
          case Some(c) =>
            if env.nested(c).Some? then Stopped(p2, Nested(env.nested(c).value))
            else
              match PhaseStep(p.prior, c)
              case Refused(fault) => Stopped(p2, fault)
              case Moved(prior) => Going(p2.(prior := prior, statuses := p.statuses + KindOf(r)))
  }

  function Walk(env: Env, records: seq<Object>): Outcome {
    if records == [] then Going(Progress({}, 0, map[], []))
    else
      match Walk(env, records[..|records| - 1])
      case Stopped(p, fault) => Stopped(p, fault)
      case Going(p) => RecordStep(env, p, records[|records| - 1])
  }

  datatype Report = Report(statuses: seq<string>, lineage: bool, quarantine: bool, authoritative: bool)

  function Reported(env: Env, records: seq<Object>): (Report, Option<Fault>) {
    if records == [] then (Report([], false, false, false), Some(Malformed))
    else
      match Walk(env, records)
      case Stopped(p, fault) => (Report(p.statuses, false, true, false), Some(fault))
      case Going(p) => (Report(SortStrings(p.statuses), true, true, false), None)
  }

  method VerifyControlLifecycle(env: Env, records: seq<Object>) returns (out: Report, fault: Option<Fault>)
    ensures (out, fault) == Reported(env, records)
  {
    if |records| == 0 {
      return Report([], false, false, false), Some(Malformed);
    }
    var p := Progress({}, 0, map[], []);
    var controls := new Outstanding();
    for i := 0 to |records|
      invariant Walk(env, records[..i]) == Going(p)
      invariant controls.prior == p.prior && fresh(controls)
    {
      WalkOne(env, records, i, p);
      var step := CheckRecord(env, p, records[i], controls);
      if step.Stopped? {
        StopIsFinal(env, records, i + 1);
        return Report(step.at.statuses, false, true, false), Some(step.fault);
      }
      p := step.at;
    }
    assert records[..|records|] == records;
    return Report(SortStrings(p.statuses), true, true, false), None;
  }

  method CheckRecord(env: Env, p: Progress, r: Object, controls: Outstanding) returns (step: Outcome)
    requires controls.prior == p.prior
    modifies controls
    ensures step == RecordStep(env, p, r)
    ensures step.Going? ==> controls.prior == step.at.prior
  {
    hide PhaseStep;
    var id := TextOr(r, "record_id");
    if id == "" || id in p.seen {
      return Stopped(p, Tampered);
    }
    var q := p.(seen := p.seen + {id});
    var ts := Instant(env, r);
    if ts == 0 || (p.last != 0 && ts < p.last) {
      return Stopped(q, Malformed);
    }
    q := q.(last := ts);
    var outer := env.outer(r);
    if outer.Some? {
      return Stopped(q, outer.value);
    }
    var control := ObjectAt(r, "control");
    if control.Some? {
      var nested := env.nested(control.value);
      if nested.Some? {
        return Stopped(q, Nested(nested.value));
      }
      var fault := controls.VerifyPhase(control.value);
      if fault.Some? {
        return Stopped(q, fault.value);
      }
      q := q.(prior := controls.prior, statuses := q.statuses + KindOf(r));
    }
    return Going(q);
  }

  lemma WalkOne(env: Env, records: seq<Object>, i: nat, p: Progress)
    requires i < |records| && Walk(env, records[..i]) == Going(p)
    ensures Walk(env, records[..i + 1]) == RecordStep(env, p, records[i])
  {
    hide RecordStep;
    assert records[..i + 1][..i] == records[..i];
  }

  lemma {:induction false} StopIsFinal(env: Env, records: seq<Object>, n: nat)
    requires n <= |records| && Walk(env, records[..n]).Stopped?
    ensures Walk(env, records) == Walk(env, records[..n])
    decreases |records| - n
  {
    hide RecordStep;
    if n == |records| {
      assert records[..n] == records;
    } else {
      assert records[..n + 1][..n] == records[..n];
      StopIsFinal(env, records, n + 1);
    }
  }
}
