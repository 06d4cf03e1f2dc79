/** The control protocol read off the trace alone: which sequences of control events are accepted,
    without mentioning the table the verifier keeps. */
module ControlProtocol {
  import opened Prelude
  import opened Text
  import opened Sorting
  import opened Json
  import opened Control

  /** The table after a sequence of control events, if all are accepted. */
  ghost function Table(cs: seq<Object>): Option<Prior> {
    if cs == [] then Some(map[])
    else
      match Table(cs[..|cs| - 1])
      case None => None
      case Some(prior) => (match PhaseStep(prior, cs[|cs| - 1]) case Refused(_) => None case Moved(next) => Some(next))
  }

  // ----- The protocol, as a property of the trace -----

  /** The response `k` answers and discharges requests of its command. */
  ghost predicate Discharges(cs: seq<Object>, k: int, command: string)
    requires 0 <= k < |cs|
  {
    Command(cs[k]) == command && Responds(cs[k]) && Ordinary(command)
  }

  /** The request at `i` is still outstanding before position `j`. */
  ghost predicate OpenAt(cs: seq<Object>, i: int, j: int, command: string)
    requires 0 <= j <= |cs|
  {
    && 0 <= i < j && Command(cs[i]) == command && Requests(cs[i])
    && forall k :: i < k < j ==> !Discharges(cs, k, command)
  }

  ghost predicate IsOpen(cs: seq<Object>, j: int, command: string)
    requires 0 <= j <= |cs|
  {
    exists i :: OpenAt(cs, i, j, command)
  }

  /** A response stays within its request: cause, boundary, resource, adapter and scope. */
  ghost predicate Within(response: Object, request: Object) {
    CausedBy(response, request) && SamePlace(response, request) && InScope(response, request)
  }

  ghost predicate Lawful(cs: seq<Object>, j: int)
    requires 0 <= j < |cs|
  {
    var command := Command(cs[j]);
    && command != ""
    && (Requests(cs[j]) || Responds(cs[j]))
    && (Requests(cs[j]) ==> !IsOpen(cs, j, command) && (Invalidation(command) ==> !IsOpen(cs, j, REVOCATION)))
    && (Responds(cs[j]) && Invalidation(command) ==> IsOpen(cs, j, command) || IsOpen(cs, j, REVOCATION))
    && (Responds(cs[j]) && !Invalidation(command) ==> exists i :: OpenAt(cs, i, j, command) && Within(cs[j], cs[i]))
  }

  /** The table lists exactly the outstanding requests. */
  ghost predicate Tracks(cs: seq<Object>, prior: Prior) {
    && (forall command :: command in prior <==> IsOpen(cs, |cs|, command))
    && (forall command, i :: OpenAt(cs, i, |cs|, command) ==> command in prior && prior[command] == cs[i])
  }

  /** Outstanding requests before `j` do not depend on what follows. */
  lemma OpenPrefix(cs: seq<Object>, n: nat, j: nat, command: string)
    requires j <= n <= |cs|
    ensures forall i :: OpenAt(cs[..n], i, j, command) <==> OpenAt(cs, i, j, command)
    ensures IsOpen(cs[..n], j, command) <==> IsOpen(cs, j, command)
  {
    hide Command, Requests, Responds, Ordinary;
    var pre := cs[..n];
    forall k | 0 <= k < j ensures pre[k] == cs[k] && (Discharges(pre, k, command) <==> Discharges(cs, k, command)) {
    }
    forall i ensures OpenAt(pre, i, j, command) <==> OpenAt(cs, i, j, command) {
      if OpenAt(pre, i, j, command) {
        assert forall k :: i < k < j ==> !Discharges(pre, k, command);
      }
      if OpenAt(cs, i, j, command) {
        assert forall k :: i < k < j ==> !Discharges(cs, k, command);
      }
    }
  }

  /** One more event: what is outstanding afterwards. */
  lemma OpenStep(cs: seq<Object>, command: string, i: int)
    requires cs != []
    ensures var n := |cs| - 1;
            OpenAt(cs, i, |cs|, command) <==>
              (i == n && Command(cs[n]) == command && Requests(cs[n]))
              || (OpenAt(cs, i, n, command) && !Discharges(cs, n, command))
  {
    hide Command, Requests, Responds, Ordinary;
    var n := |cs| - 1;
    if OpenAt(cs, i, n, command) && !Discharges(cs, n, command) {
      assert forall k :: i < k < |cs| ==> !Discharges(cs, k, command);
    }
  }

  lemma PhasesDisjoint(c: Object)
    ensures !(Requests(c) && Responds(c))
    ensures Requests(c) || Responds(c) ==> Phase(c) != ""
  {
  }

  /** A legal step keeps the table in step with the trace. */
  lemma StepTracks(cs: seq<Object>, prior: Prior, next: Prior)
    requires cs != [] && Tracks(cs[..|cs| - 1], prior) && PhaseStep(prior, cs[|cs| - 1]) == Moved(next)
    ensures Tracks(cs, next)
  {
    var n := |cs| - 1;
    var c := cs[n];
    PhasesDisjoint(c);
    forall command ensures command in next <==> IsOpen(cs, |cs|, command)
      ensures forall i :: OpenAt(cs, i, |cs|, command) ==> command in next && next[command] == cs[i]
    {
      StepTracksOne(cs, prior, next, command);
    }
  }

  lemma StepTracksOne(cs: seq<Object>, prior: Prior, next: Prior, command: string)
    requires cs != [] && Tracks(cs[..|cs| - 1], prior) && PhaseStep(prior, cs[|cs| - 1]) == Moved(next)
    ensures command in next <==> IsOpen(cs, |cs|, command)
    ensures forall i :: OpenAt(cs, i, |cs|, command) ==> command in next && next[command] == cs[i]
  {
    var n := |cs| - 1;
    var c := cs[n];
    PhasesDisjoint(c);
    assert command in next <==>
           (command in prior && !Discharges(cs, n, command)) || (Requests(c) && Command(c) == command);
    assert command in next ==> next[command] == if Requests(c) && Command(c) == command then c else prior[command];
    assert Requests(c) && Command(c) == command ==> command !in prior;
    hide PhaseStep, Command, Requests, Responds, Ordinary, Discharges;
    OpenPrefix(cs, n, n, command);
    forall i { OpenStep(cs, command, i); }
    assert command in prior <==> IsOpen(cs, n, command);
    if IsOpen(cs, n, command) && !Discharges(cs, n, command) {
      var i :| OpenAt(cs, i, n, command);
      assert OpenAt(cs, i, |cs|, command);
    }
    if Requests(c) && Command(c) == command {
      assert OpenAt(cs, n, |cs|, command);
    }
    forall i | OpenAt(cs, i, |cs|, command) ensures command in next && next[command] == cs[i] {
      if i != n {
        assert OpenAt(cs[..n], i, n, command);
        assert cs[..n][i] == cs[i];
      }
    }
  }

  /** The verifier's check of one event is the protocol's. */
  lemma StepIsLawful(cs: seq<Object>, prior: Prior)
    requires cs != [] && Tracks(cs[..|cs| - 1], prior)
    ensures PhaseStep(prior, cs[|cs| - 1]).Moved? <==> Lawful(cs, |cs| - 1)
  {
    var n := |cs| - 1;
    var c := cs[n];
    var command := Command(c);
    PhasesDisjoint(c);
    OpenPrefix(cs, n, n, command);
    OpenPrefix(cs, n, n, REVOCATION);
    assert command in prior <==> IsOpen(cs, n, command);
    assert REVOCATION in prior <==> IsOpen(cs, n, REVOCATION);
    hide CausedBy, SamePlace, InScope, OpenAt;
    assert (exists i :: OpenAt(cs, i, n, command) && Within(c, cs[i])) <==>
           command in prior && Within(c, prior[command]) by {
      hide Within, Requests, Responds, Invalidation;
      forall i | OpenAt(cs, i, n, command) ensures command in prior && prior[command] == cs[i] {
        OpenInRange(cs, i, n, command);
        assert OpenAt(cs[..n], i, n, command);
        assert cs[..n][i] == cs[i];
      }
    }
    LawfulForms(cs, n);
  }

  lemma OpenInRange(cs: seq<Object>, i: int, j: nat, command: string)
    requires j <= |cs| && OpenAt(cs, i, j, command)
    ensures 0 <= i < j
  {
  }

  lemma LawfulForms(cs: seq<Object>, j: nat)
    requires j < |cs|
    ensures Command(cs[j]) == REVOCATION ==> !Invalidation(Command(cs[j]))
  {
  }

  /** Main result. A sequence of control events is accepted if and only if every event is lawful
      given those before it. */
  lemma {:induction false} AcceptedIffLawful(cs: seq<Object>)
    ensures Table(cs).Some? <==> forall j :: 0 <= j < |cs| ==> Lawful(cs, j)
    ensures Table(cs).Some? ==> Tracks(cs, Table(cs).value)
  {
    if cs != [] {
      var init := cs[..|cs| - 1];
      AcceptedIffLawful(init);
      forall j | 0 <= j < |init| ensures Lawful(init, j) <==> Lawful(cs, j) {
        LawfulPrefix(cs, |init|, j);
      }
      hide Lawful, PhaseStep, Tracks;
      if Table(init).Some? {
        StepIsLawful(cs, Table(init).value);
        if Table(cs).Some? {
          StepTracks(cs, Table(init).value, Table(cs).value);
        }
      }
    }
  }

  lemma LawfulPrefix(cs: seq<Object>, n: nat, j: nat)
    requires j < n <= |cs|
    ensures Lawful(cs[..n], j) <==> Lawful(cs, j)
  {
    assert cs[..n][j] == cs[j];
    var command := Command(cs[j]);
    OpenPrefix(cs, n, j, command);
    OpenPrefix(cs, n, j, REVOCATION);
    hide Command, Requests, Responds, Invalidation, Within, OpenAt, IsOpen;
    forall i | OpenAt(cs, i, j, command) ensures cs[..n][i] == cs[i] {
      OpenInRange(cs, i, j, command);
    }
  }

  // ----- Consequences -----

  /** Ordinary commands strictly alternate: a request never follows a request of the same command
      without a response in between, and every response answers a request not answered before. */
  lemma StrictAlternation(cs: seq<Object>, j: nat)
    requires Table(cs).Some? && j < |cs| && Ordinary(Command(cs[j]))
    ensures Requests(cs[j]) ==>
              forall i :: 0 <= i < j && Command(cs[i]) == Command(cs[j]) && Requests(cs[i]) ==>
                exists k :: i < k < j && Discharges(cs, k, Command(cs[j]))
    ensures Responds(cs[j]) ==>
              exists i :: 0 <= i < j && Command(cs[i]) == Command(cs[j]) && Requests(cs[i]) && Within(cs[j], cs[i])
                          && forall k :: i < k < j ==> !Discharges(cs, k, Command(cs[j]))
  {
    AcceptedIffLawful(cs);
    var command := Command(cs[j]);
    assert Lawful(cs, j);
    hide Within, Invalidation, Ordinary, Discharges;
    if Requests(cs[j]) {
      forall i | 0 <= i < j && Command(cs[i]) == command && Requests(cs[i])
        ensures exists k :: i < k < j && Discharges(cs, k, command)
      {
        assert !OpenAt(cs, i, j, command);
      }
    }
  }

  /** An external revocation is requested at most once, and so is each invalidation; after a
      revocation request no invalidation may be requested. */
  lemma RequestedOnce(cs: seq<Object>, i: nat, j: nat)
    requires Table(cs).Some? && i < j < |cs| && Requests(cs[i]) && Requests(cs[j])
    ensures Command(cs[i]) == Command(cs[j]) ==> Ordinary(Command(cs[j]))
    ensures Command(cs[i]) == REVOCATION ==> !Invalidation(Command(cs[j]))
  {
    AcceptedIffLawful(cs);
    assert Lawful(cs, j);
    if !Ordinary(Command(cs[i])) {
      assert OpenAt(cs, i, j, Command(cs[i]));
    }
  }

  /** Every invalidation response follows its own request or a revocation request. */
  lemma InvalidationCaused(cs: seq<Object>, j: nat)
    requires Table(cs).Some? && j < |cs| && Responds(cs[j]) && Invalidation(Command(cs[j]))
    ensures exists i ::
              0 <= i < j && Requests(cs[i]) && (Command(cs[i]) == Command(cs[j]) || Command(cs[i]) == REVOCATION)
  {
    AcceptedIffLawful(cs);
    assert Lawful(cs, j);
    hide Responds, Requests, Invalidation, Discharges;
    if IsOpen(cs, j, Command(cs[j])) {
      var i :| OpenAt(cs, i, j, Command(cs[j]));
    } else {
      var i :| OpenAt(cs, i, j, REVOCATION);
    }
  }

  // ----- Accepted documents -----

  function Controls(records: seq<Object>): seq<Object> {
    FlatMap((r: Object) => match ObjectAt(r, "control") case None => [] case Some(c) => [c], records)
  }

  ghost predicate InOrder(env: Env, records: seq<Object>) {
    && (forall i :: 0 <= i < |records| ==> Instant(env, records[i]) != 0)
    && (forall i, j :: 0 <= i < j < |records| ==> Instant(env, records[i]) <= Instant(env, records[j]))
  }

  ghost predicate Identified(records: seq<Object>) {
    && (forall i :: 0 <= i < |records| ==> TextOr(records[i], "record_id") != "")
    && (forall i, j :: 0 <= i < j < |records| ==> TextOr(records[i], "record_id") != TextOr(records[j], "record_id"))
  }

  ghost predicate Attested(env: Env, records: seq<Object>) {
    forall i :: 0 <= i < |records| ==>
      env.outer(records[i]).None? &&
          (ObjectAt(records[i], "control").Some? ==> env.nested(ObjectAt(records[i], "control").value).None?)
  }

  ghost predicate Acceptable(env: Env, records: seq<Object>) {
    Identified(records) && InOrder(env, records) && Attested(env, records) && Table(Controls(records)).Some?
  }

  /** What the walk has accumulated over an acceptable prefix. */
  ghost predicate Accumulated(env: Env, records: seq<Object>, p: Progress) {
    && (forall id :: id in p.seen <==> exists i :: 0 <= i < |records| && TextOr(records[i], "record_id") == id)
    && p.last == (if records == [] then 0 else Instant(env, records[|records| - 1]))
    && Table(Controls(records)) == Some(p.prior)
  }

  /** Main result. A document is accepted exactly when its ids are present and distinct, its
      instants never go back, its signatures hold, and its control events follow the protocol. */
  lemma DocumentAccepted(env: Env, records: seq<Object>)
    ensures Reported(env, records).1.None? <==>
              records != [] && Identified(records) && InOrder(env, records) && Attested(env, records)
              && forall j :: 0 <= j < |Controls(records)| ==> Lawful(Controls(records), j)
  {
    WalkAccepts(env, records);
    AcceptedIffLawful(Controls(records));
  }

  lemma {:induction false} WalkAccepts(env: Env, records: seq<Object>)
    ensures Walk(env, records).Going? <==> Acceptable(env, records)
    ensures Walk(env, records).Going? ==> Accumulated(env, records, Walk(env, records).at)
  {
    if records != [] {
      var init, r := records[..|records| - 1], records[|records| - 1];
      WalkAccepts(env, init);
      assert records == init + [r];
      if Acceptable(env, records) {
        AcceptablePrefix(env, init, r);
      }
      if Acceptable(env, init) {
        var p := Walk(env, init).at;
        hide Walk, Acceptable;
        StepAccepts(env, init, r, p);
        assert Walk(env, records) == RecordStep(env, p, r)
               by { WalkOne(env, records, |init|, p); assert records[..|init| + 1] == records; }
      }
    }
  }

  lemma ControlsSnoc(init: seq<Object>, r: Object)
    ensures Controls(init + [r]) == Controls(init) + match ObjectAt(r, "control") case None => [] case Some(c) => [c]
  {
    FlatMapSnoc((x: Object) => match ObjectAt(x, "control") case None => [] case Some(c) => [c], init, r);
  }

  lemma TableSnoc(cs: seq<Object>, c: Object)
    ensures Table(cs + [c]) ==
            match Table(cs)
            case None => None
            case Some(prior) =>
              match PhaseStep(prior, c)
              case Refused(_) => None
              case Moved(next) => Some(next)
  {
    hide PhaseStep;
    assert (cs + [c])[..|cs + [c]| - 1] == cs;
  }

  lemma AcceptablePrefix(env: Env, init: seq<Object>, r: Object)
    requires Acceptable(env, init + [r])
    ensures Acceptable(env, init)
  {
    hide PhaseStep, Table, Controls, Instant;
    var all := init + [r];
    assert forall i :: 0 <= i < |init| ==> all[i] == init[i];
    ControlsSnoc(init, r);
    if ObjectAt(r, "control").Some? {
      TableSnoc(Controls(init), ObjectAt(r, "control").value);
    } else {
      assert Controls(all) == Controls(init);
    }
  }

  /** The conditions one more record must meet. */
  ghost predicate NextOk(env: Env, init: seq<Object>, r: Object, prior: Prior) {
    && TextOr(r, "record_id") != ""
    && (forall i :: 0 <= i < |init| ==> TextOr(init[i], "record_id") != TextOr(r, "record_id"))
    && Instant(env, r) != 0 && (init != [] ==> Instant(env, init[|init| - 1]) <= Instant(env, r))
    && env.outer(r).None?
    && (ObjectAt(r, "control").Some? ==>
          env.nested(ObjectAt(r, "control").value).None? && PhaseStep(prior, ObjectAt(r, "control").value).Moved?)
  }

  lemma StepAccepts(env: Env, init: seq<Object>, r: Object, p: Progress)
    requires Acceptable(env, init) && Accumulated(env, init, p)
    ensures RecordStep(env, p, r).Going? <==> Acceptable(env, init + [r])
    ensures RecordStep(env, p, r).Going? ==> Accumulated(env, init + [r], RecordStep(env, p, r).at)
  {
    StepIsNext(env, init, r, p);
    NextIsAcceptable(env, init, r, p.prior);
    if RecordStep(env, p, r).Going? {
      StepAccumulates(env, init, r, p);
    }
  }

  lemma StepIsNext(env: Env, init: seq<Object>, r: Object, p: Progress)
    requires Acceptable(env, init) && Accumulated(env, init, p)
    ensures RecordStep(env, p, r).Going? <==> NextOk(env, init, r, p.prior)
  {
    hide PhaseStep, Table;
  }

  lemma NextIsAcceptable(env: Env, init: seq<Object>, r: Object, prior: Prior)
    requires Acceptable(env, init) && Table(Controls(init)) == Some(prior)
    ensures NextOk(env, init, r, prior) <==> Acceptable(env, init + [r])
  {
    hide PhaseStep, Table, Controls;
    var all := init + [r];
    assert forall i :: 0 <= i < |init| ==> all[i] == init[i];
    assert all[|init|] == r;
    ControlsSnoc(init, r);
    if ObjectAt(r, "control").Some? {
      TableSnoc(Controls(init), ObjectAt(r, "control").value);
    } else {
      assert Controls(all) == Controls(init);
    }
  }

  lemma StepAccumulates(env: Env, init: seq<Object>, r: Object, p: Progress)
    requires Accumulated(env, init, p) && RecordStep(env, p, r).Going?
    ensures Accumulated(env, init + [r], RecordStep(env, p, r).at)
  {
    hide PhaseStep, Table, Controls;
    var all := init + [r];
    var q := RecordStep(env, p, r).at;
    ControlsSnoc(init, r);
    if ObjectAt(r, "control").Some? {
      TableSnoc(Controls(init), ObjectAt(r, "control").value);
    } else {
      assert Controls(all) == Controls(init);
    }
    forall id ensures id in q.seen <==> exists i :: 0 <= i < |all| && TextOr(all[i], "record_id") == id {
      if i :| 0 <= i < |init| && TextOr(init[i], "record_id") == id {
        assert all[i] == init[i];
      }
      if id == TextOr(r, "record_id") {
        assert all[|init|] == r;
      }
    }
  }
}
