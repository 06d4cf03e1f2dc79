/** Control documents read key by key: what a request, a response and its bonds to the request are, what
    the report says, and what each fault means. */
module ControlMeaning {
  import opened Prelude
  import opened Text
  import opened Sorting
  import opened Json
  import opened Control
  import opened ControlProtocol

  // ----- The terms of the protocol -----

  /** The object holds this text at the key. */
  predicate Says(o: Object, key: string, text: string) {
    key in o && o[key] == Str(text)
  }

  predicate Asks(c: Object) {
    Says(c, "phase", "requested") || Says(c, "phase", "attempted")
  }

  predicate Answers(c: Object) {
    Says(c, "phase", "acknowledged") || Says(c, "phase", "failed") || Says(c, "phase", "denied") ||
        Says(c, "phase", "invalidated")
  }

  /** Both hold the same text at the key, and it is not empty. */
  predicate Agree(c: Object, d: Object, key: string) {
    key in c && c[key].Str? && key in d && d[key] == c[key] && c[key].text != ""
  }

  /** The response names the evidence of the request as its cause. */
  predicate NamesCause(response: Object, request: Object) {
    && "causal_ref" in response && response["causal_ref"].Obj?
    && "evidence_id" in request && request["evidence_id"].Str? && request["evidence_id"].text != ""
    && "id" in response["causal_ref"].fields && response["causal_ref"].fields["id"] == request["evidence_id"]
  }

  /** Every text the response lists as affected, the request lists. */
  predicate AffectsNoMore(response: Object, request: Object) {
    "affected_scope" in response && response["affected_scope"].Arr? ==>
      forall i :: 0 <= i < |response["affected_scope"].items| && response["affected_scope"].items[i].Str? ==>
        && "affected_scope" in request && request["affected_scope"].Arr?
        && response["affected_scope"].items[i] in request["affected_scope"].items
  }

  predicate KeepsWithin(response: Object, request: Object) {
    && NamesCause(response, request) && Agree(response, request, "boundary_id")
    && Agree(response, request, "resource_id") && Agree(response, request, "adapter_identity")
    && AffectsNoMore(response, request)
  }

  lemma PhasesDiffer()
    ensures "requested" != "" && "attempted" != "" && "acknowledged" != "" && "failed" != ""
    ensures "denied" != "" && "invalidated" != ""
  {
  }

  lemma AsksIs(c: Object)
    ensures Requests(c) <==> Asks(c)
    ensures Responds(c) <==> Answers(c)
    ensures Command(c) == if "command" in c && c["command"].Str? then c["command"].text else ""
    ensures Phase(c) == if "phase" in c && c["phase"].Str? then c["phase"].text else ""
  {
    PhasesDiffer();
  }

  lemma CausedIs(response: Object, request: Object)
    ensures CausedBy(response, request) <==> NamesCause(response, request)
  {
  }

  lemma PlaceIs(response: Object, request: Object)
    ensures SamePlace(response, request) <==>
            && Agree(response, request, "boundary_id") && Agree(response, request, "resource_id")
            && Agree(response, request, "adapter_identity")
  {
  }

  lemma ScopeIs(response: Object, request: Object)
    ensures InScope(response, request) <==> AffectsNoMore(response, request)
  {
    var key := "affected_scope";
    if AffectsNoMore(response, request) {
      forall x | x in StringsAt(response, key) ensures x in StringsAt(request, key) {
        var i :| 0 <= i < |ItemsAt(response, key)| && ItemsAt(response, key)[i].Str? &&
            ItemsAt(response, key)[i].text == x;
        assert ItemsAt(response, key)[i] in ItemsAt(request, key);
      }
    }
    if StringsAt(response, key) <= StringsAt(request, key) && key in response && response[key].Arr? {
      forall i | 0 <= i < |response[key].items| && response[key].items[i].Str?
        ensures key in request && request[key].Arr? && response[key].items[i] in request[key].items
      {
        assert response[key].items[i].text in StringsAt(response, key);
        var y :| y in ItemsAt(request, key) && y.Str? && y.text == response[key].items[i].text;
      }
    }
  }

  lemma WithinIs(response: Object, request: Object)
    ensures Within(response, request) <==> KeepsWithin(response, request)
  {
    CausedIs(response, request);
    PlaceIs(response, request);
    ScopeIs(response, request);
    hide CausedBy, NamesCause, SamePlace, InScope, AffectsNoMore, Agree;
  }

  // ----- The law of one event, in these terms -----

  predicate Invalidates(command: string) {
    command == "capability_invalidation" || command == "descendant_invalidation"
  }

  function CommandOf(c: Object): string {
    if "command" in c && c["command"].Str? then c["command"].text else ""
  }

  /** The request at `i` has not been answered before `j`; requests to revoke or invalidate stay open. */
  ghost predicate Unanswered(cs: seq<Object>, i: int, j: int, command: string)
    requires 0 <= j <= |cs|
  {
    && 0 <= i < j && CommandOf(cs[i]) == command && Asks(cs[i])
    && (command == "external_revocation" || Invalidates(command)
        || forall k :: i < k < j ==> !(CommandOf(cs[k]) == command && Answers(cs[k])))
  }

  ghost predicate Pending(cs: seq<Object>, j: int, command: string)
    requires 0 <= j <= |cs|
  {
    exists i :: Unanswered(cs, i, j, command)
  }

  ghost predicate Proper(cs: seq<Object>, j: int)
    requires 0 <= j < |cs|
  {
    var c := cs[j];
    var command := CommandOf(c);
    && command != "" && (Asks(c) || Answers(c))
    && (Asks(c) ==> !Pending(cs, j, command) && (Invalidates(command) ==> !Pending(cs, j, "external_revocation")))
    && (Answers(c) && Invalidates(command) ==> Pending(cs, j, command) || Pending(cs, j, "external_revocation"))
    && (Answers(c) && !Invalidates(command) ==> exists i :: Unanswered(cs, i, j, command) && KeepsWithin(c, cs[i]))
  }

  lemma OpenIsUnanswered(cs: seq<Object>, i: int, j: int, command: string)
    requires 0 <= j <= |cs|
    ensures OpenAt(cs, i, j, command) <==> Unanswered(cs, i, j, command)
  {
    forall k | 0 <= k < |cs|
      ensures (Requests(cs[k]) <==> Asks(cs[k])) && Command(cs[k]) == CommandOf(cs[k])
      ensures Discharges(cs, k, command) <==>
              CommandOf(cs[k]) == command && Answers(cs[k]) && !Invalidates(command) && command != "external_revocation"
    {
      AsksIs(cs[k]);
    }
    hide Requests, Responds, Asks, Answers, Command, CommandOf, Discharges, Invalidates;
    if OpenAt(cs, i, j, command) {
      assert forall k :: i < k < j ==> !Discharges(cs, k, command);
    }
    if Unanswered(cs, i, j, command) {
      forall k | i < k < j ensures !Discharges(cs, k, command) {
      }
    }
  }

  lemma LawfulIsProper(cs: seq<Object>, j: nat)
    requires j < |cs|
    ensures Lawful(cs, j) <==> Proper(cs, j)
  {
    AsksIs(cs[j]);
    forall i, command ensures OpenAt(cs, i, j, command) <==> Unanswered(cs, i, j, command) {
      OpenIsUnanswered(cs, i, j, command);
    }
    forall i | 0 <= i < j ensures Within(cs[j], cs[i]) <==> KeepsWithin(cs[j], cs[i]) {
      WithinIs(cs[j], cs[i]);
    }
    hide Requests, Responds, Asks, Answers, Command, Within, KeepsWithin, OpenAt, Unanswered;
    InRange(cs, j, CommandOf(cs[j]));
  }

  lemma InRange(cs: seq<Object>, j: nat, command: string)
    requires j < |cs|
    ensures forall i :: Unanswered(cs, i, j, command) ==> 0 <= i < j
  {
  }

  // ----- Which fault an event is refused with -----

  /** The request an event answers to, if any is in the table. */
  predicate Answerable(prior: Prior, c: Object) {
    CommandOf(c) in prior || (Invalidates(CommandOf(c)) && "external_revocation" in prior)
  }

  function AnsweredBy(prior: Prior, c: Object): Object
    requires Answerable(prior, c)
  {
    if CommandOf(c) in prior then prior[CommandOf(c)] else prior["external_revocation"]
  }

  /** Main result. Which fault an event is refused with, and what an accepted one does to the table. */
  lemma PhaseMeans(prior: Prior, c: Object)
    ensures var step, command := PhaseStep(prior, c), CommandOf(c);
            var named := command != "" && Phase(c) != "";
            var bonded := Answerable(prior, c) ==>
                            var request := AnsweredBy(prior, c);
                            && NamesCause(c, request) && Agree(c, request, "boundary_id")
                            && Agree(c, request, "resource_id") && Agree(c, request, "adapter_identity");
            var scoped := Answerable(prior, c) ==> AffectsNoMore(c, AnsweredBy(prior, c));
            && (step == Refused(Malformed) <==> !named || (Answerable(prior, c) && !Asks(c) && !Answers(c)))
            && (step == Refused(ParentMismatch) <==>
                  named && ((Asks(c) <==> Answerable(prior, c)) ||
                            (Answers(c) && Answerable(prior, c) && !Invalidates(command) && !bonded)))
            && (step == Refused(AuthorityExpanded) <==>
                  named && Answers(c) && Answerable(prior, c) && !Invalidates(command) && bonded && !scoped)
            && (step.Moved? && Asks(c) ==> step.prior == prior[command := c])
            && (step.Moved? && Answers(c) ==>
                  step.prior == if Invalidates(command) || command == "external_revocation" then prior
                    else prior - {command})
  {
    AsksIs(c);
    if Answerable(prior, c) {
      CausedIs(c, AnsweredBy(prior, c));
      PlaceIs(c, AnsweredBy(prior, c));
      ScopeIs(c, AnsweredBy(prior, c));
    }
    PhasesDisjoint(c);
    hide CausedBy, NamesCause, SamePlace, InScope, AffectsNoMore, Agree, Requests, Responds, Asks, Answers, Command,
        Phase;
  }

  // ----- The report -----

  function KindText(r: Object): seq<string> {
    if "control" in r && r["control"].Obj? && "kind" in r && r["kind"].Str? then [r["kind"].text] else []
  }

  lemma StepStatuses(env: Env, p: Progress, r: Object)
    ensures RecordStep(env, p, r).Going? ==> RecordStep(env, p, r).at.statuses == p.statuses + KindText(r)
    ensures RecordStep(env, p, r).Stopped? ==> RecordStep(env, p, r).at.statuses == p.statuses
  {
    hide PhaseStep;
  }

  lemma {:induction false} WalkStatuses(env: Env, records: seq<Object>)
    ensures Walk(env, records).Going? ==> Walk(env, records).at.statuses == FlatMap(KindText, records)
  {
    if records != [] {
      hide RecordStep, KindText;
      var init, r := records[..|records| - 1], records[|records| - 1];
      WalkStatuses(env, init);
      if Walk(env, init).Going? {
        StepStatuses(env, Walk(env, init).at, r);
      }
      FlatMapSnoc(KindText, init, r);
      assert records == init + [r];
    }
  }

  /** What a document's fault blames its record `i` for. */
  ghost predicate Blames(env: Env, records: seq<Object>, i: int, fault: Fault)
    requires 0 <= i < |records|
  {
    var r := records[i];
    var id := TextOr(r, "record_id");
    || (fault == Tampered && (id == "" || exists j :: 0 <= j < i && TextOr(records[j], "record_id") == id))
    || (fault == Malformed && (Instant(env, r) == 0 || (i > 0 && Instant(env, r) < Instant(env, records[i - 1]))))
    || env.outer(r) == Some(fault)
    || (ObjectAt(r, "control").Some? && fault.Nested? && env.nested(ObjectAt(r, "control").value) == Some(fault.fault))
    || (ObjectAt(r, "control").Some? && Table(Controls(records[..i])).Some?
        && PhaseStep(Table(Controls(records[..i])).value, ObjectAt(r, "control").value) == Refused(fault))
  }

  lemma StepBlames(env: Env, init: seq<Object>, r: Object)
    requires Walk(env, init).Going? && RecordStep(env, Walk(env, init).at, r).Stopped?
    ensures Blames(env, init + [r], |init|, RecordStep(env, Walk(env, init).at, r).fault)
  {
    WalkAccepts(env, init);
    var p, all := Walk(env, init).at, init + [r];
    assert all[..|init|] == init && all[|init|] == r;
    assert forall j :: 0 <= j < |init| ==> all[j] == init[j];
    hide Walk, PhaseStep, Table, Acceptable;
    if TextOr(r, "record_id") in p.seen {
      var j :| 0 <= j < |init| && TextOr(init[j], "record_id") == TextOr(r, "record_id");
      assert TextOr(all[j], "record_id") == TextOr(r, "record_id");
    }
  }

  lemma {:induction false} WalkBlames(env: Env, records: seq<Object>) returns (i: nat)
    requires Walk(env, records).Stopped?
    ensures i < |records| && Walk(env, records[..i]).Going? && Blames(env, records, i, Walk(env, records).fault)
    ensures Walk(env, records).at.statuses == FlatMap(KindText, records[..i])
  {
    var n := |records| - 1;
    var init, r := records[..n], records[n];
    assert records == init + [r];
    if Walk(env, init).Going? {
      i := n;
      StepBlames(env, init, r);
      StepStatuses(env, Walk(env, init).at, r);
      WalkStatuses(env, init);
    } else {
      i := WalkBlames(env, init);
      assert init[..i] == records[..i];
      BlamesPrefix(env, records, n, i, Walk(env, init).fault);
    }
    hide Blames, RecordStep, FlatMap;
  }

  lemma BlamesPrefix(env: Env, records: seq<Object>, n: nat, i: nat, fault: Fault)
    requires i < n <= |records| && Blames(env, records[..n], i, fault)
    ensures Blames(env, records, i, fault)
  {
    hide PhaseStep, Table, Controls;
    var part := records[..n];
    assert part[..i] == records[..i];
    assert forall j :: 0 <= j < n ==> part[j] == records[j];
  }

  /** Main result. The report: never authoritative, quarantined whenever there is a record, a lineage
      exactly when there is no fault; the kinds of the control records, sorted, or those before the
      record that the fault blames. */
  lemma ReportMeans(env: Env, records: seq<Object>)
    ensures var (report, fault) := Reported(env, records);
            && !report.authoritative && (report.quarantine <==> records != []) && (report.lineage <==> fault == None)
            && (records == [] ==> fault == Some(Malformed) && report.statuses == [])
            && (fault == None ==>
                multiset(report.statuses) == multiset(FlatMap(KindText, records)) && Ascending(Less, report.statuses))
            && (fault.Some? && records != [] ==>
                  exists i :: 0 <= i < |records| && Blames(env, records, i, fault.value)
                              && report.statuses == FlatMap(KindText, records[..i]))
  {
    hide Walk, Blames, FlatMap, Less;
    if records != [] {
      WalkStatuses(env, records);
      if Walk(env, records).Stopped? {
        var i := WalkBlames(env, records);
      } else {
        SortStringsAscending(Walk(env, records).at.statuses);
      }
    }
  }

  // ----- Acceptance -----

  /** The instant of a record; unreadable or missing ones count as the zero instant. */
  function When(env: Env, r: Object): int {
    if "occurred_at" in r && r["occurred_at"].Str? then
      if env.parse(r["occurred_at"].text).Some? then env.parse(r["occurred_at"].text).value else 0
    else if env.parse("").Some? then env.parse("").value else 0
  }

  function IdOf(r: Object): string {
    if "record_id" in r && r["record_id"].Str? then r["record_id"].text else ""
  }

  /** The record is new, no earlier than the one before, and attested; its control event, if any, proper. */
  ghost predicate Sound(env: Env, records: seq<Object>, i: int)
    requires 0 <= i < |records|
  {
    && IdOf(records[i]) != "" && (forall j :: 0 <= j < i ==> IdOf(records[j]) != IdOf(records[i]))
    && When(env, records[i]) != 0 && (forall j :: 0 <= j < i ==> When(env, records[j]) <= When(env, records[i]))
    && env.outer(records[i]).None?
    && ("control" in records[i] && records[i]["control"].Obj? ==> env.nested(records[i]["control"].fields).None?)
  }

  /** Main result. A document is accepted exactly when it has records, each is sound, and the control
      events, in order, are proper. */
  lemma AcceptedInDocument(env: Env, records: seq<Object>)
    ensures Reported(env, records).1 == None <==>
            && records != [] && (forall i :: 0 <= i < |records| ==> Sound(env, records, i))
            && forall j :: 0 <= j < |Controls(records)| ==> Proper(Controls(records), j)
  {
    DocumentAccepted(env, records);
    forall j | 0 <= j < |Controls(records)| ensures Lawful(Controls(records), j) <==> Proper(Controls(records), j) {
      LawfulIsProper(Controls(records), j);
    }
    SoundParts(env, records);
    hide Reported, Lawful, Proper, Controls, Identified, InOrder, Attested, Sound;
  }

  lemma SoundParts(env: Env, records: seq<Object>)
    ensures Identified(records) && InOrder(env, records) && Attested(env, records) <==>
            forall i :: 0 <= i < |records| ==> Sound(env, records, i)
  {
    forall i | 0 <= i < |records|
      ensures Instant(env, records[i]) == When(env, records[i]) && TextOr(records[i], "record_id") == IdOf(records[i])
    {
    }
    hide Instant, When, TextOr, IdOf;
    if forall i :: 0 <= i < |records| ==> Sound(env, records, i) {
      forall i, j | 0 <= i < j < |records|
        ensures TextOr(records[i], "record_id") != TextOr(records[j], "record_id")
        ensures Instant(env, records[i]) <= Instant(env, records[j])
      {
        assert Sound(env, records, j);
      }
      forall i | 0 <= i < |records|
        ensures TextOr(records[i], "record_id") != "" && Instant(env, records[i]) != 0 && env.outer(records[i]).None?
        ensures ObjectAt(records[i], "control").Some? ==> env.nested(ObjectAt(records[i], "control").value).None?
      {
        assert Sound(env, records, i);
      }
    }
  }
}
