/** The lifecycle table read by events instead of by statuses: which event decides the status a history
    ends in, after which events each kind may come, and what each fault means. */
module LifecycleProtocol {
  import opened Prelude
  import opened Text
  import opened Sorting
  import opened Lifecycle
  import opened LifecycleHistory

  // ----- The deciding event -----

  /** Event `d` decides the status after the first `n`: it is the last that is not the remark that no
      compensation is required. */
  ghost predicate DecidesAt(es: seq<Event>, n: nat, d: int)
    requires n <= |es|
  {
    && 0 <= d < n && es[d].kind != CompensationNotRequired
    && forall j :: d < j < n ==> es[j].kind == CompensationNotRequired
  }

  predicate LeftOpen(e: Event) {
    e.status == "unresolved" || e.status == "unknown" || e.status == "gap"
  }

  /** The events that leave a contract in this status. */
  predicate LeadsTo(e: Event, status: Status) {
    match status
    case Unknown => false
    case Proposed => e.kind in {Kind.Proposed, Registered}
    case Active => e.kind in {Approved, Activated}
    case Executing => e.kind == ExecutionStarted
    case Succeeded => e.kind in {ExecutionSucceeded, EffectValidated}
    case Failed => e.kind in {ExecutionFailed, EffectRejected}
    case EffectRecorded => e.kind == Kind.EffectRecorded
    case Blocked => e.kind == ExecutionBlocked
    case CompensationRequired => e.kind == Kind.CompensationRequired
    case Compensating => e.kind == CompensationStarted
    case Compensated => e.kind == Kind.Compensated
    case Containing => e.kind == ContainmentRequested
    case Partial => e.kind == ContainmentPartial
    case Contained => e.kind == StopAcknowledged || (e.kind == Kind.Contained && !LeftOpen(e))
    case Gap =>
      || e.kind in {EffectUnresolved, CompensationFailed, CompensationUnresolved, ContainmentUnresolved}
      || (e.kind == Kind.Contained && LeftOpen(e))
    case Stopping => e.kind in {StopRequested, RevocationRequested}
    case Revoking => false
    case Unverifiable => false
  }

  lemma OneStep(before: Status, e: Event, status: Status)
    requires Allowed(before, e.kind) && e.kind != CompensationNotRequired && before != Revoking &&
             before != Unverifiable
    ensures Next(before, e) == status <==> LeadsTo(e, status)
  {
  }

  lemma RemarkKeeps(before: Status, e: Event)
    requires e.kind == CompensationNotRequired
    ensures Next(before, e) == before
    ensures Allowed(before, e.kind) ==> before != Unknown
  {
  }

  /** Main result. A non-empty accepted history has a deciding event, and ends in a status exactly when
      that event leads to it. */
  lemma {:induction false} StatusIsDecided(id: string, es: seq<Event>) returns (d: nat)
    requires AcceptedHistory(id, es) && es != []
    ensures DecidesAt(es, |es|, d)
    ensures forall status :: Final(id, es).status == status <==> LeadsTo(es[d], status)
  {
    hide Fold, Allowed, Next, LeadsTo, Count, Final, AcceptedHistory;
    var n := |es| - 1;
    StatusStep(id, es);
    RunInvariant(id, es[..n]);
    var before := Final(id, es[..n]).status;
    if es[n].kind == CompensationNotRequired {
      RemarkKeeps(before, es[n]);
      d := StatusIsDecided(id, es[..n]);
    } else {
      d := n;
      forall status ensures Final(id, es).status == status <==> LeadsTo(es[d], status) {
        OneStep(before, es[n], status);
      }
    }
  }

  // ----- What may follow what -----

  /** Some execution outcome or validated or rejected effect. */
  predicate Ended(d: Event) {
    d.kind in {ExecutionSucceeded, ExecutionFailed, EffectValidated, EffectRejected}
  }

  predicate WentWell(d: Event) {
    d.kind in {ExecutionSucceeded, EffectValidated}
  }

  /** Containment that is settled, as opposed to left open. */
  predicate Settled(d: Event) {
    d.kind == StopAcknowledged || (d.kind == Kind.Contained && !LeftOpen(d))
  }

  predicate LeftGap(d: Event) {
    || d.kind in {EffectUnresolved, CompensationFailed, CompensationUnresolved, ContainmentUnresolved}
    || (d.kind == Kind.Contained && LeftOpen(d))
  }

  predicate UnderWay(d: Event) {
    d.kind in {Kind.CompensationRequired, CompensationStarted}
  }

  /** Where compensation may be called for, or ruled out. */
  predicate Doubtful(d: Event) {
    || Ended(d) || LeftGap(d)
    || d.kind in {Kind.EffectRecorded, ContainmentRequested, ExecutionBlocked, ContainmentPartial}
  }

  /** After which deciding event an event of this kind may come. */
  predicate MayFollow(d: Event, k: Kind) {
    match k
    case Proposed => false
    case Registered => false
    case Approved => d.kind in {Kind.Proposed, Registered}
    case Activated => d.kind in {Kind.Proposed, Registered, ExecutionBlocked, Kind.Compensated} || Ended(d) ||
        Settled(d)
    case ExecutionStarted => d.kind in {Approved, Activated}
    case ExecutionSucceeded => d.kind == ExecutionStarted
    case ExecutionFailed => d.kind == ExecutionStarted
    case ExecutionBlocked => d.kind in {Approved, Activated, ExecutionStarted}
    case StopRequested => d.kind in {Approved, Activated, ExecutionStarted}
    case RevocationRequested => d.kind in {Approved, Activated, ExecutionStarted}
    case StopAcknowledged => d.kind in {StopRequested, RevocationRequested}
    case RevocationAcknowledged => false
    case EffectRecorded => d.kind in {ExecutionStarted, Kind.Compensated} || WentWell(d) || UnderWay(d)
    case EffectValidated =>
      d.kind in {ExecutionStarted, Kind.Compensated, Kind.EffectRecorded} || WentWell(d) || UnderWay(d)
    case EffectRejected =>
      d.kind in {ExecutionStarted, Kind.Compensated, Kind.EffectRecorded} || WentWell(d) || UnderWay(d)
    case EffectUnresolved =>
      d.kind in {ExecutionStarted, Kind.Compensated, Kind.EffectRecorded} || WentWell(d) || UnderWay(d)
    case ContainmentRequested => d.kind == Kind.Compensated || WentWell(d) || UnderWay(d)
    case ContainmentPartial => d.kind in {Kind.Compensated, ContainmentRequested} || Ended(d) || UnderWay(d)
    case ContainmentUnresolved => d.kind in {Kind.Compensated, ContainmentRequested} || Ended(d) || UnderWay(d)
    case Contained =>
      || d.kind in {Kind.Compensated, ContainmentRequested, ExecutionBlocked, StopRequested, RevocationRequested}
      || Ended(d) || UnderWay(d)
    case CompensationRequired => Doubtful(d) || Settled(d)
    case CompensationNotRequired => Doubtful(d) || Settled(d)
    case CompensationStarted => Doubtful(d) || Settled(d) || d.kind == Kind.CompensationRequired
    case CompensationFailed => Doubtful(d) || UnderWay(d)
    case CompensationUnresolved => Doubtful(d) || UnderWay(d)
    case Compensated => Doubtful(d) || UnderWay(d) || Settled(d)
    case NoKind => false
    case OtherKind(_) => false
  }

  lemma RowsAreColumns(status: Status, d: Event, k: Kind)
    requires LeadsTo(d, status)
    ensures Allowed(status, k) <==> MayFollow(d, k)
  {
    hide *;
    if OfRepair(k) { RepairColumns(status, d, k); }
    else if OfEffect(k) { EffectColumns(status, d, k); }
    else { OtherColumns(status, d, k); }
  }

  predicate OfRepair(k: Kind) { Repair(k) || Disposition(k) }
  predicate OfEffect(k: Kind) { Effect(k) || Containment(k) || k.ContainmentRequested? }

  lemma RepairColumns(status: Status, d: Event, k: Kind)
    requires LeadsTo(d, status) && OfRepair(k)
    ensures Allowed(status, k) <==> MayFollow(d, k)
  {
  }

  lemma EffectColumns(status: Status, d: Event, k: Kind)
    requires LeadsTo(d, status) && OfEffect(k)
    ensures Allowed(status, k) <==> MayFollow(d, k)
  {
  }

  lemma OtherColumns(status: Status, d: Event, k: Kind)
    requires LeadsTo(d, status) && !OfRepair(k) && !OfEffect(k)
    ensures Allowed(status, k) <==> MayFollow(d, k)
  {
  }

  lemma Openings(k: Kind)
    ensures Allowed(Unknown, k) <==> k in {Kind.Proposed, Registered}
  {
  }

  // ----- The law of one event -----

  /** A reference with every part given and a sha256 digest. */
  predicate CompleteRef(r: Ref) {
    && r.id != "" && r.kind != "" && r.source != "" && r.sourceProduct != ""
    && r.schemaID != "" && r.schemaVersion != "" && HexDigest(r.digest)
  }

  predicate HexDigest(s: string) {
    && |s| == 71 && s[..7] == "sha256:"
    && forall i :: 7 <= i < 71 ==>
       s[i] in {'0', '1', '2', '3', '4', '5', '6', '7', '8', '9', 'a', 'b', 'c', 'd', 'e', 'f'}
  }

  lemma HexIsSha256(s: string)
    ensures Sha256Digest(s) <==> HexDigest(s)
  {
    if |s| >= 7 {
      var bare := s[7..];
      assert "sha256:" <= s <==> s[..7] == "sha256:";
      assert forall i :: 0 <= i < |bare| ==> bare[i] == s[i + 7];
      if HexDigest(s) {
        assert forall i :: 0 <= i < |bare| ==> bare[i] == s[i + 7];
      }
      if Sha256Digest(s) {
        forall i | 7 <= i < 71
          ensures s[i] in {'0', '1', '2', '3', '4', '5', '6', '7', '8', '9', 'a', 'b', 'c', 'd', 'e', 'f'}
        {
          assert bare[i - 7] == s[i];
        }
      }
    }
  }

  /** The event names this contract, with all of its evidence or with none of it. */
  predicate NamesContract(id: string, e: Event) {
    && e.contractRef.id == id
    && (e.contractRef.digest != "" || e.contractRef.schemaID != "" || e.sourceDigest != "" ==>
          CompleteRef(e.contractRef) && HexDigest(e.sourceDigest))
  }

  /** The event brings an id and, if any, a digest that none before it brought. */
  ghost predicate NewAt(es: seq<Event>, i: int)
    requires 0 <= i < |es|
  {
    && es[i].id != ""
    && forall j :: 0 <= j < i ==>
       es[j].id != es[i].id && (es[i].sourceDigest != "" ==> es[j].sourceDigest != es[i].sourceDigest)
  }

  /** The event opens the history, or may follow the event that decided the status before it. */
  ghost predicate InOrderAt(es: seq<Event>, i: int)
    requires 0 <= i < |es|
  {
    if i == 0 then es[i].kind in {Kind.Proposed, Registered}
    else exists d :: DecidesAt(es, i, d) && MayFollow(es[d], es[i].kind)
  }

  ghost predicate Lawful(id: string, es: seq<Event>, i: int)
    requires 0 <= i < |es|
  {
    NamesContract(id, es[i]) && NewAt(es, i) && es[i].occurredAt.instant.Some? && InOrderAt(es, i)
  }

  /** Every digest the history brought, in order. */
  function Brought(e: Event): seq<string> {
    if e.sourceDigest == "" then [] else [e.sourceDigest]
  }

  lemma AppliedDigests(s: State, e: Event)
    ensures Apply(s, e).sourceDigests == s.sourceDigests + Brought(e)
  {
    hide Next, CodesAfter;
  }

  /** The state lists the digests of the history in order. */
  lemma {:induction false} DigestsListed(id: string, es: seq<Event>)
    requires AcceptedHistory(id, es)
    ensures Final(id, es).sourceDigests == FlatMap(Brought, es)
  {
    if es != [] {
      hide Apply, Step;
      var init, e := es[..|es| - 1], es[|es| - 1];
      LastStep(id, es);
      DigestsListed(id, init);
      AppliedDigests(Final(id, init), e);
      FlatMapSnoc(Brought, init, e);
      assert es == init + [e];
    }
  }

  lemma {:induction false} DigestMember(es: seq<Event>, digest: string)
    ensures digest in FlatMap(Brought, es) <==>
            digest != "" && exists j :: 0 <= j < |es| && es[j].sourceDigest == digest
  {
    if es != [] {
      var init := es[..|es| - 1];
      DigestMember(init, digest);
      assert forall j :: 0 <= j < |init| ==> init[j] == es[j];
    }
  }

  lemma SeenBefore(id: string, es: seq<Event>, e: Event)
    requires AcceptedHistory(id, es)
    ensures NewAt(es + [e], |es|) <==>
            && e.id != "" && e.id !in Elements(Final(id, es).events)
            && (e.sourceDigest != "" ==> e.sourceDigest !in Elements(Final(id, es).sourceDigests))
  {
    hide AcceptedHistory, Final;
    AcceptedFacts(id, es);
    DigestsListed(id, es);
    DigestMember(es, e.sourceDigest);
    hide FlatMap;
    var all := es + [e];
    assert forall j :: 0 <= j < |es| ==> all[j] == es[j] && Ids(es)[j] == es[j].id;
  }

  lemma BoundNames(id: string, e: Event)
    ensures NamesContract(id, e) <==>
            && e.contractRef.id == id
            && (e.contractRef.digest != "" || e.contractRef.schemaID != "" || e.sourceDigest != "" ==>
                  ValidRef(e.contractRef) && Sha256Digest(e.sourceDigest))
  {
    HexIsSha256(e.contractRef.digest);
    HexIsSha256(e.sourceDigest);
    hide Sha256Digest, HexDigest;
  }

  /** The checks of one event, apart from the transition. */
  lemma CheckParts(contractID: string, status: Status, seen: set<string>, digests: set<string>, e: Event)
    requires status != Unverifiable
    ensures Check(contractID, status, seen, digests, e).None? <==>
            && NamesContract(contractID, e) && e.id != "" && e.id !in seen && e.occurredAt.instant.Some?
            && (e.sourceDigest != "" ==> e.sourceDigest !in digests) && Allowed(status, e.kind)
  {
    BoundNames(contractID, e);
    Unlisted(status, e.kind);
    Openings(Registered);
    hide Allowed, ValidRef, Sha256Digest, NamesContract;
  }

  lemma Unlisted(status: Status, k: Kind)
    ensures k.NoKind? || k.OtherKind? ==> !Allowed(status, k)
  {
  }

  lemma StepLawful(id: string, es: seq<Event>, e: Event)
    requires AcceptedHistory(id, es)
    ensures AcceptedHistory(id, es + [e]) <==> Lawful(id, es + [e], |es|)
  {
    hide *;
    var s, all := Final(id, es), es + [e];
    FoldSnoc(id, es, e);
    AcceptedFacts(id, es);
    RunInvariant(id, es);
    CheckParts(id, s.status, Elements(s.events), Elements(s.sourceDigests), e);
    SeenBefore(id, es, e);
    OrderLawful(id, es, e);
    LawParts(id, all, |es|);
    assert all[|es|] == e;
  }

  lemma LawParts(id: string, es: seq<Event>, i: nat)
    requires i < |es|
    ensures Lawful(id, es, i) <==>
            NamesContract(id, es[i]) && NewAt(es, i) && es[i].occurredAt.instant.Some? && InOrderAt(es, i)
    ensures NewAt(es, i) ==> es[i].id != ""
  {
  }

  lemma FoldSnoc(id: string, es: seq<Event>, e: Event)
    requires AcceptedHistory(id, es)
    ensures var s := Final(id, es);
            AcceptedHistory(id, es + [e]) <==>
                Check(s.contractID, s.status, Elements(s.events), Elements(s.sourceDigests), e).None?
  {
    hide Check, Apply;
    assert (es + [e])[..|es|] == es;
  }

  lemma OrderLawful(id: string, es: seq<Event>, e: Event)
    requires AcceptedHistory(id, es)
    ensures InOrderAt(es + [e], |es|) <==> Allowed(Final(id, es).status, e.kind)
  {
    hide Fold, Allowed, MayFollow, LeadsTo, Final, AcceptedHistory;
    var all := es + [e];
    Openings(e.kind);
    RunInvariant(id, es);
    if es != [] {
      var d := StatusIsDecided(id, es);
      assert DecidesAt(all, |es|, d);
      RowsAreColumns(Final(id, es).status, es[d], e.kind);
      forall c | DecidesAt(all, |es|, c) ensures c == d {
      }
      assert all[d] == es[d];
    }
  }

  lemma LawfulPrefix(id: string, es: seq<Event>, n: nat, i: nat)
    requires i < n <= |es|
    ensures Lawful(id, es[..n], i) <==> Lawful(id, es, i)
  {
    hide MayFollow, NamesContract;
    var part := es[..n];
    assert forall j :: 0 <= j < n ==> part[j] == es[j];
    forall d ensures DecidesAt(part, i, d) <==> DecidesAt(es, i, d) {
    }
  }

  /** Main result. A history is accepted if and only if every event names the contract, is new, has an
      instant, and may follow the event that decided the status before it. */
  lemma {:induction false} AcceptedIffLawful(id: string, es: seq<Event>)
    ensures AcceptedHistory(id, es) <==> forall i :: 0 <= i < |es| ==> Lawful(id, es, i)
  {
    hide *;
    if es == [] {
      NothingAccepted(id);
    } else {
      var n := |es| - 1;
      var init, e := es[..n], es[n];
      assert es == init + [e];
      AcceptedIffLawful(id, init);
      forall i | 0 <= i < n ensures Lawful(id, init, i) <==> Lawful(id, es, i) {
        LawfulPrefix(id, es, n, i);
      }
      if AcceptedHistory(id, es) { PrefixAccepted(id, es, n); }
      if AcceptedHistory(id, init) { StepLawful(id, init, e); }
    }
  }

  lemma NothingAccepted(id: string)
    ensures AcceptedHistory(id, [])
  {
  }

  // ----- Faults -----

  /** What each fault says of the event it stopped at. */
  ghost predicate Blames(id: string, es: seq<Event>, i: int, fault: Fault)
    requires 0 <= i < |es|
  {
    var e := es[i];
    match fault
    case DigestBoundEvidenceRequired =>
      && (e.contractRef.digest != "" || e.contractRef.schemaID != "" || e.sourceDigest != "")
      && !(CompleteRef(e.contractRef) && e.contractRef.id == id && HexDigest(e.sourceDigest))
    case ForeignEvent(x) => x == e.id && e.contractRef.id != id
    case EventIdRequired => e.id == ""
    case DuplicateEvent(x) => x == e.id && exists j :: 0 <= j < i && es[j].id == x
    case BadTimestamp(x) => x == e.id && e.occurredAt.instant.None?
    case BadDigest(x) => false
    case DuplicateDigest => e.sourceDigest != "" && exists j :: 0 <= j < i && es[j].sourceDigest == e.sourceDigest
    case KindRequired(x) => x == e.id && e.kind == NoKind
    case UnknownKind(text) => e.kind == OtherKind(text)
    case IllegalTransition(from, k) =>
      k == e.kind && !k.NoKind? && !k.OtherKind? && from == Final(id, es[..i]).status && !InOrderAt(es, i)
  }

  /** The same, in terms of what the checks look at. */
  predicate Says(contractID: string, status: Status, seen: set<string>, digests: set<string>, e: Event, fault: Fault) {
    match fault
    case DigestBoundEvidenceRequired =>
      && (e.contractRef.digest != "" || e.contractRef.schemaID != "" || e.sourceDigest != "")
      && !(ValidRef(e.contractRef) && e.contractRef.id == contractID && Sha256Digest(e.sourceDigest))
    case ForeignEvent(x) => x == e.id && e.contractRef.id != contractID
    case EventIdRequired => e.id == ""
    case DuplicateEvent(x) => x == e.id && e.id in seen
    case BadTimestamp(x) => x == e.id && e.occurredAt.instant.None?
    case BadDigest(x) => false
    case DuplicateDigest => e.sourceDigest != "" && e.sourceDigest in digests
    case KindRequired(x) => x == e.id && e.kind == NoKind
    case UnknownKind(text) => e.kind == OtherKind(text)
    case IllegalTransition(from, k) =>
      k == e.kind && !k.NoKind? && !k.OtherKind? && from == status && !Allowed(status, k)
  }

  lemma CheckSays(contractID: string, status: Status, seen: set<string>, digests: set<string>, e: Event)
    ensures var fault := Check(contractID, status, seen, digests, e);
            fault.Some? ==> Says(contractID, status, seen, digests, e, fault.value)
  {
    hide Allowed, ValidRef, Sha256Digest;
  }

  lemma CheckBlames(id: string, es: seq<Event>, e: Event, fault: Fault)
    requires AcceptedHistory(id, es)
    requires var s := Final(id, es);
             Check(id, s.status, Elements(s.events), Elements(s.sourceDigests), e) == Some(fault)
    ensures Blames(id, es + [e], |es|, fault)
  {
    hide *;
    var s, all := Final(id, es), es + [e];
    assert all[..|es|] == es && all[|es|] == e;
    CheckSays(id, s.status, Elements(s.events), Elements(s.sourceDigests), e);
    OrderLawful(id, es, e);
    Repeated(id, es, e);
    SaysBlames(id, es, e, fault);
  }

  lemma Repeated(id: string, es: seq<Event>, e: Event)
    requires AcceptedHistory(id, es)
    ensures e.id in Elements(Final(id, es).events) ==> exists j :: 0 <= j < |es| && (es + [e])[j].id == e.id
    ensures e.sourceDigest in Elements(Final(id, es).sourceDigests) ==>
              exists j :: 0 <= j < |es| && (es + [e])[j].sourceDigest == e.sourceDigest
  {
    hide AcceptedHistory, Final, FlatMap;
    AcceptedFacts(id, es);
    DigestsListed(id, es);
    DigestMember(es, e.sourceDigest);
    var all := es + [e];
    assert forall j :: 0 <= j < |es| ==> all[j] == es[j];
    if e.id in Elements(Final(id, es).events) {
      var j :| 0 <= j < |es| && Ids(es)[j] == e.id;
      assert all[j].id == e.id;
    }
    if e.sourceDigest in Elements(Final(id, es).sourceDigests) {
      var j :| 0 <= j < |es| && es[j].sourceDigest == e.sourceDigest;
      assert all[j].sourceDigest == e.sourceDigest;
    }
  }

  lemma SaysBlames(id: string, es: seq<Event>, e: Event, fault: Fault)
    requires var s := Final(id, es); Says(id, s.status, Elements(s.events), Elements(s.sourceDigests), e, fault)
    requires e.id in Elements(Final(id, es).events) ==> exists j :: 0 <= j < |es| && (es + [e])[j].id == e.id
    requires e.sourceDigest in Elements(Final(id, es).sourceDigests) ==>
               exists j :: 0 <= j < |es| && (es + [e])[j].sourceDigest == e.sourceDigest
    requires InOrderAt(es + [e], |es|) <==> Allowed(Final(id, es).status, e.kind)
    ensures Blames(id, es + [e], |es|, fault)
  {
    HexIsSha256(e.sourceDigest);
    HexIsSha256(e.contractRef.digest);
    hide Allowed, InOrderAt, Final, Sha256Digest, HexDigest, Elements;
    var all := es + [e];
    assert all[..|es|] == es && all[|es|] == e;
  }

  /** Main result. A rejected history stops at its first unlawful event, with a fault that says what is
      wrong with it and the state reached before it. */
  lemma {:induction false} FaultIsCause(id: string, es: seq<Event>) returns (i: nat)
    requires !AcceptedHistory(id, es)
    ensures i < |es| && AcceptedHistory(id, es[..i]) && !Lawful(id, es, i)
    ensures Fold(id, es).state == Final(id, es[..i]) && Blames(id, es, i, Fold(id, es).fault)
  {
    var n := |es| - 1;
    NothingAccepted(id);
    var init, e := es[..n], es[n];
    assert es == init + [e];
    if AcceptedHistory(id, init) {
      i := n;
      AcceptedFacts(id, init);
      StepLawful(id, init, e);
      CheckBlames(id, init, e, Fold(id, es).fault);
    } else {
      i := FaultIsCause(id, init);
      assert init[..i] == es[..i];
      LawfulPrefix(id, es, n, i);
      BlamesPrefix(id, es, n, i, Fold(id, init).fault);
    }
    hide Check, Lawful, Blames, Apply;
  }

  lemma BlamesPrefix(id: string, es: seq<Event>, n: nat, i: nat, fault: Fault)
    requires i < n <= |es| && Blames(id, es[..n], i, fault)
    ensures Blames(id, es, i, fault)
  {
    hide MayFollow, CompleteRef, HexDigest, Final;
    var part := es[..n];
    assert part[..i] == es[..i];
    assert forall j :: 0 <= j < n ==> part[j] == es[j];
    forall d ensures DecidesAt(part, i, d) <==> DecidesAt(es, i, d) {
    }
  }

  // ----- What the verdict and the codes say -----

  /** The kinds of event that leave a gap, written out. */
  predicate LeavesGap(e: Event) {
    || e.kind in {ExecutionBlocked, EffectUnresolved, CompensationFailed, CompensationUnresolved}
    || e.kind in {ContainmentPartial, ContainmentUnresolved} || (e.kind == Kind.Contained && LeftOpen(e))
  }

  /** Main result. A replay is complete exactly when the event that decides its status is an outcome, a
      validated or rejected effect, a compensation or a settled containment, and no event left a gap. */
  lemma CompleteIsDecided(id: string, es: seq<Event>)
    requires AcceptedHistory(id, es)
    ensures Replayed(id, es).state.complete <==>
            && (exists d ::
                  DecidesAt(es, |es|, d) && (Ended(es[d]) || Settled(es[d]) || es[d].kind == Kind.Compensated))
            && forall e :: e in es ==> !LeavesGap(e)
  {
    hide Fold, Next, Allowed, LeadsTo;
    GapCodesPersist(id, es);
    forall e | e in es ensures LeavesGap(e) <==> GapBearing(e) {
    }
    RunInvariant(id, es);
    if es != [] {
      var d := StatusIsDecided(id, es);
      TerminalDeciders(Final(id, es).status, es[d]);
      forall c | DecidesAt(es, |es|, c) ensures c == d {
      }
    }
  }

  lemma TerminalDeciders(status: Status, d: Event)
    requires LeadsTo(d, status)
    ensures Terminal(status) <==> Ended(d) || Settled(d) || d.kind == Kind.Compensated
  {
  }

  /** The events that raise each code. */
  predicate Raises(e: Event, r: Reason) {
    match r
    case GapExecutionBlocked => e.kind == ExecutionBlocked
    case GapEffect => e.kind == EffectUnresolved
    case RequiredCompensationMissing => e.kind == Kind.CompensationRequired
    case GapCompensation => e.kind in {CompensationFailed, CompensationUnresolved}
    case GapContainment => e.kind == ContainmentUnresolved || (e.kind == Kind.Contained && LeftOpen(e))
    case GapContainmentPartial => e.kind == ContainmentPartial
    case EvidenceDigestOrReferenceMissing => false
  }

  lemma {:induction false} EmittedRaises(es: seq<Event>, r: Reason)
    ensures r in AllEmitted(es) <==> exists e :: e in es && Raises(e, r)
  {
    if es != [] {
      hide Raises, Emitted;
      var init, e := es[..|es| - 1], es[|es| - 1];
      assert es == init + [e];
      EmittedRaises(init, r);
      OneRaises(e, r);
      FlatMapSnoc(Emitted, init, e);
      assert forall x :: x in es <==> x in init || x == e;
    }
  }

  lemma OneRaises(e: Event, r: Reason)
    ensures r in Emitted(e) <==> Raises(e, r)
  {
  }

  /** Main result. Every code but the missing compensation stands exactly when some event of the history
      raised it; that one, when an event raised it after the last completed compensation. */
  lemma CodesAreRaised(id: string, es: seq<Event>, r: Reason)
    requires AcceptedHistory(id, es)
    ensures r in Final(id, es).reasonCodes <==>
            exists i ::
              0 <= i < |es| && Raises(es[i], r) && (r.RequiredCompensationMissing? ==> UncompensatedAfter(es, i))
  {
    if r.RequiredCompensationMissing? {
      OutstandingCompensation(id, es);
    } else {
      hide Fold, Raises, Emitted, AfterLastCompensated;
      ReasonCodesAreHistory(id, es);
      var k := AfterLastCompensated(es);
      assert es[..k] + es[k..] == es;
      FlatMapConcat(Emitted, es[..k], es[k..]);
      EmittedRaises(es, r);
      if i :| 0 <= i < |es| && Raises(es[i], r) { assert es[i] in es; }
    }
  }

  /** What the strict entry point reports when some event is not bound to the contract. */
  lemma UnboundIsUnverifiable(id: string, events: seq<Event>)
    ensures (exists e ::
               e in events && !(CompleteRef(e.contractRef) && e.contractRef.id == id && HexDigest(e.sourceDigest))) ==>
              var out := Verified(id, events);
              && out.Rejected? && out.fault == DigestBoundEvidenceRequired
              && out.state == State(id, Unverifiable, [], [], false, [EvidenceDigestOrReferenceMissing])
    ensures (forall e :: e in events ==>
             CompleteRef(e.contractRef) && e.contractRef.id == id && HexDigest(e.sourceDigest)) ==>
              Verified(id, events) == Replay(id, events)
  {
    hide Replay;
    forall e | e in events
      ensures Bound(id, e) <==> CompleteRef(e.contractRef) && e.contractRef.id == id && HexDigest(e.sourceDigest)
    {
      HexIsSha256(e.contractRef.digest);
      HexIsSha256(e.sourceDigest);
    }
    hide Bound, CompleteRef, HexDigest;
  }

  // ----- The order of replay -----

  /** Main result. A replay takes its events by instant, and by id where instants coincide. */
  lemma ReplayedByInstant(id: string, events: seq<Event>, i: nat, j: nat)
    requires Replay(id, events).Accepted? && i < j < |events|
    ensures var es := SortBy(EventBefore, events);
            && es[i].occurredAt.instant.Some? && es[j].occurredAt.instant.Some?
            && var x, y := es[i].occurredAt.instant.value, es[j].occurredAt.instant.value;
               x < y || (x == y && Less(es[i].id, es[j].id))
  {
    hide Fold, Less;
    var es := SortBy(EventBefore, events);
    AcceptedFacts(id, es);
    forall e | e in events ensures e.occurredAt.instant.Some? { Member(e, events, es); }
    EventOrder(events);
    SortByAscending(EventBefore, events);
    assert !EventBefore(es[j], es[i]) && es[i].id != es[j].id;
    LessTotal(es[i].id, es[j].id);
  }
}
