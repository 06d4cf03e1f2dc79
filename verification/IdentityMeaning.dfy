/** Where each part of an identity view comes from, and what writing a view adds. */
module IdentityMeaning {
  import opened Prelude
  import opened Text
  import opened Identity
  import opened IdentityFixpoint

  /** `x` is the first of the texts that is not empty, or empty if all are. */
  ghost predicate FirstOf(texts: seq<string>, x: string) {
    || (exists i :: 0 <= i < |texts| && FirstAt(texts, x, i))
    || (x == "" && forall i :: 0 <= i < |texts| ==> texts[i] == "")
  }

  ghost predicate FirstAt(texts: seq<string>, x: string, i: int)
    requires 0 <= i < |texts|
  {
    x == texts[i] && x != "" && forall j :: 0 <= j < i ==> texts[j] == ""
  }

  lemma FirstStep(texts: seq<string>, x: string)
    requires texts != []
    ensures FirstOf(texts, x) <==> if texts[0] != "" then x == texts[0] else FirstOf(texts[1..], x)
  {
    var rest := texts[1..];
    if texts[0] != "" {
      if x == texts[0] { assert FirstAt(texts, x, 0); }
    } else {
      if i :| 0 <= i < |rest| && FirstAt(rest, x, i) {
        forall j | 0 <= j < i + 1 ensures texts[j] == "" {
          if j > 0 { assert rest[j - 1] == texts[j]; }
        }
        assert FirstAt(texts, x, i + 1);
      }
      if i :| 0 <= i < |texts| && FirstAt(texts, x, i) {
        assert FirstAt(rest, x, i - 1);
      }
      if forall i :: 0 <= i < |rest| ==> rest[i] == "" {
        forall i | 0 <= i < |texts| ensures texts[i] == "" {
          if i > 0 { assert rest[i - 1] == texts[i]; }
        }
      }
    }
  }

  /** The choice among texts, one after the other, none of which needs trimming. */
  function Choice(texts: seq<string>): string {
    if texts == [] then "" else if texts[0] != "" then texts[0] else Choice(texts[1..])
  }

  lemma {:induction false} ChoiceIsFirst(texts: seq<string>)
    ensures FirstOf(texts, Choice(texts))
  {
    if texts != [] {
      ChoiceIsFirst(texts[1..]);
      FirstStep(texts, Choice(texts));
    }
  }

  lemma {:induction false} FirstIsChoice(texts: seq<string>, x: string)
    requires FirstOf(texts, x)
    ensures x == Choice(texts)
  {
    if texts != [] {
      FirstStep(texts, x);
      if texts[0] == "" { FirstIsChoice(texts[1..], x); }
    }
  }

  lemma OrChoice(a: string, rest: string)
    requires Clean(a)
    ensures Or(a, rest) == if a != "" then a else rest
  {
  }

  // ----- Who -----

  function ActorSources(event: Object, metadata: Object): seq<string> {
    [TextOf(event, "actor_identity"), TextOf(metadata, "actor_identity"), TextOf(event, "actor_id"),
     TextOf(metadata, "actor_id"),
     TextOf(event, "principal_id"), TextOf(metadata, "principal_id")]
  }

  function DownstreamSources(agentID: string, event: Object, metadata: Object, rel: Option<Relationship>): seq<string> {
    [TextOf(event, "downstream_identity"), TextOf(metadata, "downstream_identity"), LastHop(ChainOf(rel)),
     TextOf(event, "delegate_identity"), TextOf(metadata, "delegate_identity"), Trim(agentID)]
  }

  function FirstHop(chain: seq<Hop>): string { if chain == [] then "" else Trim(chain[0].identity) }
  function LastHop(chain: seq<Hop>): string { if chain == [] then "" else Trim(chain[|chain| - 1].identity) }

  /** The chain a record states: the event's, else the metadata's, else the relationship's. */
  function ChainGiven(event: Object, metadata: Object, rel: Option<Relationship>): seq<Hop> {
    if ChainAt(event, "delegation_chain") != [] then ChainAt(event, "delegation_chain")
    else if ChainAt(metadata, "delegation_chain") != [] then ChainAt(metadata, "delegation_chain")
    else CloneChain(ChainOf(rel))
  }

  lemma StatedIsGiven(event: Object, metadata: Object, rel: Option<Relationship>)
    ensures StatedChain(event, metadata, rel) == ChainGiven(event, metadata, rel)
  {
    StatedRead(event, metadata, rel);
    ChainAtKept(event);
    ChainAtKept(metadata);
    CloneChainTwice(ChainOf(rel));
    hide StatedChain, ChainAt, CloneChain;
  }

  lemma ActorChosen(event: Object, metadata: Object)
    ensures StatedActor(event, metadata) == Choice(ActorSources(event, metadata))
  {
    hide TextOf, Trim, Or;
    var s := ActorSources(event, metadata);
    OrChoice(s[0], Or(s[1], Or(s[2], Or(s[3], Or(s[4], Or(s[5], ""))))));
    OrChoice(s[1], Or(s[2], Or(s[3], Or(s[4], Or(s[5], "")))));
    OrChoice(s[2], Or(s[3], Or(s[4], Or(s[5], ""))));
    OrChoice(s[3], Or(s[4], Or(s[5], "")));
    OrChoice(s[4], Or(s[5], ""));
    OrChoice(s[5], "");
    Six(s);
  }

  lemma Six(s: seq<string>)
    requires |s| == 6
    ensures Choice(s) == if s[0] != "" then s[0] else if s[1] != "" then s[1] else if s[2] != "" then s[2]
                         else if s[3] != "" then s[3] else if s[4] != "" then s[4] else s[5]
  {
    assert s[1..][0] == s[1] && s[1..][1..] == s[2..] && s[2..][0] == s[2] && s[2..][1..] == s[3..] &&
           s[3..][0] == s[3];
    assert s[3..][1..] == s[4..] && s[4..][0] == s[4] && s[4..][1..] == s[5..] && s[5..][0] == s[5] &&
           s[5..][1..] == [];
    Cons(s); Cons(s[1..]); Cons(s[2..]); Cons(s[3..]); Cons(s[4..]); Cons(s[5..]);
    hide Choice;
    NoChoice();
  }

  lemma Cons(s: seq<string>)
    requires s != []
    ensures Choice(s) == if s[0] != "" then s[0] else Choice(s[1..])
  {
  }

  lemma NoChoice()
    ensures Choice([]) == ""
  {
  }

  lemma DownstreamChosen(agentID: string, event: Object, metadata: Object, rel: Option<Relationship>)
    ensures StatedDownstream(agentID, event, metadata, rel) == Choice(DownstreamSources(agentID, event, metadata, rel))
  {
    TrimIdempotent(agentID);
    LastIs(rel);
    hide TextOf, Trim, Or, LastIdentity, LastHop;
    var s := DownstreamSources(agentID, event, metadata, rel);
    OrChoice(s[0], Or(s[1], Or(s[2], Or(s[3], Or(s[4], Or(s[5], ""))))));
    OrChoice(s[1], Or(s[2], Or(s[3], Or(s[4], Or(s[5], "")))));
    OrChoice(s[2], Or(s[3], Or(s[4], Or(s[5], ""))));
    OrChoice(s[3], Or(s[4], Or(s[5], "")));
    OrChoice(s[4], Or(s[5], ""));
    OrChoice(s[5], "");
    Six(s);
  }

  lemma LastIs(rel: Option<Relationship>)
    ensures LastIdentity(rel) == LastHop(ChainOf(rel)) && Clean(LastHop(ChainOf(rel)))
  {
    if ChainOf(rel) != [] { TrimIdempotent(ChainOf(rel)[|ChainOf(rel)| - 1].identity); }
    hide Trim;
  }

  lemma {:induction false} ChoiceConcat(a: seq<string>, b: seq<string>)
    ensures Choice(a + b) == if Choice(a) != "" then Choice(a) else Choice(b)
  {
    if a == [] {
      assert a + b == b;
    } else {
      ChoiceConcat(a[1..], b);
      assert (a + b)[1..] == a[1..] + b;
    }
  }

  lemma ChoiceOne(x: string)
    ensures Choice([x]) == x
  {
  }

  /** Main result. The actor is the first known of: whom the record names as actor, who starts the chain,
      whom it names as downstream, who ends the chain; the downstream identity the same from the other end. */
  lemma EndsMean(agentID: string, event: Object, metadata: Object, rel: Option<Relationship>)
    ensures var v, chain := DeriveIdentityView(agentID, event, metadata, rel), ChainGiven(event, metadata, rel);
            var actors, downstreams := ActorSources(event, metadata), DownstreamSources(agentID, event, metadata, rel);
            && FirstOf(actors + [FirstHop(chain)] + (downstreams + [LastHop(chain)]), v.actor)
            && FirstOf(downstreams + [LastHop(chain)] + (actors + [FirstHop(chain)]), v.downstream)
  {
    hide *;
    var chain := ChainGiven(event, metadata, rel);
    var actors, downstreams := ActorSources(event, metadata), DownstreamSources(agentID, event, metadata, rel);
    var a, d := actors + [FirstHop(chain)], downstreams + [LastHop(chain)];
    DerivedParts(agentID, event, metadata, rel);
    StatedIsGiven(event, metadata, rel);
    ActorChosen(event, metadata);
    DownstreamChosen(agentID, event, metadata, rel);
    ChoiceConcat(actors, [FirstHop(chain)]);
    ChoiceConcat(downstreams, [LastHop(chain)]);
    ChoiceOne(FirstHop(chain));
    ChoiceOne(LastHop(chain));
    ChoiceConcat(a, d);
    ChoiceConcat(d, a);
    EndsChosen(Choice(actors), Choice(downstreams), chain);
    ChoiceIsFirst(a + d);
    ChoiceIsFirst(d + a);
  }

  lemma EndsChosen(actor: string, downstream: string, chain: seq<Hop>)
    ensures var a := if actor != "" then actor else FirstHop(chain);
            var d := if downstream != "" then downstream else LastHop(chain);
            Ends(actor, downstream, chain) == (if a != "" then a else d, if d != "" then d else a)
  {
    hide Trim;
  }

  /** The chain is the given one, or else runs from the actor to whom it acts through. */
  lemma ChainMeans(agentID: string, event: Object, metadata: Object, rel: Option<Relationship>)
    ensures var v, chain := DeriveIdentityView(agentID, event, metadata, rel), ChainGiven(event, metadata, rel);
            && (chain != [] ==> v.chain == chain)
            && (chain == [] && v.downstream == "" ==> v.chain == [])
            && (chain == [] && v.downstream != "" ==>
                  v.chain == (if v.actor in {"", v.downstream} then [] else [Hop(v.actor, "requester", map[])])
                             + [Hop(v.downstream, "delegate", map[])])
  {
    hide *;
    StatedIsGiven(event, metadata, rel);
    DerivedParts(agentID, event, metadata, rel);
    var v := DeriveIdentityView(agentID, event, metadata, rel);
    SynthesisMeans(v.actor, v.downstream);
  }

  lemma SynthesisMeans(actor: string, downstream: string)
    ensures Synthesised(actor, downstream) ==
            if downstream == "" then []
            else (if actor in {"", downstream} then []
                  else [Hop(actor, "requester", map[])]) + [Hop(downstream, "delegate", map[])]
  {
  }

  // ----- What for -----

  function OwnerSources(event: Object, metadata: Object): seq<string> {
    [TextOf(event, "owner_identity"), TextOf(metadata, "owner_identity"), TextOf(event, "approver_identity"),
     TextOf(metadata, "approver_identity")]
  }

  function ApprovalSources(event: Object, metadata: Object): seq<string> {
    [TextOf(event, "approval_token_ref"), TextOf(metadata, "approval_token_ref"), TextOf(event, "context_approval_ref"),
     TextOf(metadata, "context_approval_ref"), TextOf(event, "approval_ref"), TextOf(metadata, "approval_ref")]
  }

  function PolicySources(event: Object, metadata: Object, rel: Option<Relationship>): seq<string> {
    [TextOf(event, "policy_digest"), TextOf(metadata, "policy_digest"), PolicyDigestOf(rel)]
  }

  /** Main result. Owner, policy digest and approval are the first known of their sources. */
  lemma PartsMean(agentID: string, event: Object, metadata: Object, rel: Option<Relationship>)
    ensures var v := DeriveIdentityView(agentID, event, metadata, rel);
            && FirstOf(OwnerSources(event, metadata), v.owner) &&
               FirstOf(ApprovalSources(event, metadata), v.approvalTokenRef)
            && FirstOf(PolicySources(event, metadata, rel), v.policyDigest)
  {
    hide *;
    DerivedParts(agentID, event, metadata, rel);
    OwnerChosen(event, metadata);
    ApprovalChosen(event, metadata);
    PolicyChosen(event, metadata, rel);
    ChoiceIsFirst(OwnerSources(event, metadata));
    ChoiceIsFirst(ApprovalSources(event, metadata));
    ChoiceIsFirst(PolicySources(event, metadata, rel));
  }

  lemma OwnerChosen(event: Object, metadata: Object)
    ensures OwnerOf(event, metadata) == Choice(OwnerSources(event, metadata))
  {
    hide TextOf, Trim, Or;
    var s := OwnerSources(event, metadata);
    OrChoice(s[0], Or(s[1], Or(s[2], Or(s[3], ""))));
    OrChoice(s[1], Or(s[2], Or(s[3], "")));
    OrChoice(s[2], Or(s[3], ""));
    OrChoice(s[3], "");
    Six(s + ["", ""]);
    assert s + ["", ""] == s + ([""] + [""]);
    ChoiceConcat(s, ["", ""]);
    TwoBlank();
  }

  lemma TwoBlank()
    ensures Choice(["", ""]) == "" && Choice(["", "", ""]) == ""
  {
    assert ["", ""][1..] == [""] && ["", "", ""][1..] == ["", ""];
  }

  lemma ApprovalChosen(event: Object, metadata: Object)
    ensures ApprovalOf(event, metadata) == Choice(ApprovalSources(event, metadata))
  {
    hide TextOf, Trim, Or;
    var s := ApprovalSources(event, metadata);
    OrChoice(s[0], Or(s[1], Or(s[2], Or(s[3], Or(s[4], Or(s[5], ""))))));
    OrChoice(s[1], Or(s[2], Or(s[3], Or(s[4], Or(s[5], "")))));
    OrChoice(s[2], Or(s[3], Or(s[4], Or(s[5], ""))));
    OrChoice(s[3], Or(s[4], Or(s[5], "")));
    OrChoice(s[4], Or(s[5], ""));
    OrChoice(s[5], "");
    Six(s);
  }

  lemma PolicyChosen(event: Object, metadata: Object, rel: Option<Relationship>)
    ensures PolicyOf(event, metadata, rel) == Choice(PolicySources(event, metadata, rel))
  {
    hide TextOf, Trim, Or, PolicyDigestOf;
    var s := PolicySources(event, metadata, rel);
    OrChoice(s[0], Or(s[1], Or(s[2], "")));
    OrChoice(s[1], Or(s[2], ""));
    OrChoice(s[2], "");
    Six(s + ["", "", ""]);
    ChoiceConcat(s, ["", "", ""]);
    TwoBlank();
  }

  // ----- On what -----

  function TargetSources(event: Object, metadata: Object): seq<string> {
    [TextOf(event, "target_id"), TextOf(metadata, "target_id"), TextOf(event, "tool_name"), TextOf(event, "tool"),
     TextOf(event, "scope"), TextOf(event, "privilege"), TextOf(metadata, "scope")]
  }

  /** The kind the keys suggest: a tool if one is named, else a privilege if a scope or privilege is. */
  function KindSuggested(event: Object, metadata: Object): string {
    if TextOf(event, "tool_name") != "" || TextOf(event, "tool") != "" then "tool"
    else if TextOf(event, "privilege") != "" || TextOf(event, "scope") != "" ||
        TextOf(metadata, "scope") != "" then "privilege"
    else ""
  }

  /** The first reference that is neither blank nor an agent, identity, owner, policy or approver. */
  ghost predicate TargetAt(refs: seq<Ref>, i: int)
    requires 0 <= i < |refs|
  {
    && Trim(refs[i].kind) != "" && Trim(refs[i].id) != ""
    && Trim(refs[i].kind) !in {"agent", "identity", "owner", "policy", "approver"}
  }

  lemma {:induction false} FirstTargetMeans(refs: seq<Ref>)
    ensures FirstTarget(refs) == ("", "") <==> forall i :: 0 <= i < |refs| ==> !TargetAt(refs, i)
    ensures forall i :: 0 <= i < |refs| && TargetAt(refs, i) && (forall j :: 0 <= j < i ==> !TargetAt(refs, j)) ==>
              FirstTarget(refs) == (Trim(refs[i].kind), Trim(refs[i].id))
  {
    hide Trim;
    if refs != [] {
      FirstTargetMeans(refs[1..]);
      forall i | 0 <= i < |refs| - 1 ensures TargetAt(refs[1..], i) <==> TargetAt(refs, i + 1) {
      }
      assert TargetRef(refs[0]) <==> TargetAt(refs, 0);
    }
  }

  lemma TargetIDChosen(event: Object, metadata: Object)
    ensures StatedTargetID(event, metadata) == Choice(TargetSources(event, metadata))
  {
    hide TextOf, Trim, Or;
    var s := TargetSources(event, metadata);
    OrChoice(s[0], Or(s[1], Or(s[2], Or(s[3], Or(s[4], Or(s[5], Or(s[6], "")))))));
    OrChoice(s[1], Or(s[2], Or(s[3], Or(s[4], Or(s[5], Or(s[6], ""))))));
    OrChoice(s[2], Or(s[3], Or(s[4], Or(s[5], Or(s[6], "")))));
    OrChoice(s[3], Or(s[4], Or(s[5], Or(s[6], ""))));
    OrChoice(s[4], Or(s[5], Or(s[6], "")));
    OrChoice(s[5], Or(s[6], ""));
    OrChoice(s[6], "");
    Cons(s);
    Six(s[1..]);
    hide Choice;
  }

  /** Main result. The target: its id the first known of its sources, then the relationship's target; its
      kind the stated one, else the one the keys suggest for a stated id, else the relationship's. */
  lemma TargetMeans(agentID: string, event: Object, metadata: Object, rel: Option<Relationship>)
    ensures var v, (relKind, relID) := DeriveIdentityView(agentID, event, metadata, rel), FirstTarget(RefsOf(rel));
            && FirstOf(TargetSources(event, metadata) + [relID], v.targetID)
            && FirstOf([TextOf(event, "target_kind"), TextOf(metadata, "target_kind"), KindSuggested(event, metadata),
                        relKind], v.targetKind)
  {
    hide *;
    DerivedParts(agentID, event, metadata, rel);
    TargetParts(event, metadata, rel);
    TargetIDChosen(event, metadata);
    NoImplied(event, metadata);
    var s := TargetSources(event, metadata);
    var relID := FirstTarget(RefsOf(rel)).1;
    ChoiceConcat(s, [relID]);
    ChoiceOne(relID);
    ChoiceIsFirst(s + [relID]);
    var k := [TextOf(event, "target_kind"), TextOf(metadata, "target_kind"), KindSuggested(event, metadata),
              FirstTarget(RefsOf(rel)).0];
    ChoiceIsFirst(k);
    Four(k);
    KindsAre(event, metadata);
  }

  lemma Four(s: seq<string>)
    requires |s| == 4
    ensures Choice(s) == if s[0] != "" then s[0] else if s[1] != "" then s[1] else if s[2] != "" then s[2] else s[3]
  {
    Six(s + ["", ""]);
    ChoiceConcat(s, ["", ""]);
    TwoBlank();
    hide Choice;
  }

  lemma TargetParts(event: Object, metadata: Object, rel: Option<Relationship>)
    ensures TargetOf(rel) == FirstTarget(RefsOf(rel))
    ensures var id, stated := StatedTargetID(event, metadata), StatedTargetKind(event, metadata);
            var kind := if stated == "" && id != "" then ImpliedKind(event, metadata) else stated;
            Target(event, metadata, rel) ==
            (if kind == "" then FirstTarget(RefsOf(rel)).0 else kind, if id == "" then FirstTarget(RefsOf(rel)).1
             else id)
  {
    TargetOfParts(event, metadata, rel);
    FirstTargetMeans([]);
    hide StatedTargetID, StatedTargetKind, ImpliedKind, Target, FirstTarget;
  }

  lemma KindsAre(event: Object, metadata: Object)
    ensures ImpliedKind(event, metadata) == KindSuggested(event, metadata)
    ensures StatedTargetKind(event, metadata) ==
            if TextOf(event, "target_kind") != "" then TextOf(event, "target_kind") else TextOf(metadata, "target_kind")
  {
    hide TextOf, Trim;
  }

  // ----- Writing -----

  /** A chain is written into the event as identities and roles, hop by hop. */
  lemma ChainInEvent(event: Object, v: View)
    requires forall k :: k in KEYS ==> Clean(FieldOf(v, k))
    requires v.chain != [] && "delegation_chain" !in event && forall h :: h in v.chain ==> CleanHopAt(h)
    ensures var e := AppliedEvent(event, v);
            && "delegation_chain" in e && e["delegation_chain"].Hops? && |e["delegation_chain"].hops| == |v.chain|
            && forall i :: 0 <= i < |v.chain| ==>
                 e["delegation_chain"].hops[i] == Hop(v.chain[i].identity, v.chain[i].role, map[])
  {
    CloneChainKeeps(v.chain);
    SevenFields(v);
    AppliedIsSetSeven(event, v);
    SevenAt(event, v, "delegation_chain");
    KeysDistinct();
    hide KEYS, FieldOf, CloneChain, SetSeven, AppliedEvent, Trim;
  }

  /** The kinds a target reference may keep; any other is written as a resource. */
  predicate RefKind(kind: string) {
    || kind == "agent" || kind == "tool" || kind == "resource" || kind == "policy" || kind == "run" || kind == "trace"
    || kind == "delegation" || kind == "evidence"
  }

  lemma EntityKindMeans(kind: string)
    requires Clean(kind)
    ensures EntityKind(kind) == if kind == "" || RefKind(kind) then kind else "resource"
  {
    hide Trim;
  }

  /** A list of references with one added at the end, unless it is incomplete or there already. */
  ghost predicate Adds(before: seq<Ref>, after: seq<Ref>, kind: string, id: string) {
    if kind == "" || id == "" || (exists i :: 0 <= i < |before| && before[i].kind == kind && before[i].id == id)
    then after == before else after == before + [Ref(kind, id, map[])]
  }

  lemma WithRefAdds(before: seq<Ref>, kind: string, id: string)
    requires Clean(kind) && Clean(id) && forall r :: r in before ==> CleanRefAt(r)
    ensures Adds(before, WithRef(before, kind, id), kind, id)
  {
    hide Trim;
    forall i | 0 <= i < |before| ensures Trim(before[i].kind) == before[i].kind && Trim(before[i].id) == before[i].id {
      assert before[i] in before;
    }
  }

  /** Main result. What writing a view leaves in the relationship: references to actor, downstream and
      target at the end of the list, the policy digest and the chain where there were none, and the rest
      as a clean copy. */
  lemma RelationshipMeans(rel: Option<Relationship>, v: View) returns (a: seq<Ref>, b: seq<Ref>, c: seq<Ref>)
    requires !EmptyView(v) && (forall k :: k in KEYS ==> Clean(FieldOf(v, k))) &&
             (forall h :: h in v.chain ==> CleanHopAt(h))
    ensures Adds(CloneRefs(RefsOf(rel)), a, "agent", v.actor) && Adds(a, b, "agent", v.downstream)
    ensures Adds(b, c, EntityKind(v.targetKind), v.targetID) && RefsOf(AppliedRelationship(rel, v)) == c
    ensures ChainOf(AppliedRelationship(rel, v)) ==
              if v.chain != [] && CloneChain(ChainOf(rel)) == [] then v.chain else CloneChain(ChainOf(rel))
    ensures PolicyDigestOf(AppliedRelationship(rel, v)) == if PolicyDigestOf(rel) != "" then PolicyDigestOf(rel)
            else v.policyDigest
    ensures AppliedRelationship(rel, v).Some? ==>
              var r, base := AppliedRelationship(rel, v).value, Base(rel);
              && r.parentRecordID == base.parentRecordID && r.relatedRecordIDs == base.relatedRecordIDs
              && r.relatedEntityIDs == base.relatedEntityIDs && r.agentLineage == base.agentLineage
              && r.extra == base.extra && r.parentRef == base.parentRef && r.edges == base.edges
  {
    hide *;
    KeysNamed(v);
    AgentClean();
    var refs := CloneRefs(RefsOf(rel));
    CloneRefsClean(RefsOf(rel));
    a := WithRef(refs, "agent", v.actor);
    b := WithRef(a, "agent", v.downstream);
    c := WithRef(b, EntityKind(v.targetKind), v.targetID);
    WithRefAdds(refs, "agent", v.actor);
    WithRefClean(refs, "agent", v.actor);
    WithRefAdds(a, "agent", v.downstream);
    WithRefClean(a, "agent", v.downstream);
    EntityClean(v.targetKind);
    WithRefAdds(b, EntityKind(v.targetKind), v.targetID);
    ChainWritten(rel, v);
    PolicyWritten(rel, v);
    AppliedRefs(rel, v);
    RestKept(rel, v);
  }

  lemma AgentClean()
    ensures Clean("agent") && Clean("resource")
  {
  }

  lemma EntityClean(kind: string)
    requires Clean(kind)
    ensures Clean(EntityKind(kind))
  {
    AgentClean();
    EntityKindMeans(kind);
    hide Trim, EntityKind;
  }

  lemma AppliedRefs(rel: Option<Relationship>, v: View)
    requires !EmptyView(v)
    ensures RefsOf(AppliedRelationship(rel, v)) ==
            WithRef(WithRef(WithRef(CloneRefs(RefsOf(rel)), "agent", v.actor), "agent", v.downstream),
                    EntityKind(v.targetKind), v.targetID)
  {
    AppliedParts(rel, v);
    SameRefs(rel, v);
    hide AppliedRelationship, EmptyView, WithRef, EntityKind, CloneRefs, WithPolicy, CloneChain;
  }

  lemma PolicyWritten(rel: Option<Relationship>, v: View)
    requires !EmptyView(v) && Clean(v.policyDigest)
    ensures PolicyDigestOf(AppliedRelationship(rel, v)) == if PolicyDigestOf(rel) != "" then PolicyDigestOf(rel)
            else v.policyDigest
  {
    if PolicyDigestOf(rel) != "" {
      PolicyKept(rel, v);
    } else if v.policyDigest == "" {
      PolicyStays(rel, v);
    } else {
      AppliedParts(rel, v);
      BasePolicy(rel);
      hide AppliedRelationship, EmptyView, WithRef, EntityKind, CloneRefs, CloneChain, Trim, Base;
    }
  }

  lemma BasePolicy(rel: Option<Relationship>)
    ensures PolicyDigestOf(Some(Base(rel))) == PolicyDigestOf(rel)
    ensures Base(rel).policyRef.Some? && PolicyDigestOf(rel) == "" ==> Blank(Base(rel).policyRef.value.policyDigest)
  {
    if rel.Some? && rel.value.policyRef.Some? { TrimIdempotent(rel.value.policyRef.value.policyDigest); }
    hide Trim, CloneRefs, CloneChain, CloneEdges, CloneLineage;
  }

  lemma RestKept(rel: Option<Relationship>, v: View)
    requires !EmptyView(v)
    ensures AppliedRelationship(rel, v).Some? ==>
              var r, base := AppliedRelationship(rel, v).value, Base(rel);
              && r.parentRecordID == base.parentRecordID && r.relatedRecordIDs == base.relatedRecordIDs
              && r.relatedEntityIDs == base.relatedEntityIDs && r.agentLineage == base.agentLineage
              && r.extra == base.extra && r.parentRef == base.parentRef && r.edges == base.edges
  {
    hide EmptyView, WithRef, EntityKind, WithPolicy, CloneChain, EmptyRelationship, CloneRelationship;
  }

  /** With a view that holds nothing the relationship is only copied, and the event left alone. */
  lemma NothingWritten(event: Object, rel: Option<Relationship>, v: View)
    requires EmptyView(v)
    ensures AppliedEvent(event, v) == event
    ensures AppliedRelationship(rel, v) == if rel.None? then None else Some(CloneRelationship(rel.value))
  {
    hide EmptyView, CloneRelationship;
  }

  /** Nothing at all is held. */
  predicate Hollow(r: Relationship) {
    && r.parentRef == None && r.entityRefs == [] && r.policyRef == None && r.agentChain == [] && r.edges == []
    && Trim(r.parentRecordID) == "" && r.relatedRecordIDs == [] && r.relatedEntityIDs == []
    && r.agentLineage == [] && r.extra == map[]
  }

  /** A relationship in which nothing is held after the writing is dropped, and no other. */
  lemma DroppedMeans(rel: Option<Relationship>, v: View)
    requires !EmptyView(v)
    ensures AppliedRelationship(rel, v) == if Hollow(Enriched(Base(rel), v)) then None else Some(Enriched(Base(rel), v))
  {
    hide EmptyView, CloneRelationship, Enriched, Trim;
  }
}
