/** Writing a derived view back is a fixpoint: deriving again gives the same view, and applying it
    again changes nothing. The pipeline relies on this when it normalises and then builds. */
module IdentityFixpoint {
  import opened Prelude
  import opened Text
  import opened Identity

  // ----- Cloning is idempotent -----

  predicate CleanHopAt(h: Hop) {
    h.identity != "" && Clean(h.identity) && Clean(h.role)
  }

  lemma {:induction false} CloneChainKeeps(hops: seq<Hop>)
    requires forall h :: h in hops ==> CleanHopAt(h)
    ensures CloneChain(hops) == hops
  {
    hide Trim;
    if hops != [] {
      var init, last := hops[..|hops| - 1], hops[|hops| - 1];
      assert hops == init + [last];
      assert last in hops;
      CloneChainKeeps(init);
    }
  }

  lemma CloneChainTwice(hops: seq<Hop>)
    ensures CloneChain(CloneChain(hops)) == CloneChain(hops)
  {
    CloneChainKeeps(CloneChain(hops));
  }

  predicate CleanRefAt(r: Ref) {
    r.kind != "" && r.id != "" && Clean(r.kind) && Clean(r.id)
  }

  lemma {:induction false} CloneRefsKeeps(refs: seq<Ref>)
    requires forall r :: r in refs ==> CleanRefAt(r)
    ensures CloneRefs(refs) == refs
  {
    hide Trim;
    if refs != [] {
      assert refs == [refs[0]] + refs[1..];
      assert refs[0] in refs;
      CloneRefsKeeps(refs[1..]);
    }
  }

  lemma {:induction false} CloneRefsClean(refs: seq<Ref>)
    ensures forall r :: r in CloneRefs(refs) ==> CleanRefAt(r)
  {
    hide Trim;
    if refs != [] {
      CloneRefsClean(refs[1..]);
      TrimIdempotent(refs[0].kind);
      TrimIdempotent(refs[0].id);
    }
  }

  lemma {:induction false} CloneLineageTwice(hops: seq<LineageHop>)
    ensures CloneLineage(CloneLineage(hops)) == CloneLineage(hops)
  {
    hide Trim;
    if hops != [] {
      CloneLineageTwice(hops[1..]);
      TrimIdempotent(hops[0].agentID);
      TrimIdempotent(hops[0].delegatedBy);
      TrimIdempotent(hops[0].delegationRecordID);
      if !Blank(hops[0].agentID) {
        assert CloneLineage(hops)[1..] == CloneLineage(hops[1..]);
      } else {
        assert CloneLineage(hops) == CloneLineage(hops[1..]);
      }
    }
  }

  lemma CleanRefTwice(r: Ref)
    ensures CleanRef(CleanRef(r)) == CleanRef(r)
  {
    TrimIdempotent(r.kind);
    TrimIdempotent(r.id);
  }

  lemma CloneEdgesTwice(edges: seq<Edge>)
    ensures CloneEdges(CloneEdges(edges)) == CloneEdges(edges)
  {
    hide Trim, CleanRef;
    forall i | 0 <= i < |edges| ensures CloneEdges(CloneEdges(edges))[i] == CloneEdges(edges)[i] {
      TrimIdempotent(edges[i].kind);
      CleanRefTwice(edges[i].from);
      CleanRefTwice(edges[i].to);
    }
  }

  lemma CleanPolicyTwice(p: PolicyRef)
    ensures CleanPolicy(CleanPolicy(p)) == CleanPolicy(p)
  {
    hide Trim;
    TrimIdempotent(p.policyID);
    TrimIdempotent(p.policyVersion);
    TrimIdempotent(p.policyDigest);
  }

  /** The parts of a relationship that applying a view rewrites, already clean. */
  predicate CleanParts(r: Relationship) {
    && (forall h :: h in r.agentChain ==> CleanHopAt(h))
    && (forall e :: e in r.entityRefs ==> CleanRefAt(e))
    && (r.policyRef.Some? ==> CleanPolicy(r.policyRef.value) == r.policyRef.value)
  }

  /** A clone is clean throughout. */
  lemma CloneIsClean(r: Relationship)
    ensures CleanParts(CloneRelationship(r))
  {
    hide Trim, CleanPolicy;
    CloneRefsClean(r.entityRefs);
    if r.policyRef.Some? { CleanPolicyTwice(r.policyRef.value); }
  }

  /** A relationship that differs from a clone only in clean parts is its own clone. */
  lemma CloneKeeps(r: Relationship, s: Relationship)
    requires CleanParts(s)
    requires s ==
             CloneRelationship(r).(policyRef := s.policyRef, agentChain := s.agentChain, entityRefs := s.entityRefs)
    ensures CloneRelationship(s) == s
  {
    hide Trim, CleanRef, CleanPolicy, CloneChain, CloneRefs, CloneLineage, CloneEdges;
    TrimIdempotent(r.parentRecordID);
    CloneLineageTwice(r.agentLineage);
    CloneEdgesTwice(r.edges);
    if r.parentRef.Some? { CleanRefTwice(r.parentRef.value); }
    CloneChainKeeps(s.agentChain);
    CloneRefsKeeps(s.entityRefs);
  }

  // ----- Writing a view into the event -----

  const KEYS: seq<string> :=
    ["actor_identity", "downstream_identity", "owner_identity", "policy_digest", "approval_token_ref", "target_kind",
     "target_id"]

  /** The value the view holds for a key. */
  function FieldOf(v: View, key: string): string {
    if key == "actor_identity" then v.actor
    else if key == "downstream_identity" then v.downstream
    else if key == "owner_identity" then v.owner
    else if key == "policy_digest" then v.policyDigest
    else if key == "approval_token_ref" then v.approvalTokenRef
    else if key == "target_kind" then v.targetKind
    else v.targetID
  }

  /** The view agrees with every key the event already has, and is clean. */
  ghost predicate Agrees(event: Object, v: View) {
    && (forall k :: k in KEYS ==> Clean(FieldOf(v, k)))
    && (forall k :: k in KEYS && TextOf(event, k) != "" ==> FieldOf(v, k) == TextOf(event, k))
    && (forall h :: h in v.chain ==> CleanHopAt(h))
  }

  /** The seven keys, and the view's field for each. */
  lemma KeysNamed(v: View)
    ensures "actor_identity" in KEYS && FieldOf(v, "actor_identity") == v.actor
    ensures "downstream_identity" in KEYS && FieldOf(v, "downstream_identity") == v.downstream
    ensures "owner_identity" in KEYS && FieldOf(v, "owner_identity") == v.owner
    ensures "policy_digest" in KEYS && FieldOf(v, "policy_digest") == v.policyDigest
    ensures "approval_token_ref" in KEYS && FieldOf(v, "approval_token_ref") == v.approvalTokenRef
    ensures "target_kind" in KEYS && FieldOf(v, "target_kind") == v.targetKind
    ensures "target_id" in KEYS && FieldOf(v, "target_id") == v.targetID
  {
    assert KEYS[0] in KEYS && KEYS[1] in KEYS && KEYS[2] in KEYS && KEYS[3] in KEYS;
    assert KEYS[4] in KEYS && KEYS[5] in KEYS && KEYS[6] in KEYS;
  }

  lemma KeyCases(k: string)
    requires k in KEYS
    ensures || k == "actor_identity" || k == "downstream_identity" || k == "owner_identity" || k == "policy_digest"
            || k == "approval_token_ref" || k == "target_kind" || k == "target_id"
  {
  }

  lemma SevenFields(v: View)
    requires forall k :: k in KEYS ==> Clean(FieldOf(v, k))
    ensures EmptyView(v) <==> v.chain == [] && forall k :: k in KEYS ==> FieldOf(v, k) == ""
  {
    hide Trim, KEYS, FieldOf;
    KeysNamed(v);
    forall k | k in KEYS && EmptyView(v) ensures FieldOf(v, k) == "" {
      KeyCases(k);
    }
  }

  lemma KeyListed(i: nat)
    requires i < 7
    ensures KEYS[i] in KEYS
  {
  }

  /** What the event holds at one key: an identity key is kept or filled in, another is kept. */
  ghost predicate KeyWritten(event: Object, v: View, e: Object, k: string) {
    if k in event then k in e && e[k] == event[k]
    else if k in KEYS && FieldOf(v, k) != "" then k in e && e[k] == Str(FieldOf(v, k))
    else k !in e
  }

  /** What the event holds after a view is applied. */
  ghost predicate Written(event: Object, v: View, e: Object) {
    && (forall k :: k != "delegation_chain" ==> KeyWritten(event, v, e, k))
    && ("delegation_chain" in e <==> "delegation_chain" in event || v.chain != [])
    && ("delegation_chain" in e ==>
          if "delegation_chain" in event then e["delegation_chain"] == event["delegation_chain"]
            else e["delegation_chain"].Hops?)
  }

  function SetSeven(m: Object, v: View, n: nat): Object
    requires n <= 7
  {
    if n == 0 then m else SetIfMissing(SetSeven(m, v, n - 1), KEYS[n - 1], FieldOf(v, KEYS[n - 1]))
  }

  lemma {:induction false} SetSevenMeans(m: Object, v: View, n: nat)
    requires n <= 7 && forall k :: k in KEYS ==> Clean(FieldOf(v, k))
    ensures var e := SetSeven(m, v, n);
            && (forall i :: 0 <= i < n ==> (KEYS[i] in e <==> KEYS[i] in m || FieldOf(v, KEYS[i]) != ""))
            && (forall i :: 0 <= i < n && KEYS[i] in e ==> e[KEYS[i]] == if KEYS[i] in m then m[KEYS[i]]
                else Str(FieldOf(v, KEYS[i])))
            && (forall k :: (forall i :: 0 <= i < n ==> k != KEYS[i]) ==>
                (k in e <==> k in m) && (k in m ==> e[k] == m[k]))
  {
    hide Trim, FieldOf;
    if n > 0 {
      SetSevenMeans(m, v, n - 1);
      KeysDistinct();
      KeyListed(n - 1);
      hide KEYS;
      var before := SetSeven(m, v, n - 1);
      var key := KEYS[n - 1];
      assert forall i :: 0 <= i < n - 1 ==> key != KEYS[i];
      assert key in before <==> key in m;
    }
  }

  lemma KeysDistinct()
    ensures |KEYS| == 7 && forall i, j :: 0 <= i < j < 7 ==> KEYS[i] != KEYS[j]
    ensures "delegation_chain" !in KEYS
  {
    assert |KEYS[0]| == 14 && |KEYS[1]| == 19 && |KEYS[2]| == 14 && |KEYS[3]| == 13 && |KEYS[4]| == 18 &&
           |KEYS[5]| == 11 && |KEYS[6]| == 9;
    assert KEYS[0][0] == 'a' && KEYS[2][0] == 'o';
    assert |"delegation_chain"| == 16;
  }

  lemma AppliedIsSetSeven(event: Object, v: View)
    requires !EmptyView(v)
    ensures var e := SetSeven(event, v, 7);
            AppliedEvent(event, v) ==
              if v.chain != [] && "delegation_chain" !in e then e["delegation_chain" := Hops(ChainToAny(v.chain))]
                else e
  {
    hide SetIfMissing, ChainToAny, EmptyView;
    var e1 := SetIfMissing(event, "actor_identity", v.actor);
    assert SetSeven(event, v, 1) == e1;
    var e2 := SetIfMissing(e1, "downstream_identity", v.downstream);
    assert SetSeven(event, v, 2) == e2;
    var e3 := SetIfMissing(e2, "owner_identity", v.owner);
    assert SetSeven(event, v, 3) == e3;
    var e4 := SetIfMissing(e3, "policy_digest", v.policyDigest);
    assert SetSeven(event, v, 4) == e4;
    var e5 := SetIfMissing(e4, "approval_token_ref", v.approvalTokenRef);
    assert SetSeven(event, v, 5) == e5;
    var e6 := SetIfMissing(e5, "target_kind", v.targetKind);
    assert SetSeven(event, v, 6) == e6;
  }

  lemma SevenAt(m: Object, v: View, k: string)
    requires forall key :: key in KEYS ==> Clean(FieldOf(v, key))
    ensures KeyWritten(m, v, SetSeven(m, v, 7), k)
  {
    SetSevenMeans(m, v, 7);
    KeysDistinct();
    hide KEYS, FieldOf, SetSeven, Trim;
    if k in KEYS {
      var i :| 0 <= i < 7 && KEYS[i] == k;
      assert KEYS[i] in KEYS;
    } else {
      assert forall i :: 0 <= i < 7 ==> k != KEYS[i];
    }
  }

  lemma AppliedIsWritten(event: Object, v: View)
    requires forall k :: k in KEYS ==> Clean(FieldOf(v, k))
    ensures Written(event, v, AppliedEvent(event, v))
  {
    SevenFields(v);
    KeysDistinct();
    hide FieldOf, KEYS, ChainToAny, Trim;
    if !EmptyView(v) {
      AppliedIsSetSeven(event, v);
      hide EmptyView, AppliedEvent, SetSeven;
      var e := SetSeven(event, v, 7);
      forall k ensures KeyWritten(event, v, e, k) {
        SevenAt(event, v, k);
      }
      ChainKey(event, v, e);
    }
  }

  /** Filling in the chain afterwards leaves the other keys as they are. */
  lemma ChainKey(event: Object, v: View, e: Object)
    requires forall k :: KeyWritten(event, v, e, k)
    requires "delegation_chain" !in KEYS
    ensures Written(event, v,
              if v.chain != [] && "delegation_chain" !in e then e["delegation_chain" := Hops(ChainToAny(v.chain))]
                else e)
  {
    hide FieldOf, KEYS, ChainToAny;
    assert KeyWritten(event, v, e, "delegation_chain");
    var w := if v.chain != [] && "delegation_chain" !in e then e["delegation_chain" := Hops(ChainToAny(v.chain))]
      else e;
    forall k | k != "delegation_chain" ensures KeyWritten(event, v, w, k) {
      assert KeyWritten(event, v, e, k);
    }
  }

  /** What reading one identity key of the written event gives. */
  ghost predicate Rereads(event: Object, e: Object, k: string, field: string) {
    TextOf(e, k) == if k in event then TextOf(event, k) else field
  }

  /** Reading the written event back: keys the event had read as before, the others give the view's
      fields, and other keys and the stated chain are as before. */
  ghost predicate ReadsBack(event: Object, v: View, e: Object) {
    && (forall k :: k in KEYS ==> Rereads(event, e, k, FieldOf(v, k)))
    && (forall k :: k !in KEYS && k != "delegation_chain" ==> TextOf(e, k) == TextOf(event, k))
    && ChainAt(e, "delegation_chain") == ChainAt(event, "delegation_chain")
  }

  lemma ReadBack(event: Object, v: View, e: Object)
    requires Agrees(event, v) && Written(event, v, e)
    ensures ReadsBack(event, v, e)
  {
    KeysDistinct();
    hide FieldOf, KEYS;
    forall k | k in KEYS ensures Rereads(event, e, k, FieldOf(v, k)) {
      ReadKey(event, v, e, k);
    }
    forall k | k !in KEYS && k != "delegation_chain" ensures TextOf(e, k) == TextOf(event, k) {
      assert KeyWritten(event, v, e, k);
    }
  }

  lemma ReadKey(event: Object, v: View, e: Object, k: string)
    requires k in KEYS && Clean(FieldOf(v, k)) && KeyWritten(event, v, e, k)
    ensures Rereads(event, e, k, FieldOf(v, k))
  {
    hide FieldOf, KEYS;
  }

  // ----- Writing a view into the relationship -----

  function ChainOf(rel: Option<Relationship>): seq<Hop> {
    if rel.None? then [] else rel.value.agentChain
  }

  function RefsOf(rel: Option<Relationship>): seq<Ref> {
    if rel.None? then [] else rel.value.entityRefs
  }

  /** The relationship the view is written into. */
  function Base(rel: Option<Relationship>): Relationship {
    if rel.None? then NO_RELATIONSHIP else CloneRelationship(rel.value)
  }

  /** Dropping an empty relationship loses nothing that is read back. */
  lemma AppliedParts(rel: Option<Relationship>, v: View)
    requires !EmptyView(v)
    ensures var r := AppliedRelationship(rel, v);
            && ChainOf(r) == Enriched(Base(rel), v).agentChain
            && RefsOf(r) == Enriched(Base(rel), v).entityRefs
            && PolicyDigestOf(r) == PolicyDigestOf(Some(Enriched(Base(rel), v)))
  {
    hide EmptyView, CloneRelationship, Enriched, Trim;
  }

  lemma BaseClean(rel: Option<Relationship>)
    ensures CleanParts(Base(rel))
    ensures Base(rel).agentChain == CloneChain(ChainOf(rel))
    ensures Base(rel).entityRefs == CloneRefs(RefsOf(rel))
    ensures Base(rel).policyRef.Some? ==> Base(rel).policyRef.value.policyDigest == PolicyDigestOf(rel)
    ensures PolicyDigestOf(rel) != "" ==> Base(rel).policyRef.Some?
  {
    hide Trim;
    if rel.Some? { CloneIsClean(rel.value); }
  }

  lemma WithRefClean(refs: seq<Ref>, kind: string, id: string)
    requires forall e :: e in refs ==> CleanRefAt(e)
    ensures forall e :: e in WithRef(refs, kind, id) ==> CleanRefAt(e)
    ensures !Blank(kind) && !Blank(id) ==> HasRef(WithRef(refs, kind, id), Trim(kind), Trim(id))
    ensures refs <= WithRef(refs, kind, id)
  {
    TrimIdempotent(kind);
    TrimIdempotent(id);
    hide Trim;
    var out := WithRef(refs, kind, id);
    if !Blank(kind) && !Blank(id) && !HasRef(refs, Trim(kind), Trim(id)) {
      assert out[|refs|] == Ref(Trim(kind), Trim(id), map[]);
    }
  }

  lemma HasRefGrows(a: seq<Ref>, b: seq<Ref>, kind: string, id: string)
    requires a <= b && HasRef(a, kind, id)
    ensures HasRef(b, kind, id)
  {
    hide Trim;
    var i :| 0 <= i < |a| && Trim(a[i].kind) == kind && Trim(a[i].id) == id;
    assert b[i] == a[i];
  }

  lemma EnrichedClean(r: Relationship, v: View)
    requires CleanParts(r) && Clean(v.policyDigest) && forall h :: h in v.chain ==> CleanHopAt(h)
    ensures CleanParts(Enriched(r, v))
  {
    hide Trim, WithRef, EntityKind;
    CloneChainKeeps(v.chain);
    WithRefClean(r.entityRefs, "agent", v.actor);
    var one := WithRef(r.entityRefs, "agent", v.actor);
    WithRefClean(one, "agent", v.downstream);
    WithRefClean(WithRef(one, "agent", v.downstream), EntityKind(v.targetKind), v.targetID);
    BlankTrims();
  }

  lemma BlankTrims()
    ensures Trim("") == ""
  {
  }

  /** Enriching again changes nothing. */
  lemma EnrichedTwice(r: Relationship, v: View)
    requires CleanParts(r) && Clean(v.policyDigest) && forall h :: h in v.chain ==> CleanHopAt(h)
    ensures Enriched(Enriched(r, v), v) == Enriched(r, v)
  {
    hide Trim, EntityKind;
    var s := Enriched(r, v);
    CloneChainKeeps(v.chain);
    PolicyTwice(r.policyRef, v.policyDigest);
    hide WithRef, WithPolicy;
    var a := WithRef(r.entityRefs, "agent", v.actor);
    var b := WithRef(a, "agent", v.downstream);
    var kind := EntityKind(v.targetKind);
    WithRefClean(r.entityRefs, "agent", v.actor);
    WithRefClean(a, "agent", v.downstream);
    WithRefClean(b, kind, v.targetID);
    RefAgain(a, s.entityRefs, "agent", v.actor, r.entityRefs);
    RefAgain(b, s.entityRefs, "agent", v.downstream, a);
    RefAgain(s.entityRefs, s.entityRefs, kind, v.targetID, b);
  }

  lemma RefAgain(after: seq<Ref>, refs: seq<Ref>, kind: string, id: string, before: seq<Ref>)
    requires after == WithRef(before, kind, id) && after <= refs
    requires !Blank(kind) && !Blank(id) ==> HasRef(after, Trim(kind), Trim(id))
    ensures WithRef(refs, kind, id) == refs
  {
    hide Trim, HasRef;
    if !Blank(kind) && !Blank(id) {
      HasRefGrows(after, refs, Trim(kind), Trim(id));
    }
  }

  lemma PolicyTwice(p: Option<PolicyRef>, digest: string)
    requires Clean(digest)
    ensures WithPolicy(WithPolicy(p, digest), digest) == WithPolicy(p, digest)
  {
    hide Trim;
  }

  /** Applying the same view again leaves the relationship alone. */
  lemma RelationshipStays(rel: Option<Relationship>, v: View)
    requires Clean(v.policyDigest) && forall h :: h in v.chain ==> CleanHopAt(h)
    ensures AppliedRelationship(AppliedRelationship(rel, v), v) == AppliedRelationship(rel, v)
  {
    var r := AppliedRelationship(rel, v);
    BaseClean(rel);
    hide Trim, EmptyView, CleanParts;
    if EmptyView(v) {
      if rel.Some? {
        CloneIsClean(rel.value);
        CloneKeeps(rel.value, CloneRelationship(rel.value));
      }
    } else {
      EnrichedClean(Base(rel), v);
      EnrichedTwice(Base(rel), v);
      if r.Some? {
        hide EmptyRelationship;
        EnrichedKeepsRest(rel, v);
      } else {
        NothingToWrite(Base(rel), v);
      }
    }
  }

  lemma EnrichedKeepsRest(rel: Option<Relationship>, v: View)
    requires CleanParts(Enriched(Base(rel), v))
    ensures CloneRelationship(Enriched(Base(rel), v)) == Enriched(Base(rel), v)
  {
    hide Trim, WithPolicy, WithRef, CloneChain, CleanParts, EntityKind;
    if rel.Some? {
      CloneKeeps(rel.value, Enriched(Base(rel), v));
    } else {
      EmptyClone();
      CloneKeeps(NO_RELATIONSHIP, Enriched(Base(rel), v));
    }
  }

  lemma EmptyClone()
    ensures CloneRelationship(NO_RELATIONSHIP) == NO_RELATIONSHIP
  {
    BlankTrims();
    hide Trim;
    assert CloneEdges([]) == [];
  }

  /** If writing leaves a relationship empty, it had nothing to write. */
  lemma NothingToWrite(r: Relationship, v: View)
    requires EmptyRelationship(Enriched(r, v))
    ensures EmptyRelationship(Enriched(NO_RELATIONSHIP, v))
  {
    BlankTrims();
    hide Trim, EntityKind, CloneChain, HasRef;
    assert WithRef(r.entityRefs, "agent", v.actor) == [] && r.entityRefs == [];
  }

  // ----- Deriving again -----

  lemma {:induction false} TargetOfClone(refs: seq<Ref>)
    ensures FirstTarget(CloneRefs(refs)) == FirstTarget(refs)
  {
    hide Trim;
    if refs != [] {
      TargetOfClone(refs[1..]);
      TrimIdempotent(refs[0].kind);
      TrimIdempotent(refs[0].id);
      if !(Blank(refs[0].kind) || Blank(refs[0].id)) {
        assert CloneRefs(refs)[0] == CleanRef(refs[0]) && CloneRefs(refs)[1..] == CloneRefs(refs[1..]);
      } else {
        assert CloneRefs(refs) == CloneRefs(refs[1..]);
      }
    }
  }

  /** Agent references are never targets. */
  lemma {:induction false} AgentsAreNotTargets(refs: seq<Ref>, id: string)
    ensures FirstTarget(WithRef(refs, "agent", id)) == FirstTarget(refs)
  {
    assert Trim("agent") == "agent";
    hide Trim;
    if WithRef(refs, "agent", id) != refs {
      AppendAgent(refs, Ref("agent", Trim(id), map[]));
    }
  }

  lemma {:induction false} AppendAgent(refs: seq<Ref>, r: Ref)
    requires !TargetRef(r)
    ensures FirstTarget(refs + [r]) == FirstTarget(refs)
  {
    hide TargetRef;
    if refs == [] {
      assert [r][1..] == [];
    } else {
      assert (refs + [r])[0] == refs[0] && (refs + [r])[1..] == refs[1..] + [r];
      AppendAgent(refs[1..], r);
    }
  }

  /** Where kind or id is missing, nothing new can become the target. */
  lemma TargetStays(rel: Option<Relationship>, v: View)
    requires !EmptyView(v) && (v.targetKind == "" || v.targetID == "")
    ensures TargetOf(AppliedRelationship(rel, v)) == TargetOf(rel)
  {
    AppliedParts(rel, v);
    BaseClean(rel);
    BlankTrims();
    var a := WithRef(CloneRefs(RefsOf(rel)), "agent", v.actor);
    var b := WithRef(a, "agent", v.downstream);
    AgentsAreNotTargets(CloneRefs(RefsOf(rel)), v.actor);
    AgentsAreNotTargets(a, v.downstream);
    TargetOfClone(RefsOf(rel));
    assert WithRef(b, EntityKind(v.targetKind), v.targetID) == b by { hide HasRef, TargetRef; }
    hide EmptyView, Trim, WithRef, EntityKind, FirstTarget, AppliedRelationship;
  }

  /** The two ends of the chain are both known or both unknown. */
  lemma EndsBoth(actor: string, downstream: string, chain: seq<Hop>)
    requires Clean(actor) && Clean(downstream) && forall h :: h in chain ==> CleanHopAt(h)
    ensures var (a, d) := Ends(actor, downstream, chain);
            && Clean(a) && Clean(d) && (a == "" <==> d == "")
            && (actor != "" ==> a == actor) && (downstream != "" ==> d == downstream)
            && (a == "" ==> chain == [] && actor == "" && downstream == "")
  {
    hide Trim;
    if chain != [] {
      assert chain[0] in chain && chain[|chain| - 1] in chain;
    }
  }

  lemma DerivedEnds(agentID: string, event: Object, metadata: Object, rel: Option<Relationship>)
    ensures var v := DeriveIdentityView(agentID, event, metadata, rel);
            && Clean(v.actor) && Clean(v.downstream) && (v.actor == "" <==> v.downstream == "")
            && (StatedActor(event, metadata) != "" ==> v.actor == StatedActor(event, metadata))
            && (StatedDownstream(agentID, event, metadata, rel) != "" ==>
                v.downstream == StatedDownstream(agentID, event, metadata, rel))
            && (v.actor == "" ==> StatedChain(event, metadata, rel) == [] && v.chain == []
                                  && StatedActor(event, metadata) == "" &&
                                     StatedDownstream(agentID, event, metadata, rel) == "")
            && (forall h :: h in v.chain ==> CleanHopAt(h))
  {
    StatedHops(event, metadata, rel);
    RequesterClean();
    hide Trim, StatedChain, StatedActor, StatedDownstream, Target, OwnerOf, PolicyOf, ApprovalOf, Ends;
    EndsBoth(StatedActor(event, metadata), StatedDownstream(agentID, event, metadata, rel),
             StatedChain(event, metadata, rel));
  }

  lemma FirstChoice(agentID: string, event: Object, metadata: Object, rel: Option<Relationship>)
    ensures TextOf(event, "actor_identity") != "" ==> StatedActor(event, metadata) == TextOf(event, "actor_identity")
    ensures TextOf(event, "downstream_identity") != "" ==>
              StatedDownstream(agentID, event, metadata, rel) == TextOf(event, "downstream_identity")
    ensures TextOf(event, "owner_identity") != "" ==> OwnerOf(event, metadata) == TextOf(event, "owner_identity")
    ensures TextOf(event, "policy_digest") != "" ==> PolicyOf(event, metadata, rel) == TextOf(event, "policy_digest")
    ensures TextOf(event, "approval_token_ref") != "" ==>
            ApprovalOf(event, metadata) == TextOf(event, "approval_token_ref")
  {
    hide Trim, TextOf, LastIdentity, PolicyDigestOf, Or;
  }

  lemma TargetChoice(event: Object, metadata: Object, rel: Option<Relationship>)
    ensures var (kind, id) := Target(event, metadata, rel);
            && Clean(kind) && Clean(id)
            && (TextOf(event, "target_kind") != "" ==> kind == TextOf(event, "target_kind"))
            && (TextOf(event, "target_id") != "" ==> id == TextOf(event, "target_id"))
  {
    ImpliedClean(event, metadata);
    hide Trim, TextOf, ImpliedKind, TargetOf, Or;
  }

  lemma DerivedAgrees(agentID: string, event: Object, metadata: Object, rel: Option<Relationship>)
    ensures Agrees(event, DeriveIdentityView(agentID, event, metadata, rel))
  {
    hide Trim, TextOf, StatedChain, StatedActor, StatedDownstream, Target, OwnerOf, PolicyOf, ApprovalOf, Ends,
      DeriveIdentityView, CleanHopAt, KEYS, FieldOf;
    var v := DeriveIdentityView(agentID, event, metadata, rel);
    DerivedEnds(agentID, event, metadata, rel);
    FirstChoice(agentID, event, metadata, rel);
    TargetChoice(event, metadata, rel);
    DerivedParts(agentID, event, metadata, rel);
    PartsClean(event, metadata, rel);
    KeysNamed(v);
    forall k | k in KEYS
      ensures Clean(FieldOf(v, k)) && (TextOf(event, k) != "" ==> FieldOf(v, k) == TextOf(event, k))
    {
      KeyCases(k);
    }
  }

  lemma PartsClean(event: Object, metadata: Object, rel: Option<Relationship>)
    ensures Clean(OwnerOf(event, metadata)) && Clean(PolicyOf(event, metadata, rel)) &&
            Clean(ApprovalOf(event, metadata))
  {
  }

  lemma ImpliedClean(event: Object, metadata: Object)
    ensures Clean(ImpliedKind(event, metadata))
  {
    assert Trim("tool") == "tool" && Trim("privilege") == "privilege" && Trim("") == "";
  }

  lemma RequesterClean()
    ensures Clean("requester") && Clean("delegate")
  {
  }

  lemma StatedHops(event: Object, metadata: Object, rel: Option<Relationship>)
    ensures forall h :: h in StatedChain(event, metadata, rel) ==> CleanHopAt(h)
  {
    hide CloneChain, ChainAt, Trim;
  }

  /** The stated chain after writing: the same one, or the one that was synthesised. */
  lemma ChainStays(event: Object, e: Object, metadata: Object, rel: Option<Relationship>, v: View)
    requires ChainAt(e, "delegation_chain") == ChainAt(event, "delegation_chain")
    requires forall h :: h in v.chain ==> CleanHopAt(h)
    requires StatedChain(event, metadata, rel) != [] ==> v.chain == StatedChain(event, metadata, rel)
    ensures StatedChain(e, metadata, AppliedRelationship(rel, v)) == v.chain
  {
    var r := AppliedRelationship(rel, v);
    var base := CloneChain(ChainOf(rel));
    CloneChainTwice(ChainOf(rel));
    CloneChainKeeps(v.chain);
    ChainWritten(rel, v);
    StatedRead(e, metadata, r);
    StatedRead(event, metadata, rel);
    ChainAtKept(event);
    ChainAtKept(metadata);
    hide CloneChain, ChainAt, AppliedRelationship, StatedChain, ChainOf;
  }

  lemma ChainWritten(rel: Option<Relationship>, v: View)
    requires forall h :: h in v.chain ==> CleanHopAt(h)
    ensures ChainOf(AppliedRelationship(rel, v)) ==
              if v.chain != [] && CloneChain(ChainOf(rel)) == [] then v.chain else CloneChain(ChainOf(rel))
  {
    BaseClean(rel);
    CloneChainKeeps(v.chain);
    if !EmptyView(v) {
      AppliedParts(rel, v);
    }
    hide CloneChain, EmptyView, CloneRefs, Trim, WithRef, WithPolicy, EntityKind;
  }

  lemma {:induction false} ItemsClean(items: seq<Value>)
    ensures forall h :: h in ChainFromItems(items) ==> CleanHopAt(h)
  {
    hide Trim, TextOf;
    if items != [] {
      ItemsClean(items[..|items| - 1]);
    }
  }

  lemma ChainAtKept(m: Object)
    ensures CloneChain(ChainAt(m, "delegation_chain")) == ChainAt(m, "delegation_chain")
  {
    if "delegation_chain" in m && m["delegation_chain"].Items? {
      ItemsClean(m["delegation_chain"].items);
    }
    CloneChainKeeps(ChainAt(m, "delegation_chain"));
  }

  lemma StatedRead(event: Object, metadata: Object, rel: Option<Relationship>)
    ensures StatedChain(event, metadata, rel) ==
              if ChainAt(event, "delegation_chain") != [] then CloneChain(ChainAt(event, "delegation_chain"))
              else if ChainAt(metadata, "delegation_chain") != [] then CloneChain(ChainAt(metadata, "delegation_chain"))
              else CloneChain(CloneChain(ChainOf(rel)))
  {
  }

  // ----- Deriving from what was written, part by part -----

  lemma DerivedChain(agentID: string, event: Object, metadata: Object, rel: Option<Relationship>)
    ensures StatedChain(event, metadata, rel) != [] ==>
              DeriveIdentityView(agentID, event, metadata, rel).chain == StatedChain(event, metadata, rel)
  {
    hide StatedChain, StatedActor, StatedDownstream, Target, OwnerOf, PolicyOf, ApprovalOf, Ends;
  }

  lemma ReadEnds(event: Object, v: View, e: Object)
    requires ReadsBack(event, v, e)
    ensures Rereads(event, e, "actor_identity", v.actor) && Rereads(event, e, "downstream_identity", v.downstream)
    ensures Rereads(event, e, "owner_identity", v.owner) && Rereads(event, e, "policy_digest", v.policyDigest)
    ensures Rereads(event, e, "approval_token_ref", v.approvalTokenRef)
    ensures Rereads(event, e, "target_kind", v.targetKind) && Rereads(event, e, "target_id", v.targetID)
    ensures forall k :: k in OTHERS ==> TextOf(e, k) == TextOf(event, k)
  {
    hide TextOf, Rereads, KEYS, FieldOf, OTHERS;
    KeysNamed(v);
    OtherKeys();
  }

  const OTHERS: seq<string> :=
    ["actor_id", "principal_id", "delegate_identity", "approver_identity", "context_approval_ref",
     "approval_ref", "tool_name", "tool", "scope", "privilege"]

  /** The other keys the derivation reads are not identity keys. */
  lemma OtherKeys()
    ensures forall k :: k in OTHERS ==> k !in KEYS && k != "delegation_chain"
  {
  }

  lemma OtherListed()
    ensures "actor_id" in OTHERS && "principal_id" in OTHERS && "delegate_identity" in OTHERS &&
            "approver_identity" in OTHERS
    ensures "context_approval_ref" in OTHERS && "approval_ref" in OTHERS
    ensures "tool_name" in OTHERS && "tool" in OTHERS && "scope" in OTHERS && "privilege" in OTHERS
  {
    assert OTHERS[0] in OTHERS && OTHERS[1] in OTHERS && OTHERS[2] in OTHERS && OTHERS[3] in OTHERS &&
           OTHERS[4] in OTHERS;
    assert OTHERS[5] in OTHERS && OTHERS[6] in OTHERS && OTHERS[7] in OTHERS && OTHERS[8] in OTHERS &&
           OTHERS[9] in OTHERS;
  }

  // Actor and downstream identity.

  /** Restating either end, as it was stated or as it was derived, derives the same ends. */
  lemma EndsStable(a: string, d: string, chain: seq<Hop>, a': string, d': string)
    requires Clean(a) && Clean(d) && forall h :: h in chain ==> CleanHopAt(h)
    requires var (actor, downstream) := Ends(a, d, chain); a' in {a, actor} && d' in {d, downstream}
    ensures var (actor, downstream) := Ends(a, d, chain);
            Ends(a', d', if chain == [] then Synthesised(actor, downstream) else chain) == (actor, downstream)
  {
    EndsBoth(a, d, chain);
    hide Trim;
    if chain != [] {
      assert chain[0] in chain && chain[|chain| - 1] in chain;
    }
  }

  lemma ActorAgain(event: Object, e: Object, metadata: Object, actor: string)
    requires Rereads(event, e, "actor_identity", actor)
    requires TextOf(e, "actor_id") == TextOf(event, "actor_id") &&
             TextOf(e, "principal_id") == TextOf(event, "principal_id")
    requires actor == "" ==> StatedActor(event, metadata) == ""
    ensures StatedActor(e, metadata) in {StatedActor(event, metadata), actor}
  {
    hide Trim, TextOf, Or;
  }

  /** What the derivation falls back to once the event itself is silent. */
  function SilentDownstream(agentID: string, event: Object, metadata: Object, last: string): string {
    Or(TextOf(metadata, "downstream_identity"), Or(last,
    Or(TextOf(event, "delegate_identity"), Or(TextOf(metadata, "delegate_identity"), Or(Trim(agentID), "")))))
  }

  lemma DownstreamParts(agentID: string, event: Object, metadata: Object, rel: Option<Relationship>)
    ensures StatedDownstream(agentID, event, metadata, rel) ==
              if TextOf(event, "downstream_identity") != "" then TextOf(event, "downstream_identity")
              else SilentDownstream(agentID, event, metadata, LastIdentity(rel))
  {
    hide Trim, TextOf, LastIdentity, Or;
  }

  lemma SilentParts(agentID: string, event: Object, metadata: Object, last: string)
    requires Clean(last)
    ensures TextOf(metadata, "downstream_identity") != "" ==>
              SilentDownstream(agentID, event, metadata, last) == TextOf(metadata, "downstream_identity")
    ensures TextOf(metadata, "downstream_identity") == "" && last != "" ==>
            SilentDownstream(agentID, event, metadata, last) == last
  {
    hide Trim, TextOf, Or;
  }

  /** The event's downstream key is absent, or holds text that is not blank. */
  ghost predicate DownstreamUsable(event: Object) {
    "downstream_identity" in event ==> TextOf(event, "downstream_identity") != ""
  }

  /** The chain the written relationship holds. */
  function WrittenChain(rel: Option<Relationship>, v: View): seq<Hop> {
    if CloneChain(ChainOf(rel)) != [] then CloneChain(ChainOf(rel)) else v.chain
  }

  /** A blank downstream key does no harm: something ranks before the written chain, or that chain
      ends where the view says. */
  ghost predicate BlankHarmless(metadata: Object, rel: Option<Relationship>, v: View) {
    || TextOf(metadata, "downstream_identity") != "" || LastIdentity(rel) != ""
    || WrittenChain(rel, v) == [] || WrittenChain(rel, v)[|WrittenChain(rel, v)| - 1].identity == v.downstream
  }

  lemma LastOfChain(rel: Option<Relationship>)
    requires forall h :: h in ChainOf(rel) ==> CleanHopAt(h)
    ensures LastIdentity(rel) == if ChainOf(rel) == [] then "" else ChainOf(rel)[|ChainOf(rel)| - 1].identity
  {
    hide Trim;
    assert ChainOf(rel) != [] ==> ChainOf(rel)[|ChainOf(rel)| - 1] in ChainOf(rel);
  }

  lemma WrittenClean(rel: Option<Relationship>, v: View)
    requires forall h :: h in v.chain ==> CleanHopAt(h)
    ensures forall h :: h in WrittenChain(rel, v) ==> CleanHopAt(h)
  {
    hide Trim;
  }

  lemma LastWritten(rel: Option<Relationship>, v: View)
    requires forall h :: h in v.chain ==> CleanHopAt(h)
    ensures var c := WrittenChain(rel, v);
            && LastIdentity(AppliedRelationship(rel, v)) == (if c == [] then "" else c[|c| - 1].identity)
            && (c != [] ==> c[|c| - 1].identity != "")
  {
    hide CloneChain, AppliedRelationship, Trim, LastIdentity, ChainOf;
    ChainWritten(rel, v);
    WrittenClean(rel, v);
    LastOfChain(AppliedRelationship(rel, v));
    var c := WrittenChain(rel, v);
    assert c != [] ==> c[|c| - 1] in c;
  }

  /** A last hop with an identity stays last when the chain is cloned. */
  lemma LastCloned(rel: Option<Relationship>)
    requires LastIdentity(rel) != ""
    ensures var c := CloneChain(ChainOf(rel)); c != [] && c[|c| - 1].identity == LastIdentity(rel)
  {
    hide Trim;
  }

  /** The downstream identity read again: the stated or the derived one, unless the key is blank and
      nothing ranks before the written chain. */
  lemma DownstreamAgain(agentID: string, event: Object, e: Object, metadata: Object, rel: Option<Relationship>, v: View)
    requires Rereads(event, e, "downstream_identity", v.downstream) && Clean(v.downstream)
    requires TextOf(e, "delegate_identity") == TextOf(event, "delegate_identity")
    requires forall h :: h in v.chain ==> CleanHopAt(h)
    requires v.downstream == "" ==> StatedDownstream(agentID, event, metadata, rel) == "" && WrittenChain(rel, v) == []
    ensures var d := StatedDownstream(agentID, e, metadata, AppliedRelationship(rel, v));
            if DownstreamUsable(event) || BlankHarmless(metadata, rel, v)
            then d in {StatedDownstream(agentID, event, metadata, rel), v.downstream}
            else d == WrittenChain(rel, v)[|WrittenChain(rel, v)| - 1].identity != ""
  {
    hide TextOf, LastIdentity, SilentDownstream, StatedDownstream, CloneChain, AppliedRelationship, Trim, Or,
        WrittenChain, CleanHopAt;
    var r := AppliedRelationship(rel, v);
    LastWritten(rel, v);
    if LastIdentity(rel) != "" { LastKept(rel, v); }
    DownstreamParts(agentID, event, metadata, rel);
    DownstreamParts(agentID, e, metadata, r);
    LastClean(rel);
    LastClean(r);
    SilentParts(agentID, event, metadata, LastIdentity(rel));
    SilentParts(agentID, event, metadata, LastIdentity(r));
    SilentSame(agentID, event, e, metadata, LastIdentity(r));
  }

  lemma LastClean(rel: Option<Relationship>)
    ensures Clean(LastIdentity(rel))
  {
  }

  lemma SilentSame(agentID: string, event: Object, e: Object, metadata: Object, last: string)
    requires TextOf(e, "delegate_identity") == TextOf(event, "delegate_identity")
    ensures SilentDownstream(agentID, e, metadata, last) == SilentDownstream(agentID, event, metadata, last)
  {
    hide TextOf, Or, Trim;
  }

  lemma LastKept(rel: Option<Relationship>, v: View)
    requires LastIdentity(rel) != "" && forall h :: h in v.chain ==> CleanHopAt(h)
    ensures LastIdentity(AppliedRelationship(rel, v)) == LastIdentity(rel)
  {
    hide Trim, CloneChain, AppliedRelationship, LastIdentity;
    LastCloned(rel);
    LastWritten(rel, v);
  }

  /** With nobody known there is no chain to read an identity from. */
  lemma NobodyNoChain(agentID: string, event: Object, metadata: Object, rel: Option<Relationship>, v: View)
    requires v == DeriveIdentityView(agentID, event, metadata, rel) && v.downstream == ""
    ensures StatedDownstream(agentID, event, metadata, rel) == "" && WrittenChain(rel, v) == []
  {
    DerivedEnds(agentID, event, metadata, rel);
    StatedRead(event, metadata, rel);
    ChainAtKept(event);
    ChainAtKept(metadata);
    CloneChainTwice(ChainOf(rel));
    hide CloneChain, DeriveIdentityView, Trim, ChainAt, StatedChain, StatedDownstream, StatedActor;
  }

  lemma DerivedParts(agentID: string, event: Object, metadata: Object, rel: Option<Relationship>)
    ensures var v := DeriveIdentityView(agentID, event, metadata, rel);
            var stated := StatedChain(event, metadata, rel);
            && (v.actor, v.downstream) ==
               Ends(StatedActor(event, metadata), StatedDownstream(agentID, event, metadata, rel), stated)
            && v.chain == (if stated == [] then Synthesised(v.actor, v.downstream) else stated)
            && (v.targetKind, v.targetID) == Target(event, metadata, rel)
            && v.owner == OwnerOf(event, metadata) && v.policyDigest == PolicyOf(event, metadata, rel)
            && v.approvalTokenRef == ApprovalOf(event, metadata)
  {
    hide StatedChain, StatedActor, StatedDownstream, Target, OwnerOf, PolicyOf, ApprovalOf, Ends, Synthesised;
  }

  /** The two ends and the chain, derived again. */
  lemma EndsAgain(agentID: string, event: Object, e: Object, metadata: Object, rel: Option<Relationship>, v: View)
    requires v == DeriveIdentityView(agentID, event, metadata, rel) && ReadsBack(event, v, e)
    ensures var r := AppliedRelationship(rel, v);
            var ends := Ends(StatedActor(e, metadata), StatedDownstream(agentID, e, metadata, r),
                             StatedChain(e, metadata, r));
            && StatedChain(e, metadata, r) == v.chain
            && (ends == (v.actor, v.downstream) <==> DownstreamUsable(event) || BlankHarmless(metadata, rel, v))
            && (ends.1 == if DownstreamUsable(event) || BlankHarmless(metadata, rel, v) then v.downstream
                          else WrittenChain(rel, v)[|WrittenChain(rel, v)| - 1].identity)
  {
    hide Trim, TextOf, ChainAt, StatedChain, StatedActor, StatedDownstream, LastIdentity, AppliedRelationship, Ends,
        DeriveIdentityView,
      CleanHopAt, WrittenChain, Synthesised, Rereads, KEYS, FieldOf, OTHERS;
    DerivedEnds(agentID, event, metadata, rel);
    DerivedChain(agentID, event, metadata, rel);
    DerivedParts(agentID, event, metadata, rel);
    ChainStays(event, e, metadata, rel, v);
    ReadEnds(event, v, e);
    OtherListed();
    ActorAgain(event, e, metadata, v.actor);
    if v.downstream == "" { NobodyNoChain(agentID, event, metadata, rel, v); }
    DownstreamAgain(agentID, event, e, metadata, rel, v);
    var a', d' := StatedActor(e, metadata), StatedDownstream(agentID, e, metadata, AppliedRelationship(rel, v));
    StatedHops(event, metadata, rel);
    if DownstreamUsable(event) || BlankHarmless(metadata, rel, v) {
      EndsStable(StatedActor(event, metadata), StatedDownstream(agentID, event, metadata, rel),
                 StatedChain(event, metadata, rel), a', d');
    } else {
      EndsBoth(a', d', v.chain);
      HarmfulDiffers(metadata, rel, v);
    }
  }

  lemma HarmfulDiffers(metadata: Object, rel: Option<Relationship>, v: View)
    requires !BlankHarmless(metadata, rel, v)
    ensures WrittenChain(rel, v) != [] && WrittenChain(rel, v)[|WrittenChain(rel, v)| - 1].identity != v.downstream
  {
  }

  // Owner, approval and policy.

  lemma PartsAgain(event: Object, e: Object, metadata: Object, rel: Option<Relationship>, v: View)
    requires ReadsBack(event, v, e)
    requires v.owner == OwnerOf(event, metadata) && v.policyDigest == PolicyOf(event, metadata, rel)
    requires v.approvalTokenRef == ApprovalOf(event, metadata)
    ensures OwnerOf(e, metadata) == v.owner && ApprovalOf(e, metadata) == v.approvalTokenRef
    ensures PolicyOf(e, metadata, AppliedRelationship(rel, v)) == v.policyDigest
  {
    hide TextOf, Trim, PolicyDigestOf, AppliedRelationship, KEYS, FieldOf, OTHERS, Or, OwnerOf, ApprovalOf, PolicyOf,
        Rereads;
    ReadEnds(event, v, e);
    OtherListed();
    OwnerAgain(event, e, metadata);
    ApprovalAgain(event, e, metadata);
    if v.policyDigest == "" {
      NoPolicy(event, metadata, rel);
      PolicyStays(rel, v);
    }
    if PolicyDigestOf(rel) != "" { PolicyKept(rel, v); }
    PolicyAgain(event, e, metadata, rel, AppliedRelationship(rel, v));
  }

  lemma OwnerAgain(event: Object, e: Object, metadata: Object)
    requires Rereads(event, e, "owner_identity", OwnerOf(event, metadata))
    requires TextOf(e, "approver_identity") == TextOf(event, "approver_identity")
    ensures OwnerOf(e, metadata) == OwnerOf(event, metadata)
  {
    hide TextOf, Trim, Or;
  }

  lemma ApprovalAgain(event: Object, e: Object, metadata: Object)
    requires Rereads(event, e, "approval_token_ref", ApprovalOf(event, metadata))
    requires TextOf(e, "context_approval_ref") == TextOf(event, "context_approval_ref")
    requires TextOf(e, "approval_ref") == TextOf(event, "approval_ref")
    ensures ApprovalOf(e, metadata) == ApprovalOf(event, metadata)
  {
    hide TextOf, Trim, Or;
  }

  lemma PolicyAgain(event: Object, e: Object, metadata: Object, rel: Option<Relationship>, r: Option<Relationship>)
    requires Rereads(event, e, "policy_digest", PolicyOf(event, metadata, rel))
    requires PolicyOf(event, metadata, rel) == "" || PolicyDigestOf(rel) != "" ==>
             PolicyDigestOf(r) == PolicyDigestOf(rel)
    ensures PolicyOf(e, metadata, r) == PolicyOf(event, metadata, rel)
  {
    hide TextOf, Trim, Or, PolicyDigestOf;
  }

  lemma NoPolicy(event: Object, metadata: Object, rel: Option<Relationship>)
    requires PolicyOf(event, metadata, rel) == ""
    ensures PolicyDigestOf(rel) == "" && TextOf(metadata, "policy_digest") == ""
  {
    hide TextOf, Trim, PolicyDigestOf, Or;
  }

  /** Without a policy digest in the view, none appears in the relationship. */
  lemma PolicyStays(rel: Option<Relationship>, v: View)
    requires v.policyDigest == "" && PolicyDigestOf(rel) == ""
    ensures PolicyDigestOf(AppliedRelationship(rel, v)) == ""
  {
    BaseClean(rel);
    BlankTrims();
    if !EmptyView(v) {
      AppliedParts(rel, v);
    }
    hide EmptyView, Trim, CloneChain, CloneRefs, WithRef, EntityKind;
  }

  /** A policy digest the relationship has is never replaced. */
  lemma PolicyKept(rel: Option<Relationship>, v: View)
    requires PolicyDigestOf(rel) != ""
    ensures PolicyDigestOf(AppliedRelationship(rel, v)) == PolicyDigestOf(rel)
  {
    BaseClean(rel);
    BlankTrims();
    TrimIdempotent(rel.value.policyRef.value.policyDigest);
    if !EmptyView(v) {
      AppliedParts(rel, v);
    }
    hide EmptyView, Trim, CloneChain, CloneRefs, WithRef, EntityKind;
  }

  // The target.

  lemma TargetAgain(event: Object, e: Object, metadata: Object, rel: Option<Relationship>, v: View)
    requires ReadsBack(event, v, e)
    requires (v.targetKind, v.targetID) == Target(event, metadata, rel)
    ensures Target(e, metadata, AppliedRelationship(rel, v)) == (v.targetKind, v.targetID)
  {
    hide *;
    ReadEnds(event, v, e);
    OtherListed();
    if TargetOf(rel) != ("", "") {
      TargetFirst(rel, v);
    } else if v.targetKind == "" || v.targetID == "" {
      TargetKept(rel, v);
    }
    NoImplied(event, metadata);
    TargetBoth(rel);
    TargetOfParts(event, metadata, rel);
    TargetOfParts(e, metadata, AppliedRelationship(rel, v));
    TargetIDAgain(event, e, metadata, v.targetID);
    TargetKindAgain(event, e, metadata, v.targetKind);
  }

  lemma TargetBoth(rel: Option<Relationship>)
    ensures TargetOf(rel).0 == "" <==> TargetOf(rel).1 == ""
  {
  }

  lemma TargetOfParts(event: Object, metadata: Object, rel: Option<Relationship>)
    ensures var id, stated := StatedTargetID(event, metadata), StatedTargetKind(event, metadata);
            var kind := if stated == "" && id != "" then ImpliedKind(event, metadata) else stated;
            Target(event, metadata, rel) ==
                (if kind == "" then TargetOf(rel).0 else kind, if id == "" then TargetOf(rel).1 else id)
  {
    hide StatedTargetID, StatedTargetKind, ImpliedKind, TargetOf;
  }

  lemma TargetIDAgain(event: Object, e: Object, metadata: Object, id: string)
    requires Rereads(event, e, "target_id", id)
    requires id == "" ==> StatedTargetID(event, metadata) == ""
    requires TextOf(e, "tool_name") == TextOf(event, "tool_name") && TextOf(e, "tool") == TextOf(event, "tool")
    requires TextOf(e, "scope") == TextOf(event, "scope") && TextOf(e, "privilege") == TextOf(event, "privilege")
    ensures StatedTargetID(e, metadata) in {StatedTargetID(event, metadata), id}
    ensures ImpliedKind(e, metadata) == ImpliedKind(event, metadata)
  {
    hide TextOf, Trim, Or;
  }

  lemma TargetKindAgain(event: Object, e: Object, metadata: Object, kind: string)
    requires Rereads(event, e, "target_kind", kind)
    requires kind == "" ==> StatedTargetKind(event, metadata) == ""
    ensures StatedTargetKind(e, metadata) in {StatedTargetKind(event, metadata), kind}
  {
    hide TextOf, Trim, Or;
  }

  /** A kind is implied only by keys that also give an id. */
  lemma NoImplied(event: Object, metadata: Object)
    ensures StatedTargetID(event, metadata) == "" ==> ImpliedKind(event, metadata) == ""
  {
    hide TextOf, Trim, Or;
  }

  lemma TargetKept(rel: Option<Relationship>, v: View)
    requires v.targetKind == "" || v.targetID == ""
    ensures TargetOf(AppliedRelationship(rel, v)) == TargetOf(rel)
  {
    if EmptyView(v) {
      if rel.Some? { TargetOfClone(rel.value.entityRefs); }
    } else {
      hide EmptyView, TargetOf, AppliedRelationship;
      TargetStays(rel, v);
    }
  }

  lemma {:induction false} FirstTargetStays(refs: seq<Ref>, more: seq<Ref>)
    requires FirstTarget(refs) != ("", "")
    ensures FirstTarget(refs + more) == FirstTarget(refs)
  {
    hide Trim;
    assert (refs + more)[0] == refs[0];
    if !TargetRef(refs[0]) {
      FirstTargetStays(refs[1..], more);
      assert (refs + more)[1..] == refs[1..] + more;
    }
  }

  /** References are added at the end, so the first target stays the first. */
  lemma TargetFirst(rel: Option<Relationship>, v: View)
    requires TargetOf(rel) != ("", "")
    ensures TargetOf(AppliedRelationship(rel, v)) == TargetOf(rel)
  {
    TargetOfClone(RefsOf(rel));
    if !EmptyView(v) {
      AppliedParts(rel, v);
      var base, refs := CloneRefs(RefsOf(rel)), Enriched(Base(rel), v).entityRefs;
      RefsAppended(base, v);
      SameRefs(rel, v);
      assert refs == base + refs[|base|..];
      FirstTargetStays(base, refs[|base|..]);
    }
    hide EmptyView, Trim, WithRef, EntityKind, FirstTarget, CloneRefs, Enriched;
  }

  lemma SameRefs(rel: Option<Relationship>, v: View)
    ensures Enriched(Base(rel), v).entityRefs ==
            Enriched(NO_RELATIONSHIP.(entityRefs := CloneRefs(RefsOf(rel))), v).entityRefs
  {
    hide WithRef, EntityKind, Blank, WithPolicy, CloneChain, CloneEdges, CloneLineage;
    assert CloneRefs([]) == [];
  }

  lemma RefsAppended(base: seq<Ref>, v: View)
    ensures base <= Enriched(NO_RELATIONSHIP.(entityRefs := base), v).entityRefs
  {
    hide HasRef, EntityKind, Blank, WithPolicy, CloneChain;
  }

  /** Applying the view again leaves the event alone. */
  lemma EventStays(event: Object, v: View)
    requires forall k :: k in KEYS ==> Clean(FieldOf(v, k))
    ensures AppliedEvent(AppliedEvent(event, v), v) == AppliedEvent(event, v)
  {
    hide AppliedEvent, KEYS, FieldOf, Trim;
    var e := AppliedEvent(event, v);
    AppliedIsWritten(event, v);
    AppliedIsWritten(e, v);
    var f := AppliedEvent(e, v);
    forall k ensures (k in f <==> k in e) && (k in e ==> f[k] == e[k]) {
      if k != "delegation_chain" {
        KeyTwice(event, v, e, f, k);
      }
    }
  }

  lemma KeyTwice(event: Object, v: View, e: Object, f: Object, k: string)
    requires KeyWritten(event, v, e, k) && KeyWritten(e, v, f, k)
    ensures (k in f <==> k in e) && (k in e ==> f[k] == e[k])
  {
    hide KEYS, FieldOf;
  }

  // ----- The fixpoint -----

  /** Main result. Writing a derived view and deriving again gives the same view if and only if the
      event's downstream key is absent or usable, or a blank one does no harm; otherwise the view's
      downstream identity becomes the end of the written chain. Writing the view a second time never
      changes event or relationship. */
  lemma Fixpoint(agentID: string, event: Object, metadata: Object, rel: Option<Relationship>)
    ensures var v := DeriveIdentityView(agentID, event, metadata, rel);
            var e, r := AppliedEvent(event, v), AppliedRelationship(rel, v);
            var again := DeriveIdentityView(agentID, e, metadata, r);
            var kept := DownstreamUsable(event) || BlankHarmless(metadata, rel, v);
            && (again == v <==> kept)
            && (!kept ==> again.downstream == WrittenChain(rel, v)[|WrittenChain(rel, v)| - 1].identity)
            && AppliedEvent(e, v) == e
            && AppliedRelationship(r, v) == r
  {
    var v := DeriveIdentityView(agentID, event, metadata, rel);
    var e := AppliedEvent(event, v);
    DerivedAgrees(agentID, event, metadata, rel);
    AppliedIsWritten(event, v);
    ReadBack(event, v, e);
    assert Clean(v.policyDigest) && KEYS[3] in KEYS;
    RelationshipStays(rel, v);
    EventStays(event, v);
    ViewAgain(agentID, event, e, metadata, rel, v);
  }

  lemma ViewAgain(agentID: string, event: Object, e: Object, metadata: Object, rel: Option<Relationship>, v: View)
    requires v == DeriveIdentityView(agentID, event, metadata, rel) && ReadsBack(event, v, e)
    ensures var again := DeriveIdentityView(agentID, e, metadata, AppliedRelationship(rel, v));
            var kept := DownstreamUsable(event) || BlankHarmless(metadata, rel, v);
            && (again == v <==> kept)
            && (again.downstream == if kept then v.downstream
                                    else WrittenChain(rel, v)[|WrittenChain(rel, v)| - 1].identity)
  {
    var r := AppliedRelationship(rel, v);
    hide TextOf, ChainAt, StatedChain, StatedActor, StatedDownstream, Target, OwnerOf, PolicyOf, ApprovalOf, Ends,
        AppliedRelationship,
      ReadsBack, DownstreamUsable, BlankHarmless, DeriveIdentityView, Synthesised;
    DerivedParts(agentID, event, metadata, rel);
    DerivedParts(agentID, e, metadata, r);
    EndsAgain(agentID, event, e, metadata, rel, v);
    PartsAgain(event, e, metadata, rel, v);
    TargetAgain(event, e, metadata, rel, v);
  }

  /** An instance. Whenever the event's downstream identity is present but blank, and the downstream
      identity comes from the agent id while the event states a chain ending elsewhere, the chain
      written into a new relationship changes the view derived next. */
  lemma BlankKeyBreaksFixpoint(agentID: string, event: Object)
    requires "downstream_identity" in event && TextOf(event, "downstream_identity") == ""
    requires TextOf(event, "delegate_identity") == "" && Clean(agentID) && agentID != ""
    requires var chain := ChainAt(event, "delegation_chain"); chain != [] && chain[|chain| - 1].identity != agentID
    ensures var v := DeriveIdentityView(agentID, event, map[], None);
            var again := DeriveIdentityView(agentID, AppliedEvent(event, v), map[], AppliedRelationship(None, v));
            && !DownstreamUsable(event) && v.downstream == agentID && again != v
            && again.downstream == ChainAt(event, "delegation_chain")[|ChainAt(event, "delegation_chain")| - 1].identity
  {
    hide TextOf, ChainAt, DeriveIdentityView, AppliedEvent, AppliedRelationship, Trim, CloneChain;
    var v := DeriveIdentityView(agentID, event, map[], None);
    BlankView(agentID, event, v);
    NoMetadata();
    Fixpoint(agentID, event, map[], None);
  }

  /** The first view takes its downstream identity from the agent and its chain from the event. */
  lemma BlankView(agentID: string, event: Object, v: View)
    requires v == DeriveIdentityView(agentID, event, map[], None)
    requires TextOf(event, "downstream_identity") == "" && TextOf(event, "delegate_identity") == ""
    requires Clean(agentID) && agentID != "" && ChainAt(event, "delegation_chain") != []
    ensures v.downstream == agentID && v.chain == ChainAt(event, "delegation_chain")
    ensures forall h :: h in v.chain ==> CleanHopAt(h)
    ensures CloneChain(ChainOf(None)) == []
  {
    hide TextOf, ChainAt, StatedDownstream, DeriveIdentityView, Trim, Ends, CleanHopAt, StatedActor;
    ChainAtKept(event);
    StatedRead(event, map[], None);
    DerivedChain(agentID, event, map[], None);
    AgentDownstream(agentID, event);
    DerivedEnds(agentID, event, map[], None);
  }

  lemma NoMetadata()
    ensures forall k :: TextOf(map[], k) == ""
  {
  }

  lemma AgentDownstream(agentID: string, event: Object)
    requires TextOf(event, "downstream_identity") == "" && TextOf(event, "delegate_identity") == "" && Clean(agentID)
    ensures StatedDownstream(agentID, event, map[], None) == agentID
  {
    NoMetadata();
    hide TextOf, Or, Trim;
  }
}
