/** Identity views (core/normalize/identity.go): a view is derived from a record's event, metadata
    and relationship, and written back into event and relationship where they are silent. */
module Identity {
  import opened Prelude
  import opened Text

  /** A decoded value; a list of hop maps is what writing a view leaves in the event, and reading
      does not recognise it as a decoded list. */
  datatype Value =
    | Str(text: string)
    | Items(items: seq<Value>)
    | Fields(fields: map<string, Value>)
    | Hops(hops: seq<Hop>)
    | Other(json: string)

  type Object = map<string, Value>

  datatype Hop = Hop(identity: string, role: string, extra: map<string, string>)
  datatype LineageHop = LineageHop(agentID: string, delegatedBy: string, delegationRecordID: string,
                                   extra: map<string, string>)
  datatype Ref = Ref(kind: string, id: string, extra: map<string, string>)
  datatype PolicyRef = PolicyRef(policyID: string, policyVersion: string, policyDigest: string,
                                 matchedRuleIDs: seq<string>, extra: map<string, string>)
  datatype Edge = Edge(kind: string, from: Ref, to: Ref, extra: map<string, string>)

  datatype Relationship = Relationship(
    parentRecordID: string, relatedRecordIDs: seq<string>, relatedEntityIDs: seq<string>,
    agentLineage: seq<LineageHop>, extra: map<string, string>, parentRef: Option<Ref>,
    entityRefs: seq<Ref>, policyRef: Option<PolicyRef>, agentChain: seq<Hop>, edges: seq<Edge>)

  const NO_RELATIONSHIP := Relationship("", [], [], [], map[], None, [], None, [], [])

  datatype View = View(actor: string, downstream: string, owner: string, policyDigest: string,
                       approvalTokenRef: string, targetKind: string, targetID: string, chain: seq<Hop>)

  predicate EmptyView(v: View) {
    && Blank(v.actor) && Blank(v.downstream) && Blank(v.owner) && Blank(v.policyDigest)
    && Blank(v.approvalTokenRef) && Blank(v.targetKind) && Blank(v.targetID) && v.chain == []
  }

  // ----- Reading -----

  /** Trimming leaves the text alone. */
  predicate Clean(s: string) {
    Trim(s) == s
  }

  function TextOf(m: Object, key: string): (s: string)
    ensures Clean(s)
  {
    if key in m && m[key].Str? then TrimIdempotent(m[key].text); Trim(m[key].text) else ""
  }

  /** `firstString`, one argument at a time. */
  function Or(a: string, rest: string): (s: string)
    ensures Clean(rest) ==> Clean(s)
    ensures Clean(a) ==> s == if a != "" then a else rest
  {
    TrimIdempotent(a);
    if Trim(a) != "" then Trim(a) else rest
  }

  function CleanHop(h: Hop): Hop {
    Hop(Trim(h.identity), Trim(h.role), h.extra)
  }

  /** `cloneAgentChain`: trimmed, without hops that have no identity. */
  function CloneChain(hops: seq<Hop>): (r: seq<Hop>)
    ensures forall h :: h in r ==> h.identity != "" && Clean(h.identity) && Clean(h.role)
  {
    if hops == [] then []
    else
      var h := hops[|hops| - 1];
      TrimIdempotent(h.identity);
      TrimIdempotent(h.role);
      CloneChain(hops[..|hops| - 1]) + if Blank(h.identity) then [] else [CleanHop(h)]
  }

  function ChainFromItems(items: seq<Value>): seq<Hop> {
    if items == [] then []
    else
      var item := items[|items| - 1];
      ChainFromItems(items[..|items| - 1]) +
      if item.Fields? && TextOf(item.fields, "identity") != "" then
        [Hop(TextOf(item.fields, "identity"), TextOf(item.fields, "role"), map[])]
      else []
  }

  function ChainAt(m: Object, key: string): seq<Hop> {
    if key in m && m[key].Items? then ChainFromItems(m[key].items) else []
  }

  function LastIdentity(rel: Option<Relationship>): (s: string)
    ensures Clean(s)
  {
    if rel.None? || rel.value.agentChain == [] then ""
    else
      var h := rel.value.agentChain[|rel.value.agentChain| - 1];
      TrimIdempotent(h.identity);
      Trim(h.identity)
  }

  function PolicyDigestOf(rel: Option<Relationship>): (s: string)
    ensures Clean(s)
  {
    if rel.None? || rel.value.policyRef.None? then ""
    else TrimIdempotent(rel.value.policyRef.value.policyDigest); Trim(rel.value.policyRef.value.policyDigest)
  }

  predicate TargetRef(ref: Ref) {
    !Blank(ref.kind) && !Blank(ref.id) && Trim(ref.kind) !in {"agent", "identity", "owner", "policy", "approver"}
  }

  /** The first entity reference that can be a target. */
  function FirstTarget(refs: seq<Ref>): (t: (string, string))
    ensures Clean(t.0) && Clean(t.1) && (t.0 == "" <==> t.1 == "")
  {
    if refs == [] then ("", "")
    else if TargetRef(refs[0]) then
      TrimIdempotent(refs[0].kind);
      TrimIdempotent(refs[0].id);
      (Trim(refs[0].kind), Trim(refs[0].id))
    else FirstTarget(refs[1..])
  }

  function TargetOf(rel: Option<Relationship>): (t: (string, string))
    ensures Clean(t.0) && Clean(t.1) && (t.0 == "" <==> t.1 == "")
  {
    if rel.None? then ("", "") else FirstTarget(rel.value.entityRefs)
  }

  /** The chain a record states, before one is synthesised. */
  function StatedChain(event: Object, metadata: Object, rel: Option<Relationship>): seq<Hop> {
    if ChainAt(event, "delegation_chain") != [] then CloneChain(ChainAt(event, "delegation_chain"))
    else if ChainAt(metadata, "delegation_chain") != [] then CloneChain(ChainAt(metadata, "delegation_chain"))
    else if rel.Some? then CloneChain(CloneChain(rel.value.agentChain))
    else []
  }

  function StatedActor(event: Object, metadata: Object): (s: string)
    ensures Clean(s)
  {
    Or(TextOf(event, "actor_identity"), Or(TextOf(metadata, "actor_identity"),
    Or(TextOf(event, "actor_id"), Or(TextOf(metadata, "actor_id"),
    Or(TextOf(event, "principal_id"), Or(TextOf(metadata, "principal_id"), ""))))))
  }

  function StatedDownstream(agentID: string, event: Object, metadata: Object, rel: Option<Relationship>): (s: string)
    ensures Clean(s)
  {
    Or(TextOf(event, "downstream_identity"), Or(TextOf(metadata, "downstream_identity"),
    Or(LastIdentity(rel),
    Or(TextOf(event, "delegate_identity"), Or(TextOf(metadata, "delegate_identity"), Or(Trim(agentID), ""))))))
  }

  function OwnerOf(event: Object, metadata: Object): (s: string)
    ensures Clean(s)
  {
    Or(TextOf(event, "owner_identity"), Or(TextOf(metadata, "owner_identity"),
    Or(TextOf(event, "approver_identity"), Or(TextOf(metadata, "approver_identity"), ""))))
  }

  function ApprovalOf(event: Object, metadata: Object): (s: string)
    ensures Clean(s)
  {
    Or(TextOf(event, "approval_token_ref"), Or(TextOf(metadata, "approval_token_ref"),
    Or(TextOf(event, "context_approval_ref"), Or(TextOf(metadata, "context_approval_ref"),
    Or(TextOf(event, "approval_ref"), Or(TextOf(metadata, "approval_ref"), ""))))))
  }

  function PolicyOf(event: Object, metadata: Object, rel: Option<Relationship>): (s: string)
    ensures Clean(s)
  {
    Or(TextOf(event, "policy_digest"), Or(TextOf(metadata, "policy_digest"), Or(PolicyDigestOf(rel), "")))
  }

  function StatedTargetID(event: Object, metadata: Object): (s: string)
    ensures Clean(s)
  {
    Or(TextOf(event, "target_id"), Or(TextOf(metadata, "target_id"),
    Or(TextOf(event, "tool_name"), Or(TextOf(event, "tool"), Or(TextOf(event, "scope"),
    Or(TextOf(event, "privilege"), Or(TextOf(metadata, "scope"), "")))))))
  }

  /** The kind suggested by which keys are present. */
  function ImpliedKind(event: Object, metadata: Object): string {
    if TextOf(event, "tool_name") != "" || TextOf(event, "tool") != "" then "tool"
    else if TextOf(event, "privilege") != "" || TextOf(event, "scope") != "" || TextOf(metadata, "scope") != "" then
      "privilege"
    else ""
  }

  function StatedTargetKind(event: Object, metadata: Object): (s: string)
    ensures Clean(s)
  {
    Or(TextOf(event, "target_kind"), Or(TextOf(metadata, "target_kind"), ""))
  }

  /** Kind and id of the target. */
  function Target(event: Object, metadata: Object, rel: Option<Relationship>): (string, string) {
    var id := StatedTargetID(event, metadata);
    var stated := StatedTargetKind(event, metadata);
    var kind := if stated == "" && id != "" then ImpliedKind(event, metadata) else stated;
    if kind == "" || id == "" then
      var (relKind, relID) := TargetOf(rel);
      (if kind == "" then relKind else kind, if id == "" then relID else id)
    else (kind, id)
  }

  function Synthesised(actor: string, downstream: string): seq<Hop> {
    if actor != "" && downstream != "" && actor != downstream then
      [Hop(actor, "requester", map[]), Hop(downstream, "delegate", map[])]
    else if downstream != "" then [Hop(downstream, "delegate", map[])]
    else []
  }

  /** Actor and downstream identity after the fallbacks to the chain and to each other. */
  function Ends(actor: string, downstream: string, chain: seq<Hop>): (string, string) {
    var a1 := if actor == "" && chain != [] then Trim(chain[0].identity) else actor;
    var d1 := if downstream == "" && chain != [] then Trim(chain[|chain| - 1].identity) else downstream;
    var a2 := if a1 == "" then d1 else a1;
    (a2, if d1 == "" then a2 else d1)
  }

  function DeriveIdentityView(agentID: string, event: Object, metadata: Object, rel: Option<Relationship>): View {
    var stated := StatedChain(event, metadata, rel);
    var (actor, downstream) := Ends(StatedActor(event, metadata), StatedDownstream(agentID, event, metadata, rel),
                                    stated);
    var (kind, id) := Target(event, metadata, rel);
    View(actor, downstream, OwnerOf(event, metadata), PolicyOf(event, metadata, rel), ApprovalOf(event, metadata),
         kind, id, if stated == [] then Synthesised(actor, downstream) else stated)
  }

  // ----- Writing -----

  function CleanRef(r: Ref): Ref {
    Ref(Trim(r.kind), Trim(r.id), r.extra)
  }

  function CloneRefs(refs: seq<Ref>): seq<Ref> {
    if refs == [] then []
    else
      (if Blank(refs[0].kind) || Blank(refs[0].id) then [] else [CleanRef(refs[0])]) + CloneRefs(refs[1..])
  }

  function CloneLineage(hops: seq<LineageHop>): seq<LineageHop> {
    if hops == [] then []
    else
      (if Blank(hops[0].agentID) then []
       else [LineageHop(Trim(hops[0].agentID), Trim(hops[0].delegatedBy), Trim(hops[0].delegationRecordID),
                        hops[0].extra)])
      + CloneLineage(hops[1..])
  }

  function CloneEdges(edges: seq<Edge>): (r: seq<Edge>)
    ensures |r| == |edges|
    ensures forall i :: 0 <= i < |edges| ==>
            r[i] == Edge(Trim(edges[i].kind), CleanRef(edges[i].from), CleanRef(edges[i].to), edges[i].extra)
  {
    seq(|edges|, i requires 0 <= i < |edges| =>
                   Edge(Trim(edges[i].kind), CleanRef(edges[i].from), CleanRef(edges[i].to), edges[i].extra))
  }

  function CleanPolicy(p: PolicyRef): PolicyRef {
    p.(policyID := Trim(p.policyID), policyVersion := Trim(p.policyVersion), policyDigest := Trim(p.policyDigest))
  }

  function CloneRelationship(r: Relationship): Relationship {
    Relationship(Trim(r.parentRecordID), r.relatedRecordIDs, r.relatedEntityIDs, CloneLineage(r.agentLineage), r.extra,
                 if r.parentRef.None? then None else Some(CleanRef(r.parentRef.value)),
                 CloneRefs(r.entityRefs),
                 if r.policyRef.None? then None else Some(CleanPolicy(r.policyRef.value)),
                 CloneChain(r.agentChain), CloneEdges(r.edges))
  }

  function EntityKind(kind: string): string {
    var k := Trim(kind);
    if k in {"agent", "tool", "resource", "policy", "run", "trace", "delegation", "evidence"} then k
    else if k == "" then ""
    else "resource"
  }

  predicate HasRef(refs: seq<Ref>, kind: string, id: string) {
    exists i :: 0 <= i < |refs| && Trim(refs[i].kind) == kind && Trim(refs[i].id) == id
  }

  /** `appendEntityRef`. */
  function WithRef(refs: seq<Ref>, kind: string, id: string): seq<Ref> {
    if Blank(kind) || Blank(id) || HasRef(refs, Trim(kind), Trim(id)) then refs
    else refs + [Ref(Trim(kind), Trim(id), map[])]
  }

  function WithPolicy(p: Option<PolicyRef>, digest: string): Option<PolicyRef> {
    if digest == "" then p
    else
      var q := if p.Some? then p.value else PolicyRef("", "", "", [], map[]);
      Some(if Blank(q.policyDigest) then q.(policyDigest := digest) else q)
  }

  predicate EmptyRelationship(r: Relationship) {
    && r.parentRef.None? && r.entityRefs == [] && r.policyRef.None? && r.agentChain == [] && r.edges == []
    && Blank(r.parentRecordID) && r.relatedRecordIDs == [] && r.relatedEntityIDs == []
    && r.agentLineage == [] && r.extra == map[]
  }

  function Enriched(r: Relationship, v: View): Relationship {
    r.(policyRef := WithPolicy(r.policyRef, v.policyDigest),
       agentChain := if v.chain != [] && r.agentChain == [] then CloneChain(v.chain) else r.agentChain,
       entityRefs := WithRef(WithRef(WithRef(r.entityRefs, "agent", v.actor), "agent", v.downstream),
                             EntityKind(v.targetKind), v.targetID))
  }

  /** The relationship after a view is applied. */
  function AppliedRelationship(rel: Option<Relationship>, v: View): Option<Relationship> {
    var cloned := if rel.None? then None else Some(CloneRelationship(rel.value));
    if EmptyView(v) then cloned
    else
      var r := Enriched(if cloned.None? then NO_RELATIONSHIP else cloned.value, v);
      if EmptyRelationship(r) then None else Some(r)
  }

  function SetIfMissing(m: Object, key: string, value: string): Object {
    if Blank(value) || key in m then m else m[key := Str(Trim(value))]
  }

  /** `chainToAny`: identities and roles only. */
  function ChainToAny(hops: seq<Hop>): seq<Hop> {
    var cloned := CloneChain(hops);
    seq(|cloned|, i requires 0 <= i < |cloned| => cloned[i].(extra := map[]))
  }

  /** The event after a view is applied. */
  function AppliedEvent(event: Object, v: View): Object {
    if EmptyView(v) then event
    else
      var e := SetIfMissing(SetIfMissing(SetIfMissing(SetIfMissing(SetIfMissing(SetIfMissing(SetIfMissing(event,
                 "actor_identity", v.actor), "downstream_identity", v.downstream), "owner_identity", v.owner),
                 "policy_digest", v.policyDigest), "approval_token_ref", v.approvalTokenRef),
                 "target_kind", v.targetKind), "target_id", v.targetID);
      if v.chain != [] && "delegation_chain" !in e then e["delegation_chain" := Hops(ChainToAny(v.chain))] else e
  }

  /** An event map that is written in place. */
  class EventMap {
    var fields: Object

    constructor (fields: Object)
      ensures this.fields == fields
    {
      this.fields := fields;
    }

    method SetStringIfMissing(key: string, value: string)
      modifies this
      ensures fields == SetIfMissing(old(fields), key, value)
    {
      if Blank(value) || key in fields {
        return;
      }
      fields := fields[key := Str(Trim(value))];
    }

    method ApplyIdentityView(rel: Option<Relationship>, v: View) returns (r: Option<Relationship>)
      modifies this
      ensures fields == AppliedEvent(old(fields), v)
      ensures r == AppliedRelationship(rel, v)
    {
      hide SetIfMissing, CloneRelationship, CloneChain, ChainToAny, WithRef, EntityKind, WithPolicy, Blank;
      var cloned := if rel.None? then None else Some(CloneRelationship(rel.value));
      if EmptyView(v) {
        return cloned;
      }
      SetStringIfMissing("actor_identity", v.actor);
      SetStringIfMissing("downstream_identity", v.downstream);
      SetStringIfMissing("owner_identity", v.owner);
      SetStringIfMissing("policy_digest", v.policyDigest);
      SetStringIfMissing("approval_token_ref", v.approvalTokenRef);
      SetStringIfMissing("target_kind", v.targetKind);
      SetStringIfMissing("target_id", v.targetID);
      if v.chain != [] && "delegation_chain" !in fields {
        fields := fields["delegation_chain" := Hops(ChainToAny(v.chain))];
      }
      var w := Enrich(if cloned.None? then NO_RELATIONSHIP else cloned.value, v);
      return if EmptyRelationship(w) then None else Some(w);
    }
  }

  method Enrich(r: Relationship, v: View) returns (w: Relationship)
    ensures w == Enriched(r, v)
  {
    w := r.(policyRef := WithPolicy(r.policyRef, v.policyDigest));
    if v.chain != [] && w.agentChain == [] {
      w := w.(agentChain := CloneChain(v.chain));
    }
    var refs := AppendEntityRef(w.entityRefs, "agent", v.actor);
    refs := AppendEntityRef(refs, "agent", v.downstream);
    refs := AppendEntityRef(refs, EntityKind(v.targetKind), v.targetID);
    w := w.(entityRefs := refs);
  }

  method AppendEntityRef(refs: seq<Ref>, kind: string, id: string) returns (r: seq<Ref>)
    ensures r == WithRef(refs, kind, id)
  {
    var k, i := Trim(kind), Trim(id);
    if k == "" || i == "" {
      return refs;
    }
    for j := 0 to |refs|
      invariant forall l :: 0 <= l < j ==> Trim(refs[l].kind) != k || Trim(refs[l].id) != i
    {
      if Trim(refs[j].kind) == k && Trim(refs[j].id) == i {
        return refs;
      }
    }
    return refs + [Ref(k, i, map[])];
  }
}
