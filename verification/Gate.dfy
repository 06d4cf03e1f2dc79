/** Delegation gates (core/governance/gate.go): signed tokens that may only narrow the authority of
    their exact parent. */
module Gate {
  import opened Prelude
  import opened Text
  import opened Sorting
  import opened Json

  datatype Code = Malformed | SignatureInvalid | Expired | AuthorityExpanded | ParentMismatch | Duplicate

  /** Timestamp parsing (instant 0 is Go's zero time), canonical digests and signature checks. */
  datatype Env = Env(
    parse: string -> Option<int>,
    digest: Object -> Option<string>,
    verify: Object -> bool,
    keyID: string, keySizeOk: bool, now: int)

  function Instant(env: Env, o: Object, key: string): int {
    match env.parse(TextOr(o, key))
    case None => 0
    case Some(t) => t
  }

  predicate NonBlank(o: Object, key: string) {
    TextAt(o, key).Some? && !Blank(TextAt(o, key).value)
  }

  const SCOPES: seq<string> := ["action_classes", "scope", "target_scope", "environment_scope", "data_classes",
                                "network_destinations"]
  const DIGESTS: seq<string> := ["contract_digest", "policy_digest", "origin_authority_digest"]
  const BUDGET := "max_descendant_depth"
  const LIMITS: seq<string> := ["max_operations", "max_targets", BUDGET]

  // ----- One token -----

  predicate ShapeOk(env: Env, v: Object) {
    && NonBlank(v, "schema_id") && NonBlank(v, "schema_version") && NonBlank(v, "producer_version")
    && NonBlank(v, "token_id") && NonBlank(v, "created_at") && NonBlank(v, "expires_at")
    && v["schema_version"] == Str("1.0.0")
    && (if v["schema_id"] == Str("gait.gate.delegation_token") then
          NonBlank(v, "delegator_identity") && NonBlank(v, "delegate_identity")
          && v["delegator_identity"] != v["delegate_identity"]
        else
          && v["schema_id"] == Str("gait.gate.approval_token") && NonBlank(v, "approver_identity")
          && NonBlank(v, "reason_code") && NonBlank(v, "intent_digest") && NonBlank(v, "policy_digest"))
    && env.parse(TextOr(v, "created_at")).Some? && env.parse(TextOr(v, "expires_at")).Some?
    && ItemsAt(v, "scope") != []
    && forall i :: 0 <= i < |ItemsAt(v, "scope")| ==> ItemsAt(v, "scope")[i].Str? && !Blank(ItemsAt(v, "scope")[i].text)
  }

  predicate SignatureOk(env: Env, v: Object) {
    match ObjectAt(v, "signature")
    case None => false
    case Some(sig) =>
      && BareDigest(TextOr(sig, "signed_digest")) && env.keySizeOk
      && TextOr(sig, "key_id") == env.keyID
      && env.digest(v - {"signature"}) == Some(TextOr(sig, "signed_digest"))
      && env.verify(sig)
  }

  // ----- A child against its parent -----

  /** The digest a child must name: that of the parent's own signature. */
  predicate NamesSignature(root: Object, digest: string) {
    ObjectAt(root, "signature").Some? &&
        digest == "sha256:" + TextOr(ObjectAt(root, "signature").value, "signed_digest")
  }

  predicate IdRuleOk(root: Object, child: Object) {
    && ("parent_token_id" in child || "parent_token_digest" !in child)
    && (TextAt(child, "parent_token_id").Some? ==>
          && child["parent_token_id"].text == TextOr(root, "token_id")
          && TextOr(child, "parent_token_digest") != "" && NamesSignature(root, TextOr(child, "parent_token_digest")))
    && (TextAt(child, "parent_token_digest").Some? && ObjectAt(root, "signature").Some? ==>
          NamesSignature(root, child["parent_token_digest"].text))
  }

  predicate HandoverOk(root: Object, child: Object) {
    TextAt(child, "parent_token_digest").Some? ==>
      && NonBlank(child, "delegator_identity") && NonBlank(root, "delegate_identity")
      && child["delegator_identity"] == root["delegate_identity"]
  }

  predicate ExpiryOk(env: Env, root: Object, child: Object) {
    TextAt(root, "expires_at").Some? && TextAt(child, "expires_at").Some? ==>
      Instant(env, child, "expires_at") <= Instant(env, root, "expires_at")
  }

  predicate DigestCarried(root: Object, child: Object, key: string) {
    key in root ==> NonBlank(root, key) && TextAt(child, key) == TextAt(root, key)
  }

  predicate LimitOk(root: Object, child: Object, key: string) {
    key in root ==>
      && NumberAt(root, key).Some? && NumberAt(child, key).Some?
      && 0.0 <= child[key].number <= root[key].number
  }

  function Depth(o: Object): real {
    if NumberAt(o, "depth").Some? then o["depth"].number else 0.0
  }

  predicate DepthOk(root: Object, child: Object) {
    NumberAt(root, BUDGET).Some? ==>
      && NumberAt(child, BUDGET).Some? && NumberAt(child, "depth").Some?
      && Depth(child) == Depth(root) + 1.0
      && Depth(child) <= Depth(root) + root[BUDGET].number
      && child[BUDGET].number < root[BUDGET].number
  }

  /** `gateSubset`: none, or the reason the child is not within the parent. */
  function GateSubset(env: Env, root: Object, child: Object): Option<Code> {
    if !IdRuleOk(root, child) then Some(ParentMismatch)
    else if !HandoverOk(root, child) then Some(AuthorityExpanded)
    else if !ExpiryOk(env, root, child) then Some(AuthorityExpanded)
    else if exists k :: k in DIGESTS && !DigestCarried(root, child, k) then Some(ParentMismatch)
    else if exists k :: k in SCOPES && !(StringsAt(child, k) <= StringsAt(root, k)) then Some(AuthorityExpanded)
    else if exists k :: k in LIMITS && !LimitOk(root, child, k) then Some(AuthorityExpanded)
    else if !DepthOk(root, child) then Some(AuthorityExpanded)
    else None
  }

  datatype Verdict = Good(tokenID: string) | Bad(tokenID: string, code: Code)

  /** `VerifyGateArtifact`, on a decoded token; some failures do not name the token. */
  function VerifyArtifact(env: Env, v: Object, parent: Option<Object>): Verdict {
    var id := TextOr(v, "token_id");
    var child := v - {"signature"};
    var referring := "parent_token_id" in v || "parent_token_digest" in v;
    if !ShapeOk(env, v) then Bad(id, Malformed)
    else if referring && !(NonBlank(v, "parent_token_id") && NonBlank(v, "parent_token_digest")) then
      Bad(id, ParentMismatch)
    else if "revoked" in v && v["revoked"] == Bool(true) then Bad(id, ParentMismatch)
    else if ObjectAt(v, "signature").None? then Bad("", SignatureInvalid)
    else
      var sig := ObjectAt(v, "signature").value;
      if !BareDigest(TextOr(sig, "signed_digest")) || !env.keySizeOk then Bad("", SignatureInvalid)
      else if TextOr(sig, "key_id") != env.keyID then Bad(id, SignatureInvalid)
      else if !SignatureOk(env, v) then Bad("", SignatureInvalid)
      else
        var created, expires := Instant(env, v, "created_at"), Instant(env, v, "expires_at");
        if expires == 0 || (env.now != 0 && env.now >= expires) then Bad(id, Expired)
        else if expires <= created then Bad(id, Malformed)
        else if env.now != 0 && env.now < created then Bad(id, Expired)
        else
          match parent
          case Some(root) =>
            (match GateSubset(env, root, child) case Some(code) => Bad(id, code) case None => Good(id))
          case None => if referring then Bad(id, ParentMismatch) else Good(id)
  }

  // ----- The chain -----

  /** A document that does not decode, the document `null`, or a token. */
  datatype Doc = Garbage | NullDoc | Token(token: Object)

  datatype Gap = Gap(tokenID: string, code: Code)
  datatype ChainResult = ChainResult(lineage: bool, tokens: seq<string>, gaps: seq<Gap>)

  function CodeName(c: Code): string {
    match c
    case Malformed => "GOVERNANCE_MALFORMED"
    case SignatureInvalid => "GATE_SIGNATURE_INVALID"
    case Expired => "GATE_TOKEN_EXPIRED"
    case AuthorityExpanded => "GATE_AUTHORITY_EXPANDED"
    case ParentMismatch => "GATE_PARENT_MISMATCH"
    case Duplicate => "GATE_TOKEN_DUPLICATE"
  }

  predicate GapBefore(a: Gap, b: Gap) {
    if a.tokenID != b.tokenID then Less(a.tokenID, b.tokenID) else Less(CodeName(a.code), CodeName(b.code))
  }

  /** How many tokens carry this id; a missing or non-string id counts as the empty one. */
  function CountId(docs: seq<Doc>, id: string): nat {
    if docs == [] then 0
    else
      var d := docs[|docs| - 1];
      CountId(docs[..|docs| - 1], id) + if d.Token? && TextOr(d.token, "token_id") == id then 1 else 0
  }

  predicate HasId(d: Doc, id: string) {
    d.Token? && TextAt(d.token, "token_id") == Some(id)
  }

  function FirstWithId(docs: seq<Doc>, id: string): (o: Option<Object>)
    ensures o.Some? ==> exists i :: 0 <= i < |docs| && HasId(docs[i], id) && docs[i].token == o.value
    ensures o.None? ==> forall i :: 0 <= i < |docs| ==> !HasId(docs[i], id)
  {
    if docs == [] then None
    else
      match FirstWithId(docs[..|docs| - 1], id)
      case Some(o) => Some(o)
      case None => if HasId(docs[|docs| - 1], id) then Some(docs[|docs| - 1].token) else None
  }

  datatype Finding = Skipped | Found(gap: Gap) | Passed(tokenID: string)

  /** What the second pass concludes about one document. */
  function Judge(env: Env, docs: seq<Doc>, d: Doc): Finding {
    if !d.Token? then Skipped
    else
      var v := d.token;
      var id := TextOr(v, "token_id");
      if CountId(docs, id) > 1 then Found(Gap(id, Duplicate))
      else
        var parent := match TextAt(v, "parent_token_id") case None => None case Some(pid) => FirstWithId(docs, pid);
        if TextAt(v, "parent_token_id").Some? && parent.None? then Found(Gap(id, ParentMismatch))
        else
          match VerifyArtifact(env, v, parent)
          case Bad(tokenID, code) => Found(Gap(tokenID, code))
          case Good(tokenID) => Passed(tokenID)
  }

  function GarbageGaps(docs: seq<Doc>): seq<Gap> {
    FlatMap((d: Doc) => if d.Garbage? then [Gap("", Malformed)] else [], docs)
  }

  function TokenGaps(env: Env, docs: seq<Doc>, part: seq<Doc>): seq<Gap> {
    FlatMap((d: Doc) => if Judge(env, docs, d).Found? then [Judge(env, docs, d).gap] else [], part)
  }

  function PassedIds(env: Env, docs: seq<Doc>, part: seq<Doc>): seq<string> {
    FlatMap((d: Doc) => if Judge(env, docs, d).Passed? then [Judge(env, docs, d).tokenID] else [], part)
  }

  function Chain(env: Env, docs: seq<Doc>): ChainResult {
    ChainResult(
      docs != [] && forall i :: 0 <= i < |docs| ==> !docs[i].Garbage? && !Judge(env, docs, docs[i]).Found?,
      SortStrings(PassedIds(env, docs, docs)),
      SortBy(GapBefore, GarbageGaps(docs) + TokenGaps(env, docs, docs)))
  }

  method VerifyGateChain(env: Env, docs: seq<Doc>) returns (r: ChainResult)
    ensures r == Chain(env, docs)
  {
    hide Judge, GarbageGaps, TokenGaps, PassedIds;
    var lineage, gaps := Decode(docs);
    var counts := CountIds(docs);
    var sound, tokens, more := JudgeAll(env, docs, counts);
    return ChainResult(lineage && sound, SortStrings(tokens), SortBy(GapBefore, gaps + more));
  }

  /** The first pass: documents that do not decode. */
  method Decode(docs: seq<Doc>) returns (lineage: bool, gaps: seq<Gap>)
    ensures lineage == (docs != [] && forall j :: 0 <= j < |docs| ==> !docs[j].Garbage?)
    ensures gaps == GarbageGaps(docs)
  {
    lineage, gaps := |docs| > 0, [];
    for i := 0 to |docs|
      invariant lineage == (docs != [] && forall j :: 0 <= j < i ==> !docs[j].Garbage?)
      invariant gaps == GarbageGaps(docs[..i])
    {
      assert docs[..i + 1][..i] == docs[..i];
      if docs[i].Garbage? {
        lineage := false;
        gaps := gaps + [Gap("", Malformed)];
      }
    }
    assert docs[..|docs|] == docs;
  }

  /** The second pass: every token against its parent. */
  method JudgeAll(env: Env, docs: seq<Doc>, counts: map<string, nat>)
    returns (sound: bool, tokens: seq<string>, gaps: seq<Gap>)
    requires forall id :: (if id in counts then counts[id] else 0) == CountId(docs, id)
    ensures sound == forall j :: 0 <= j < |docs| ==> !Judge(env, docs, docs[j]).Found?
    ensures tokens == PassedIds(env, docs, docs) && gaps == TokenGaps(env, docs, docs)
  {
    hide Judge;
    sound, tokens, gaps := true, [], [];
    for i := 0 to |docs|
      invariant sound == forall j :: 0 <= j < i ==> !Judge(env, docs, docs[j]).Found?
      invariant gaps == TokenGaps(env, docs, docs[..i])
      invariant tokens == PassedIds(env, docs, docs[..i])
    {
      assert docs[..i + 1][..i] == docs[..i];
      var finding := JudgeWith(env, docs, docs[i], counts);
      match finding
      case Skipped =>
      case Found(gap) =>
        sound := false;
        gaps := gaps + [gap];
      case Passed(tokenID) =>
        tokens := tokens + [tokenID];
    }
    assert docs[..|docs|] == docs;
  }

  /** The count map of the token ids. */
  method CountIds(docs: seq<Doc>) returns (counts: map<string, nat>)
    ensures forall id :: (if id in counts then counts[id] else 0) == CountId(docs, id)
  {
    counts := map[];
    for i := 0 to |docs|
      invariant forall id :: (if id in counts then counts[id] else 0) == CountId(docs[..i], id)
    {
      assert docs[..i + 1][..i] == docs[..i];
      if docs[i].Token? {
        var id := TextOr(docs[i].token, "token_id");
        counts := counts[id := (if id in counts then counts[id] else 0) + 1];
      }
    }
    assert docs[..|docs|] == docs;
  }

  method JudgeWith(env: Env, docs: seq<Doc>, d: Doc, counts: map<string, nat>) returns (finding: Finding)
    requires forall id :: (if id in counts then counts[id] else 0) == CountId(docs, id)
    ensures finding == Judge(env, docs, d)
  {
    hide VerifyArtifact;
    if !d.Token? {
      return Skipped;
    }
    var v := d.token;
    var id := TextOr(v, "token_id");
    if id in counts && counts[id] > 1 {
      return Found(Gap(id, Duplicate));
    }
    var parent: Option<Object> := None;
    if TextAt(v, "parent_token_id").Some? {
      parent := FindParent(docs, TextAt(v, "parent_token_id").value);
      if parent.None? {
        return Found(Gap(id, ParentMismatch));
      }
    }
    var verified := VerifyArtifact(env, v, parent);
    finding := match verified
               case Bad(tokenID, code) => Found(Gap(tokenID, code))
               case Good(tokenID) => Passed(tokenID);
  }

  method FindParent(docs: seq<Doc>, pid: string) returns (parent: Option<Object>)
    ensures parent == FirstWithId(docs, pid)
  {
    for i := 0 to |docs|
      invariant FirstWithId(docs[..i], pid).None?
    {
      assert docs[..i + 1][..i] == docs[..i];
      if HasId(docs[i], pid) {
        FirstStays(docs, pid, i + 1);
        return Some(docs[i].token);
      }
    }
    assert docs[..|docs|] == docs;
    return None;
  }

  lemma {:induction false} FirstStays(docs: seq<Doc>, id: string, n: nat)
    requires n <= |docs| && FirstWithId(docs[..n], id).Some?
    ensures FirstWithId(docs, id) == FirstWithId(docs[..n], id)
    decreases |docs| - n
  {
    if n == |docs| {
      assert docs[..n] == docs;
    } else {
      assert docs[..n + 1][..n] == docs[..n];
      FirstStays(docs, id, n + 1);
    }
  }
}
