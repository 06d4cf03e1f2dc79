/** What a token must hold to be part of a reported lineage, read off the decoded document key by key:
    form, signature, validity, and its bonds to the parent it names. */
module GateTokens {
  import opened Prelude
  import opened Text
  import opened Sorting
  import opened Json
  import opened Gate
  import opened GateChains

  /** Text that is not blank. */
  predicate Filled(v: Object, key: string) {
    key in v && v[key].Str? && Trim(v[key].text) != ""
  }

  // ----- Form -----

  predicate Headed(v: Object) {
    && Filled(v, "schema_id") && Filled(v, "schema_version") && Filled(v, "producer_version")
    && Filled(v, "token_id") && Filled(v, "created_at") && Filled(v, "expires_at")
    && v["schema_version"].text == "1.0.0"
  }

  predicate Delegates(v: Object) {
    && "schema_id" in v && v["schema_id"] == Str("gait.gate.delegation_token")
    && Filled(v, "delegator_identity") && Filled(v, "delegate_identity")
    && v["delegator_identity"].text != v["delegate_identity"].text
  }

  predicate Approves(v: Object) {
    && "schema_id" in v && v["schema_id"] == Str("gait.gate.approval_token")
    && Filled(v, "approver_identity") && Filled(v, "reason_code")
    && Filled(v, "intent_digest") && Filled(v, "policy_digest")
  }

  predicate Scoped(v: Object) {
    && "scope" in v && v["scope"].Arr? && v["scope"].items != []
    && forall i :: 0 <= i < |v["scope"].items| ==> v["scope"].items[i].Str? && Trim(v["scope"].items[i].text) != ""
  }

  predicate Dated(env: Env, v: Object) {
    && "created_at" in v && v["created_at"].Str? && env.parse(v["created_at"].text).Some?
    && "expires_at" in v && v["expires_at"].Str? && env.parse(v["expires_at"].text).Some?
  }

  predicate Formed(env: Env, v: Object) {
    Headed(v) && (Delegates(v) || Approves(v)) && Scoped(v) && Dated(env, v)
  }

  lemma SchemasDiffer()
    ensures "gait.gate.delegation_token" != "gait.gate.approval_token"
  {
    assert "gait.gate.delegation_token"[10] != "gait.gate.approval_token"[10];
  }

  lemma ScopedIs(v: Object)
    ensures Scoped(v) <==>
            && ItemsAt(v, "scope") != []
            && forall i :: 0 <= i < |ItemsAt(v, "scope")| ==>
                 ItemsAt(v, "scope")[i].Str? && !Blank(ItemsAt(v, "scope")[i].text)
  {
    hide Trim;
  }

  lemma FormedIsShape(env: Env, v: Object)
    ensures ShapeOk(env, v) <==> Formed(env, v)
  {
    SchemasDiffer();
    ScopedIs(v);
    hide Trim, Scoped, ItemsAt;
  }

  // ----- Signature and validity -----

  predicate Hex(s: string) {
    |s| == 64 && forall i :: 0 <= i < 64 ==>
      s[i] in {'0', '1', '2', '3', '4', '5', '6', '7', '8', '9', 'a', 'b', 'c', 'd', 'e', 'f'}
  }

  lemma HexIsBare(s: string)
    ensures BareDigest(s) <==> Hex(s)
  {
  }

  /** The signature names the key, covers the token's digest, and verifies. */
  predicate SignedToken(env: Env, v: Object) {
    && "signature" in v && v["signature"].Obj? && env.keySizeOk
    && var sig := v["signature"].fields;
       && "signed_digest" in sig && sig["signed_digest"].Str? && Hex(sig["signed_digest"].text)
       && (if "key_id" in sig && sig["key_id"].Str? then sig["key_id"].text == env.keyID else env.keyID == "")
       && env.digest(v - {"signature"}) == Some(sig["signed_digest"].text)
       && env.verify(sig)
  }

  lemma SignedIsOk(env: Env, v: Object)
    ensures SignatureOk(env, v) <==> SignedToken(env, v)
  {
    if "signature" in v && v["signature"].Obj? {
      HexIsBare(TextOr(v["signature"].fields, "signed_digest"));
    }
    hide BareDigest, Hex;
  }

  predicate Revoked(v: Object) {
    "revoked" in v && v["revoked"] == Bool(true)
  }

  /** Valid for some time, not at the zero instant, and at this time if one is given. */
  predicate InForce(env: Env, v: Object)
    requires Dated(env, v)
  {
    var created, expires := env.parse(v["created_at"].text).value, env.parse(v["expires_at"].text).value;
    && created < expires && expires != 0
    && (env.now != 0 ==> created <= env.now < expires)
  }

  predicate Refers(v: Object) {
    "parent_token_id" in v || "parent_token_digest" in v
  }

  /** A token that refers to a parent at all gives both its id and its digest. */
  predicate RefersFully(v: Object) {
    Refers(v) ==> Filled(v, "parent_token_id") && Filled(v, "parent_token_digest")
  }

  // ----- A token against its parent -----

  /** The child names the parent by its id and by the digest that the parent's signature covers. */
  predicate NamesParent(root: Object, v: Object) {
    && "parent_token_id" in v && v["parent_token_id"].Str?
    && (if "token_id" in root && root["token_id"].Str? then v["parent_token_id"].text == root["token_id"].text
        else v["parent_token_id"].text == "")
    && "parent_token_digest" in v && v["parent_token_digest"].Str?
    && "signature" in root && root["signature"].Obj?
    && var sig := root["signature"].fields;
       v["parent_token_digest"].text ==
       "sha256:" + if "signed_digest" in sig && sig["signed_digest"].Str? then sig["signed_digest"].text else ""
  }

  /** Who delegates here is whom the parent delegated to. */
  predicate TakesOver(root: Object, v: Object) {
    && Filled(v, "delegator_identity") && Filled(root, "delegate_identity")
    && v["delegator_identity"].text == root["delegate_identity"].text
  }

  /** An instant given as text; anything unreadable counts as the zero instant. */
  function When(env: Env, text: string): int {
    if env.parse(text).Some? then env.parse(text).value else 0
  }

  predicate NoLater(env: Env, root: Object, v: Object) {
    "expires_at" in root && root["expires_at"].Str? && "expires_at" in v && v["expires_at"].Str? ==>
      When(env, v["expires_at"].text) <= When(env, root["expires_at"].text)
  }

  predicate Keeps(root: Object, v: Object, key: string) {
    key in root ==> Filled(root, key) && key in v && v[key] == root[key]
  }

  predicate KeepsDigests(root: Object, v: Object) {
    Keeps(root, v, "contract_digest") && Keeps(root, v, "policy_digest") && Keeps(root, v, "origin_authority_digest")
  }

  /** Each text the child lists, the parent lists. */
  predicate NoWider(root: Object, v: Object, key: string) {
    key in v && v[key].Arr? ==>
      forall i :: 0 <= i < |v[key].items| && v[key].items[i].Str? ==>
        key in root && root[key].Arr? && v[key].items[i] in root[key].items
  }

  predicate ScopesNarrow(root: Object, v: Object) {
    && NoWider(root, v, "action_classes") && NoWider(root, v, "scope") && NoWider(root, v, "target_scope")
    && NoWider(root, v, "environment_scope") && NoWider(root, v, "data_classes")
    && NoWider(root, v, "network_destinations")
  }

  predicate NoMore(root: Object, v: Object, key: string) {
    key in root ==>
      && root[key].Num? && key in v && v[key].Num?
      && 0.0 <= v[key].number && v[key].number <= root[key].number
  }

  predicate LimitsFall(root: Object, v: Object) {
    NoMore(root, v, "max_operations") && NoMore(root, v, "max_targets") && NoMore(root, v, "max_descendant_depth")
  }

  /** A parent with a hop budget passes on less of it, to a child one level deeper. */
  predicate OneDeeper(root: Object, v: Object) {
    "max_descendant_depth" in root && root["max_descendant_depth"].Num? ==>
      && "max_descendant_depth" in v && v["max_descendant_depth"].Num? && "depth" in v && v["depth"].Num?
      && v["max_descendant_depth"].number < root["max_descendant_depth"].number
      && root["max_descendant_depth"].number >= 1.0
      && v["depth"].number == 1.0 + if "depth" in root && root["depth"].Num? then root["depth"].number else 0.0
  }

  predicate Attenuates(env: Env, root: Object, v: Object) {
    && (Refers(v) ==> NamesParent(root, v) && TakesOver(root, v))
    && NoLater(env, root, v) && KeepsDigests(root, v) && ScopesNarrow(root, v) && LimitsFall(root, v)
    && OneDeeper(root, v)
  }

  lemma NamesIs(root: Object, v: Object)
    requires RefersFully(v)
    ensures IdRuleOk(root, v - {"signature"}) <==> (Refers(v) ==> NamesParent(root, v))
  {
    if Refers(v) && "signature" in root && root["signature"].Obj? {
      NotEmpty(TextOr(root["signature"].fields, "signed_digest"));
    }
    hide Trim;
  }

  lemma NotEmpty(s: string)
    ensures "sha256:" + s != ""
  {
    assert |"sha256:" + s| >= 7;
  }

  lemma TakesOverIs(root: Object, v: Object)
    requires RefersFully(v)
    ensures HandoverOk(root, v - {"signature"}) <==> (Refers(v) ==> TakesOver(root, v))
  {
    hide Trim;
  }

  lemma NoLaterIs(env: Env, root: Object, v: Object)
    ensures ExpiryOk(env, root, v - {"signature"}) <==> NoLater(env, root, v)
  {
  }

  lemma KeepsIs(root: Object, v: Object, key: string)
    requires key != "signature"
    ensures DigestCarried(root, v - {"signature"}, key) <==> Keeps(root, v, key)
  {
    hide Trim;
  }

  lemma DigestsIs(root: Object, v: Object)
    ensures (forall k :: k in DIGESTS ==> DigestCarried(root, v - {"signature"}, k)) <==> KeepsDigests(root, v)
  {
    assert DIGESTS[0] in DIGESTS && DIGESTS[1] in DIGESTS && DIGESTS[2] in DIGESTS;
    forall k | k in DIGESTS ensures DigestCarried(root, v - {"signature"}, k) <==> Keeps(root, v, k) {
      KeepsIs(root, v, k);
    }
    hide DigestCarried, Keeps;
  }

  lemma NoWiderIs(root: Object, v: Object, key: string)
    requires key != "signature"
    ensures StringsAt(v - {"signature"}, key) <= StringsAt(root, key) <==> NoWider(root, v, key)
  {
    WithoutSignature(v, key);
    ListedIn(root, v, key);

  }

  lemma ListedIn(root: Object, v: Object, key: string)
    ensures StringsAt(v, key) <= StringsAt(root, key) <==> NoWider(root, v, key)
  {
    if NoWider(root, v, key) {
      forall x | x in StringsAt(v, key) ensures x in StringsAt(root, key) {
        var i :| 0 <= i < |ItemsAt(v, key)| && ItemsAt(v, key)[i].Str? && ItemsAt(v, key)[i].text == x;
        assert ItemsAt(v, key)[i] in ItemsAt(root, key);
      }
    }
    if StringsAt(v, key) <= StringsAt(root, key) && key in v && v[key].Arr? {
      forall i | 0 <= i < |v[key].items| && v[key].items[i].Str?
        ensures key in root && root[key].Arr? && v[key].items[i] in root[key].items
      {
        assert v[key].items[i].text in StringsAt(v, key);
        var y :| y in ItemsAt(root, key) && y.Str? && y.text == v[key].items[i].text;
      }
    }
  }

  lemma ScopesListed()
    ensures "action_classes" in SCOPES && "scope" in SCOPES && "target_scope" in SCOPES
    ensures "environment_scope" in SCOPES && "data_classes" in SCOPES && "network_destinations" in SCOPES
    ensures "signature" !in SCOPES
  {
    assert SCOPES[0] in SCOPES && SCOPES[1] in SCOPES && SCOPES[2] in SCOPES;
    assert SCOPES[3] in SCOPES && SCOPES[4] in SCOPES && SCOPES[5] in SCOPES;
  }

  lemma ScopeCases(k: string)
    requires k in SCOPES
    ensures || k == "action_classes" || k == "scope" || k == "target_scope" || k == "environment_scope"
            || k == "data_classes" || k == "network_destinations"
  {
  }

  lemma ScopesIs(root: Object, v: Object)
    ensures (forall k :: k in SCOPES ==> StringsAt(v - {"signature"}, k) <= StringsAt(root, k)) <==>
            ScopesNarrow(root, v)
  {
    hide StringsAt, NoWider, SCOPES;
    ScopesListed();
    forall k | k in SCOPES ensures StringsAt(v - {"signature"}, k) <= StringsAt(root, k) <==> NoWider(root, v, k) {
      NoWiderIs(root, v, k);
    }
    forall k | k in SCOPES && ScopesNarrow(root, v) ensures NoWider(root, v, k) {
      ScopeCases(k);
    }
  }

  lemma LimitsIs(root: Object, v: Object)
    ensures (forall k :: k in LIMITS ==> LimitOk(root, v - {"signature"}, k)) <==> LimitsFall(root, v)
  {
    assert LIMITS[0] in LIMITS && LIMITS[1] in LIMITS && LIMITS[2] in LIMITS;
    forall k | k in LIMITS ensures LimitOk(root, v - {"signature"}, k) <==> NoMore(root, v, k) {
      NoMoreIs(root, v, k);
    }
    hide LimitOk, NoMore;
  }

  lemma NoMoreIs(root: Object, v: Object, key: string)
    requires key != "signature"
    ensures LimitOk(root, v - {"signature"}, key) <==> NoMore(root, v, key)
  {
  }

  lemma OneDeeperIs(root: Object, v: Object)
    ensures DepthOk(root, v - {"signature"}) <==> OneDeeper(root, v)
  {
  }

  /** Main result. The subset check passes exactly when the child names and takes over from the parent and
      narrows every one of its grants; and its refusals say which of the two is wrong. */
  lemma SubsetIff(env: Env, root: Object, v: Object)
    requires RefersFully(v)
    ensures var answer := GateSubset(env, root, v - {"signature"});
            var named := Refers(v) ==> NamesParent(root, v);
            var before := (Refers(v) ==> TakesOver(root, v)) && NoLater(env, root, v);
            && (answer == None <==> Attenuates(env, root, v))
            && (answer == Some(ParentMismatch) <==> !named || (before && !KeepsDigests(root, v)))
            && (answer == Some(AuthorityExpanded) <==>
                  named && (!before || (KeepsDigests(root, v) && !Attenuates(env, root, v))))
  {
    hide *;
    NamesIs(root, v);
    TakesOverIs(root, v);
    NoLaterIs(env, root, v);
    DigestsIs(root, v);
    ScopesIs(root, v);
    LimitsIs(root, v);
    OneDeeperIs(root, v);
    SubsetAnswer(env, root, v - {"signature"});
    AttenuatesParts(env, root, v);
  }

  lemma AttenuatesParts(env: Env, root: Object, v: Object)
    ensures Attenuates(env, root, v) <==>
            && (Refers(v) ==> NamesParent(root, v)) && (Refers(v) ==> TakesOver(root, v))
            && NoLater(env, root, v) && KeepsDigests(root, v) && ScopesNarrow(root, v) && LimitsFall(root, v)
            && OneDeeper(root, v)
  {
    hide NamesParent, TakesOver, NoLater, KeepsDigests, ScopesNarrow, LimitsFall, OneDeeper, Refers;
  }

  lemma SubsetAnswer(env: Env, root: Object, child: Object)
    ensures var answer := GateSubset(env, root, child);
            var digests := forall k :: k in DIGESTS ==> DigestCarried(root, child, k);
            var before := HandoverOk(root, child) && ExpiryOk(env, root, child);
            var rest := && (forall k :: k in SCOPES ==> StringsAt(child, k) <= StringsAt(root, k))
                        && (forall k :: k in LIMITS ==> LimitOk(root, child, k)) && DepthOk(root, child);
            && (answer == None <==> IdRuleOk(root, child) && before && digests && rest)
            && (answer == Some(ParentMismatch) <==> !IdRuleOk(root, child) || (before && !digests))
            && (answer == Some(AuthorityExpanded) <==>
                  IdRuleOk(root, child) && (!before || (digests && !rest)))
  {
    hide IdRuleOk, HandoverOk, ExpiryOk, DepthOk, DigestCarried, StringsAt, LimitOk, DIGESTS, SCOPES, LIMITS;
  }

  // ----- The verdict on one token -----

  /** The token stands by itself: formed, referring fully or not at all, not revoked, signed, in force. */
  predicate Stands(env: Env, v: Object) {
    Formed(env, v) && RefersFully(v) && !Revoked(v) && SignedToken(env, v) && InForce(env, v)
  }

  /** Main result. A token verifies exactly when it stands by itself and either attenuates the parent it
      is checked against or refers to none. */
  lemma VerifiesIff(env: Env, v: Object, parent: Option<Object>)
    ensures VerifyArtifact(env, v, parent).Good? <==>
            Stands(env, v) && match parent case Some(root) => Attenuates(env, root, v) case None => !Refers(v)
    ensures VerifyArtifact(env, v, parent).Good? ==> VerifyArtifact(env, v, parent).tokenID == v["token_id"].text
  {
    hide *;
    FormedIsShape(env, v);
    SignedIsOk(env, v);
    if RefersFully(v) && parent.Some? {
      SubsetIff(env, parent.value, v);
    }
    VerdictParts(env, v, parent);
    StandsParts(env, v);
  }

  lemma StandsParts(env: Env, v: Object)
    ensures Stands(env, v) <==>
            Formed(env, v) && RefersFully(v) && !Revoked(v) && SignedToken(env, v) && Dated(env, v) && InForce(env, v)
    ensures Formed(env, v) ==> "token_id" in v && v["token_id"].Str? && TextOr(v, "token_id") == v["token_id"].text
    ensures Dated(env, v) ==> (InForce(env, v) <==> Lasts(env, v))
  {
    hide Delegates, Approves, Scoped, SignedToken, Trim, RefersFully, Revoked;
  }

  /** The same validity, as the checks read it. */
  predicate Lasts(env: Env, v: Object) {
    var created, expires := Instant(env, v, "created_at"), Instant(env, v, "expires_at");
    expires != 0 && created < expires && (env.now == 0 || created <= env.now < expires)
  }

  lemma VerdictParts(env: Env, v: Object, parent: Option<Object>)
    ensures var verdict := VerifyArtifact(env, v, parent);
            && (verdict.Good? <==>
                  && ShapeOk(env, v) && RefersFully(v) && !Revoked(v) && SignatureOk(env, v) && Lasts(env, v)
                  && match parent
                     case Some(root) => GateSubset(env, root, v - {"signature"}) == None
                     case None => !Refers(v))
            && (verdict.Good? ==> verdict.tokenID == TextOr(v, "token_id"))
            && (verdict.Good? ==> Dated(env, v))
  {
    hide GateSubset, BareDigest, Trim, ItemsAt;
  }

  /** The signature has the right form but names another key. */
  predicate OtherKey(env: Env, v: Object) {
    && "signature" in v && v["signature"].Obj? && env.keySizeOk
    && var sig := v["signature"].fields;
       && "signed_digest" in sig && sig["signed_digest"].Str? && Hex(sig["signed_digest"].text)
       && (if "key_id" in sig && sig["key_id"].Str? then sig["key_id"].text != env.keyID else env.keyID != "")
  }

  /** Which code a token is refused with: the first of form, references, revocation, signature, validity
      and parent that fails. A bad signature leaves the token unnamed unless it is of another key. */
  lemma RefusalCodes(env: Env, v: Object, parent: Option<Object>)
    ensures var verdict := VerifyArtifact(env, v, parent);
            && (!Formed(env, v) ==> verdict.Bad? && verdict.code == Malformed)
            && (Formed(env, v) && (!RefersFully(v) || Revoked(v)) ==> verdict.Bad? && verdict.code == ParentMismatch)
            && (Formed(env, v) && RefersFully(v) && !Revoked(v) && !SignedToken(env, v) ==>
                  verdict == Bad(if OtherKey(env, v) then TextOr(v, "token_id") else "", SignatureInvalid))
            && (verdict.Bad? && verdict.code != SignatureInvalid ==> verdict.tokenID == TextOr(v, "token_id"))
            && (Stands(env, v) && parent.None? && Refers(v) ==> verdict.Bad? && verdict.code == ParentMismatch)
            && (Stands(env, v) && parent.Some? && !Attenuates(env, parent.value, v) ==>
                  verdict.Bad? && Some(verdict.code) == GateSubset(env, parent.value, v - {"signature"}))
  {
    hide *;
    FormedIsShape(env, v);
    SignedIsOk(env, v);
    StandsParts(env, v);
    if RefersFully(v) && parent.Some? {
      SubsetIff(env, parent.value, v);
    }
    RefusalParts(env, v, parent);
    if Formed(env, v) && RefersFully(v) && !Revoked(v) && !SignedToken(env, v) {
      SignatureRefused(env, v, parent);
    }
  }

  lemma RefusalParts(env: Env, v: Object, parent: Option<Object>)
    ensures var verdict := VerifyArtifact(env, v, parent);
            var shaped := ShapeOk(env, v);
            && (!shaped ==> verdict == Bad(TextOr(v, "token_id"), Malformed))
            && (shaped && (!RefersFully(v) || Revoked(v)) ==> verdict == Bad(TextOr(v, "token_id"), ParentMismatch))
            && (shaped && RefersFully(v) && !Revoked(v) && SignatureOk(env, v) && Lasts(env, v) ==>
                  match parent
                  case None => (Refers(v) ==> verdict == Bad(TextOr(v, "token_id"), ParentMismatch))
                  case Some(root) =>
                    (GateSubset(env, root, v - {"signature"}).Some? ==>
                       verdict == Bad(TextOr(v, "token_id"), GateSubset(env, root, v - {"signature"}).value)))
            && (verdict.Bad? && verdict.code != SignatureInvalid ==> verdict.tokenID == TextOr(v, "token_id"))
  {
    hide GateSubset, BareDigest, Trim, ItemsAt, ShapeOk;
  }

  lemma SignatureRefused(env: Env, v: Object, parent: Option<Object>)
    requires ShapeOk(env, v) && RefersFully(v) && !Revoked(v) && !SignatureOk(env, v)
    ensures VerifyArtifact(env, v, parent) ==
            Bad(if OtherKey(env, v) then TextOr(v, "token_id") else "", SignatureInvalid)
  {
    OtherKeyIs(env, v);
    hide GateSubset, BareDigest, Trim, ItemsAt, ShapeOk, OtherKey;
  }

  lemma OtherKeyIs(env: Env, v: Object)
    ensures OtherKey(env, v) <==>
            && ObjectAt(v, "signature").Some? && env.keySizeOk
            && BareDigest(TextOr(ObjectAt(v, "signature").value, "signed_digest"))
            && TextOr(ObjectAt(v, "signature").value, "key_id") != env.keyID
  {
    if "signature" in v && v["signature"].Obj? {
      HexIsBare(TextOr(v["signature"].fields, "signed_digest"));
    }
    HexIsBare("");
    hide BareDigest, Hex;
    NotHex();
  }

  lemma NotHex()
    ensures !Hex("")
  {
  }

  /** A signed token outside its time is malformed if it is never valid, and expired otherwise. */
  lemma ValidityCodes(env: Env, v: Object, parent: Option<Object>)
    requires Formed(env, v) && RefersFully(v) && !Revoked(v) && SignedToken(env, v) && !InForce(env, v)
    ensures var verdict := VerifyArtifact(env, v, parent);
            var created, expires := env.parse(v["created_at"].text).value, env.parse(v["expires_at"].text).value;
            && verdict.Bad? && verdict.tokenID == v["token_id"].text
            && (verdict.code == Malformed <==>
                  expires <= created && expires != 0 && (env.now != 0 ==> env.now < expires))
            && verdict.code in {Malformed, Expired}
  {
    hide *;
    FormedIsShape(env, v);
    SignedIsOk(env, v);
    StandsParts(env, v);
    FormedDated(env, v);
    Instants(env, v);
    ValidityParts(env, v, parent);
  }

  lemma FormedDated(env: Env, v: Object)
    requires Formed(env, v)
    ensures Dated(env, v)
  {
    hide Headed, Delegates, Approves, Scoped, Dated;
  }

  lemma Instants(env: Env, v: Object)
    requires Dated(env, v)
    ensures Instant(env, v, "created_at") == env.parse(v["created_at"].text).value
    ensures Instant(env, v, "expires_at") == env.parse(v["expires_at"].text).value
    ensures var created, expires := env.parse(v["created_at"].text).value, env.parse(v["expires_at"].text).value;
            InForce(env, v) <==> created < expires && expires != 0 && (env.now != 0 ==> created <= env.now < expires)
  {
  }

  lemma ValidityParts(env: Env, v: Object, parent: Option<Object>)
    requires ShapeOk(env, v) && RefersFully(v) && !Revoked(v) && SignatureOk(env, v) && !Lasts(env, v)
    ensures var verdict := VerifyArtifact(env, v, parent);
            var created, expires := Instant(env, v, "created_at"), Instant(env, v, "expires_at");
            && verdict.Bad? && verdict.tokenID == TextOr(v, "token_id") && verdict.code in {Malformed, Expired}
            && (verdict.code == Malformed <==>
                expires <= created && expires != 0 && (env.now != 0 ==> env.now < expires))
  {
    hide ShapeOk, GateSubset, Trim, BareDigest, ItemsAt, Instant;
  }

  // ----- The chain -----

  /** The token is the only one of its id, and verifies against the parent it names, or names none. */
  ghost predicate Belongs(env: Env, docs: seq<Doc>, i: int)
    requires 0 <= i < |docs| && docs[i].Token?
  {
    var v := docs[i].token;
    && Stands(env, v)
    && (forall j :: 0 <= j < |docs| && j != i && docs[j].Token? ==>
        TextOr(docs[j].token, "token_id") != v["token_id"].text)
    && (Refers(v) ==>
          exists p :: 0 <= p < |docs| && docs[p].Token? && Attenuates(env, docs[p].token, v)
                      && TextAt(docs[p].token, "token_id") == Some(v["parent_token_id"].text)
                      && forall j :: 0 <= j < p ==> !HasId(docs[j], v["parent_token_id"].text))
  }

  lemma {:induction false} CountIsOne(docs: seq<Doc>, id: string, i: nat)
    requires i < |docs| && docs[i].Token? && TextOr(docs[i].token, "token_id") == id
    ensures CountId(docs, id) <= 1 <==>
            forall j :: 0 <= j < |docs| && j != i && docs[j].Token? ==> TextOr(docs[j].token, "token_id") != id
  {
    CountAtLeast(docs, id, i);
    if forall j :: 0 <= j < |docs| && j != i && docs[j].Token? ==> TextOr(docs[j].token, "token_id") != id {
      CountAtMost(docs, id, i);
    }
  }

  lemma {:induction false} CountAtMost(docs: seq<Doc>, id: string, i: int)
    requires forall j :: 0 <= j < |docs| && j != i && docs[j].Token? ==> TextOr(docs[j].token, "token_id") != id
    ensures CountId(docs, id) <= if 0 <= i < |docs| then 1 else 0
  {
    if docs != [] {
      CountAtMost(docs[..|docs| - 1], id, i);
    }
  }

  lemma {:induction false} FirstIs(docs: seq<Doc>, id: string, p: nat)
    requires p < |docs| && HasId(docs[p], id) && forall j :: 0 <= j < p ==> !HasId(docs[j], id)
    ensures FirstWithId(docs, id) == Some(docs[p].token)
  {
    var n := |docs| - 1;
    if p < n {
      FirstIs(docs[..n], id, p);
    } else {
      forall j | 0 <= j < n ensures !HasId(docs[..n][j], id) {
        assert docs[..n][j] == docs[j];
      }
    }
  }

  lemma {:induction false} FirstAt(docs: seq<Doc>, id: string) returns (p: nat)
    requires FirstWithId(docs, id).Some?
    ensures p < |docs| && HasId(docs[p], id) && FirstWithId(docs, id) == Some(docs[p].token)
    ensures forall j :: 0 <= j < p ==> !HasId(docs[j], id)
  {
    var n := |docs| - 1;
    if FirstWithId(docs[..n], id).Some? {
      p := FirstAt(docs[..n], id);
    } else {
      p := n;
      forall j | 0 <= j < n ensures !HasId(docs[j], id) {
        assert !HasId(docs[..n][j], id);
      }
    }
  }

  lemma AdmittedParts(env: Env, docs: seq<Doc>, v: Object)
    ensures Admitted(env, docs, v) <==>
            && CountId(docs, TextOr(v, "token_id")) <= 1
            && (match TextAt(v, "parent_token_id")
                case None => VerifyArtifact(env, v, None).Good?
                case Some(pid) => FirstWithId(docs, pid).Some? && VerifyArtifact(env, v, FirstWithId(docs, pid)).Good?)
  {
    hide VerifyArtifact, CountId, FirstWithId;
  }

  lemma RefersByText(v: Object)
    requires RefersFully(v)
    ensures Refers(v) <==> TextAt(v, "parent_token_id").Some?
    ensures Refers(v) ==> TextAt(v, "parent_token_id") == Some(v["parent_token_id"].text)
  {
    hide Trim;
  }

  lemma StandsRefers(env: Env, v: Object)
    requires Stands(env, v)
    ensures RefersFully(v) && TextOr(v, "token_id") == v["token_id"].text
  {
    StandsParts(env, v);
    hide Formed, SignedToken, InForce;
  }

  lemma AdmittedBelongs(env: Env, docs: seq<Doc>, i: nat)
    requires i < |docs| && docs[i].Token?
    ensures Admitted(env, docs, docs[i].token) <==> Belongs(env, docs, i)
  {
    hide Admitted, VerifyArtifact, Attenuates, CountId, FirstWithId, Stands, Refers, RefersFully;
    var v := docs[i].token;
    AdmittedParts(env, docs, v);
    CountIsOne(docs, TextOr(v, "token_id"), i);
    VerifiesIff(env, v, None);
    if Stands(env, v) {
      StandsRefers(env, v);
      RefersByText(v);
      if Refers(v) {
        var pid := v["parent_token_id"].text;
        VerifiesIff(env, v, FirstWithId(docs, pid));
        if FirstWithId(docs, pid).Some? {
          var p := FirstAt(docs, pid);
        }
        forall p | 0 <= p < |docs| && HasId(docs[p], pid) && (forall j :: 0 <= j < p ==> !HasId(docs[j], pid))
          ensures FirstWithId(docs, pid) == Some(docs[p].token)
        {
          FirstIs(docs, pid, p);
        }
      }
    } else if TextAt(v, "parent_token_id").Some? {
      VerifiesIff(env, v, FirstWithId(docs, TextAt(v, "parent_token_id").value));
    }
  }

  /** Main result. A lineage is reported if and only if there are documents, all decode, and every token
      stands by itself, is the only one of its id, and attenuates the first token of the id it names. */
  lemma LineageIff(env: Env, docs: seq<Doc>)
    ensures Chain(env, docs).lineage <==>
            && docs != [] && (forall i :: 0 <= i < |docs| ==> !docs[i].Garbage?)
            && forall i :: 0 <= i < |docs| && docs[i].Token? ==> Belongs(env, docs, i)
  {
    hide Chain, Admitted, Belongs;
    LineageMeans(env, docs);
    forall i | 0 <= i < |docs| && docs[i].Token? ensures Admitted(env, docs, docs[i].token) <==> Belongs(env, docs, i) {
      AdmittedBelongs(env, docs, i);
    }
  }

  /** The token ids reported are those of the tokens that belong, lineage or not. */
  lemma TokensIff(env: Env, docs: seq<Doc>, id: string)
    ensures id in Chain(env, docs).tokens <==>
            exists i :: 0 <= i < |docs| && docs[i].Token? && Belongs(env, docs, i) &&
                TextAt(docs[i].token, "token_id") == Some(id)
  {
    hide Judge, Admitted, Belongs, GarbageGaps, TokenGaps;
    PassedAre(env, docs, docs, id);
    var sorted := Chain(env, docs).tokens;
    assert id in sorted <==> id in multiset(sorted);
    assert id in PassedIds(env, docs, docs) <==> id in multiset(PassedIds(env, docs, docs));
    hide PassedIds;
    forall i | 0 <= i < |docs| && docs[i].Token?
      ensures Judge(env, docs, docs[i]) == Passed(id) <==>
              Belongs(env, docs, i) && TextAt(docs[i].token, "token_id") == Some(id)
    {
      PassedBelongs(env, docs, i, id);
    }
    forall i | 0 <= i < |docs| && !docs[i].Token? ensures Judge(env, docs, docs[i]) == Skipped {
      JudgeSkips(env, docs, docs[i]);
    }
  }

  lemma {:induction false} PassedAre(env: Env, docs: seq<Doc>, part: seq<Doc>, id: string)
    ensures id in PassedIds(env, docs, part) <==> exists i :: 0 <= i < |part| && Judge(env, docs, part[i]) == Passed(id)
  {
    hide Judge;
    if part != [] {
      var init := part[..|part| - 1];
      PassedAre(env, docs, init, id);
      assert forall i :: 0 <= i < |init| ==> init[i] == part[i];
    }
  }

  lemma PassedBelongs(env: Env, docs: seq<Doc>, i: nat, id: string)
    requires i < |docs| && docs[i].Token?
    ensures Judge(env, docs, docs[i]) == Passed(id) <==>
            Belongs(env, docs, i) && TextAt(docs[i].token, "token_id") == Some(id)
  {
    hide Judge, Admitted, Attenuates, VerifyArtifact, Stands;
    AdmittedBelongs(env, docs, i);
    JudgePassed(env, docs, docs[i]);
    if Belongs(env, docs, i) { StandsId(env, docs[i].token); }
  }

  lemma JudgePassed(env: Env, docs: seq<Doc>, d: Doc)
    requires d.Token?
    ensures Judge(env, docs, d).Passed? <==> Admitted(env, docs, d.token)
    ensures Judge(env, docs, d).Passed? ==>
            Judge(env, docs, d).tokenID == TextOr(d.token, "token_id") && "token_id" in d.token &&
                d.token["token_id"].Str?
  {
    hide VerifyArtifact, CountId, FirstWithId, Stands;
    var parent := match TextAt(d.token, "parent_token_id") case None => None case Some(pid) => FirstWithId(docs, pid);
    VerifiesIff(env, d.token, parent);
    if Stands(env, d.token) { StandsId(env, d.token); }
  }

  lemma StandsId(env: Env, v: Object)
    requires Stands(env, v)
    ensures "token_id" in v && v["token_id"].Str? && TextOr(v, "token_id") == v["token_id"].text
  {
    StandsParts(env, v);
    hide Formed, SignedToken, InForce;
  }

  /** A lineage is reported exactly when there are documents and no gaps; both lists come sorted. */
  lemma LineageOrGaps(env: Env, docs: seq<Doc>)
    ensures var r := Chain(env, docs);
            && (r.lineage <==> docs != [] && r.gaps == [])
            && Ascending(Less, r.tokens) && Ascending(GapBefore, r.gaps)
  {
    hide Judge, PassedIds, GarbageGaps, TokenGaps, Less, GapBefore;
    NoGaps(env, docs, docs);
    var raw := GarbageGaps(docs) + TokenGaps(env, docs, docs);
    assert |SortBy(GapBefore, raw)| == |raw|;
    SortStringsAscending(PassedIds(env, docs, docs));
    GapsWeakOrder(raw);
    SortByAscending(GapBefore, raw);
  }

  lemma {:induction false} NoGaps(env: Env, docs: seq<Doc>, part: seq<Doc>)
    ensures GarbageGaps(part) == [] && TokenGaps(env, docs, part) == [] <==>
            forall i :: 0 <= i < |part| ==> !part[i].Garbage? && !Judge(env, docs, part[i]).Found?
  {
    hide Judge;
    if part != [] {
      var init := part[..|part| - 1];
      NoGaps(env, docs, init);
      assert forall i :: 0 <= i < |init| ==> init[i] == part[i];
    }
  }

  lemma GapsWeakOrder(gaps: seq<Gap>)
    ensures WeakOrderOn(GapBefore, gaps)
  {
    hide Less, CodeName;
    forall x, y | x in gaps && y in gaps && GapBefore(x, y) ensures !GapBefore(y, x) {
      if x.tokenID != y.tokenID { LessAsymmetric(x.tokenID, y.tokenID); }
      else { LessAsymmetric(CodeName(x.code), CodeName(y.code)); }
    }
    forall x, y, z | x in gaps && y in gaps && z in gaps && !GapBefore(y, x) && !GapBefore(z, y)
      ensures !GapBefore(z, x) {
      GapsChain(x, y, z);
    }
  }

  lemma GapsChain(x: Gap, y: Gap, z: Gap)
    requires !GapBefore(y, x) && !GapBefore(z, y)
    ensures !GapBefore(z, x)
  {
    hide Less, CodeName;
    if x.tokenID == y.tokenID == z.tokenID {
      LessNotTransitive(CodeName(x.code), CodeName(y.code), CodeName(z.code));
    } else {
      if y.tokenID == x.tokenID { LessIrreflexive(x.tokenID); }
      if y.tokenID == z.tokenID { LessIrreflexive(z.tokenID); }
      LessNotTransitive(x.tokenID, y.tokenID, z.tokenID);
      if x.tokenID == z.tokenID {
        LessTotal(x.tokenID, y.tokenID);
      }
    }
  }

  /** Where the codes of one token stand in the report. */
  function Place(c: Code): nat {
    match c
    case AuthorityExpanded => 0
    case ParentMismatch => 1
    case SignatureInvalid => 2
    case Duplicate => 3
    case Expired => 4
    case Malformed => 5
  }

  lemma CodesInOrder(c: Code, d: Code)
    ensures Less(CodeName(c), CodeName(d)) <==> Place(c) < Place(d)
  {
    if c == d {
      LessIrreflexive(CodeName(c));
    } else if Place(c) < Place(d) {
      CodesAscend(c, d);
    } else {
      CodesAscend(d, c);
      LessAsymmetric(CodeName(d), CodeName(c));
    }
  }

  lemma CodesAscend(c: Code, d: Code)
    requires Place(c) < Place(d)
    ensures Less(CodeName(c), CodeName(d))
  {
    if d == Malformed {
      LessAt(CodeName(c), CodeName(d), 1);
    } else if d == Expired && c == Duplicate {
      LessAt(CodeName(c), CodeName(d), 11);
    } else {
      LessAt(CodeName(c), CodeName(d), 5);
    }
  }

  lemma {:induction false} LessAt(a: string, b: string, n: nat)
    requires n < |a| && n < |b| && a[..n] == b[..n] && a[n] < b[n]
    ensures Less(a, b)
  {
    if n > 0 {
      assert a[0] == a[..n][0] == b[0];
      assert a[1..][..n - 1] == a[..n][1..] && b[1..][..n - 1] == b[..n][1..];
      LessAt(a[1..], b[1..], n - 1);
    }
  }
}
