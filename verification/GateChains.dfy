/** Attenuation over whole delegation chains: the per-hop checks of the gate verifier, lifted to
    paths of any length. */
module GateChains {
  import opened Prelude
  import opened Text
  import opened Json
  import opened Gate

  // ----- What a reported lineage means for each document -----

  /** Lineage is reported exactly when there are documents, all decode, and every token is unique,
      has its named parent, and verifies against it. */
  lemma LineageMeans(env: Env, docs: seq<Doc>)
    ensures Chain(env, docs).lineage <==>
            && docs != []
            && forall i :: 0 <= i < |docs| ==>
               docs[i].NullDoc? || (docs[i].Token? && Admitted(env, docs, docs[i].token))
  {
    hide Judge, Admitted, PassedIds, GarbageGaps, TokenGaps;
    forall i | 0 <= i < |docs| && docs[i].Token?
      ensures Judge(env, docs, docs[i]).Found? <==> !Admitted(env, docs, docs[i].token)
    {
      JudgeAdmits(env, docs, docs[i]);
    }
    forall i | 0 <= i < |docs| && !docs[i].Token? ensures !Judge(env, docs, docs[i]).Found? {
      JudgeSkips(env, docs, docs[i]);
    }
  }

  lemma JudgeAdmits(env: Env, docs: seq<Doc>, d: Doc)
    requires d.Token?
    ensures Judge(env, docs, d).Found? <==> !Admitted(env, docs, d.token)
  {
    hide VerifyArtifact, CountId, FirstWithId;
  }

  lemma JudgeSkips(env: Env, docs: seq<Doc>, d: Doc)
    requires !d.Token?
    ensures Judge(env, docs, d) == Skipped
  {
    hide VerifyArtifact, CountId, FirstWithId;
  }

  ghost predicate Admitted(env: Env, docs: seq<Doc>, v: Object) {
    var parent := match TextAt(v, "parent_token_id") case None => None case Some(pid) => FirstWithId(docs, pid);
    && CountId(docs, TextOr(v, "token_id")) <= 1
    && (TextAt(v, "parent_token_id").Some? ==> parent.Some?)
    && VerifyArtifact(env, v, parent).Good?
  }

  /** A document that is the JSON `null` is passed over in silence: a chain of nothing else is
      reported as a lineage without tokens or gaps. */
  lemma NullChain(env: Env, docs: seq<Doc>)
    requires docs != [] && forall i :: 0 <= i < |docs| ==> docs[i].NullDoc?
    ensures Chain(env, docs) == ChainResult(true, [], [])
  {
    NullCollectsNothing(env, docs, docs);
  }

  lemma {:induction false} NullCollectsNothing(env: Env, docs: seq<Doc>, part: seq<Doc>)
    requires forall i :: 0 <= i < |part| ==> part[i].NullDoc?
    ensures PassedIds(env, docs, part) == [] && GarbageGaps(part) == [] && TokenGaps(env, docs, part) == []
  {
    if part != [] {
      NullCollectsNothing(env, docs, part[..|part| - 1]);
    }
  }

  /** That is the only way: a reported lineage is without tokens exactly when every document is `null`. */
  lemma EmptyLineage(env: Env, docs: seq<Doc>)
    requires Chain(env, docs).lineage
    ensures Chain(env, docs).tokens == [] <==> forall i :: 0 <= i < |docs| ==> docs[i].NullDoc?
  {
    hide Judge, GarbageGaps, TokenGaps;
    forall i | 0 <= i < |docs| ensures Judge(env, docs, docs[i]).Passed? <==> !docs[i].NullDoc? {
      JudgeKinds(env, docs, docs[i]);
    }
    NonePassed(env, docs, docs);
    assert |Chain(env, docs).tokens| == |PassedIds(env, docs, docs)|;
  }

  lemma JudgeKinds(env: Env, docs: seq<Doc>, d: Doc)
    ensures Judge(env, docs, d).Skipped? <==> !d.Token?
  {
    hide VerifyArtifact, CountId, FirstWithId;
  }

  lemma {:induction false} NonePassed(env: Env, docs: seq<Doc>, part: seq<Doc>)
    ensures PassedIds(env, docs, part) == [] <==> forall i :: 0 <= i < |part| ==> !Judge(env, docs, part[i]).Passed?
  {
    hide Judge;
    if part != [] {
      var init := part[..|part| - 1];
      NonePassed(env, docs, init);
      assert forall i :: 0 <= i < |init| ==> init[i] == part[i];
    }
  }

  // ----- One hop -----

  /** `child` names `parent` as its parent. */
  ghost predicate ParentLink(parent: Object, child: Object) {
    TextAt(child, "parent_token_id").Some? && TextAt(parent, "token_id") == TextAt(child, "parent_token_id")
  }

  lemma {:induction false} CountAtLeast(docs: seq<Doc>, id: string, i: nat)
    requires i < |docs| && docs[i].Token? && TextOr(docs[i].token, "token_id") == id
    ensures CountId(docs, id) >= 1
    ensures forall j :: 0 <= j < |docs| && j != i && docs[j].Token? && TextOr(docs[j].token, "token_id") == id ==>
            CountId(docs, id) >= 2
  {
    var n := |docs| - 1;
    if i < n {
      CountAtLeast(docs[..n], id, i);
      assert forall j :: 0 <= j < n ==> docs[..n][j] == docs[j];
    } else {
      forall j | 0 <= j < n && docs[j].Token? && TextOr(docs[j].token, "token_id") == id
        ensures CountId(docs, id) >= 2
      {
        CountAtLeast(docs[..n], id, j);
      }
    }
  }

  /** In a reported lineage the parent a token is checked against is the one it names. */
  lemma HopChecked(env: Env, docs: seq<Doc>, p: nat, c: nat)
    requires Chain(env, docs).lineage && p < |docs| && c < |docs|
    requires docs[p].Token? && docs[c].Token? && ParentLink(docs[p].token, docs[c].token)
    ensures GateSubset(env, docs[p].token, docs[c].token - {"signature"}) == None
  {
    hide Chain, GateSubset, Admitted;
    LineageMeans(env, docs);
    var parent, child := docs[p].token, docs[c].token;
    AdmittedOnce(env, docs, parent);
    NamedParent(docs, p, TextAt(parent, "token_id").value);
    AdmittedAgainst(env, docs, child);
  }

  lemma AdmittedOnce(env: Env, docs: seq<Doc>, v: Object)
    requires Admitted(env, docs, v)
    ensures CountId(docs, TextOr(v, "token_id")) <= 1
  {
    hide VerifyArtifact, CountId, FirstWithId;
  }

  /** A token whose id occurs once is what a lookup of that id finds. */
  lemma NamedParent(docs: seq<Doc>, p: nat, id: string)
    requires p < |docs| && HasId(docs[p], id) && CountId(docs, id) <= 1
    ensures FirstWithId(docs, id) == Some(docs[p].token)
  {
    var found := FirstWithId(docs, id);
    assert found.Some?;
    var i :| 0 <= i < |docs| && HasId(docs[i], id) && docs[i].token == found.value;
    hide CountId, FirstWithId;
    CountAtLeast(docs, id, p);
  }

  lemma AdmittedAgainst(env: Env, docs: seq<Doc>, v: Object)
    requires Admitted(env, docs, v) && TextAt(v, "parent_token_id").Some?
    requires FirstWithId(docs, TextAt(v, "parent_token_id").value).Some?
    ensures GateSubset(env, FirstWithId(docs, TextAt(v, "parent_token_id").value).value, v - {"signature"}) == None
  {
    hide ShapeOk, SignatureOk, GateSubset, CountId, FirstWithId, Blank;
  }

  /** What one accepted hop guarantees. */
  ghost predicate Narrows(env: Env, s: Object, e: Object) {
    && (forall k :: k in SCOPES ==> StringsAt(e, k) <= StringsAt(s, k))
    && (forall k :: k in DIGESTS && k in s ==> NonBlank(s, k) && TextAt(e, k) == TextAt(s, k))
    && (forall k :: k in LIMITS && k in s ==>
          NumberAt(s, k).Some? && NumberAt(e, k).Some? && 0.0 <= e[k].number <= s[k].number)
    && (TextAt(s, "expires_at").Some? && TextAt(e, "expires_at").Some? ==>
          Instant(env, e, "expires_at") <= Instant(env, s, "expires_at"))
  }

  lemma WithoutSignature(v: Object, key: string)
    requires key != "signature"
    ensures var w := v - {"signature"};
            && (key in w <==> key in v) && (key in v ==> w[key] == v[key])
            && TextAt(w, key) == TextAt(v, key) && NumberAt(w, key) == NumberAt(v, key)
            && StringsAt(w, key) == StringsAt(v, key)
  {
    assert ItemsAt(v - {"signature"}, key) == ItemsAt(v, key);
  }

  lemma HopNarrows(env: Env, parent: Object, child: Object)
    requires GateSubset(env, parent, child - {"signature"}) == None
    ensures Narrows(env, parent, child)
    ensures DepthOk(parent, child)
  {
    var w := child - {"signature"};
    WithoutSignature(child, BUDGET);
    WithoutSignature(child, "depth");
    WithoutSignature(child, "expires_at");
    assert ExpiryOk(env, parent, w) && DepthOk(parent, w);
    hide IdRuleOk, HandoverOk, DepthOk;
    forall k | k in SCOPES ensures StringsAt(child, k) <= StringsAt(parent, k) {
      WithoutSignature(child, k);
    }
    forall k | k in DIGESTS && k in parent ensures NonBlank(parent, k) && TextAt(child, k) == TextAt(parent, k) {
      assert DigestCarried(parent, w, k);
      WithoutSignature(child, k);
    }
    forall k | k in LIMITS && k in parent
      ensures NumberAt(parent, k).Some? && NumberAt(child, k).Some? && 0.0 <= child[k].number <= parent[k].number
    {
      assert LimitOk(parent, w, k);
      WithoutSignature(child, k);
    }
  }

  // ----- Paths -----

  /** A path of positions, each token naming the one before it as its parent. */
  ghost predicate Path(docs: seq<Doc>, path: seq<nat>) {
    && path != []
    && (forall i :: 0 <= i < |path| ==> path[i] < |docs| && docs[path[i]].Token?)
    && (forall i :: 0 < i < |path| ==> ParentLink(docs[path[i - 1]].token, docs[path[i]].token))
  }

  ghost function Start(docs: seq<Doc>, path: seq<nat>): Object
    requires Path(docs, path)
  {
    docs[path[0]].token
  }

  ghost function End(docs: seq<Doc>, path: seq<nat>): Object
    requires Path(docs, path)
  {
    docs[path[|path| - 1]].token
  }

  lemma PathHop(env: Env, docs: seq<Doc>, path: seq<nat>)
    requires Chain(env, docs).lineage && Path(docs, path) && |path| > 1
    ensures Path(docs, path[..|path| - 1]) && Start(docs, path[..|path| - 1]) == Start(docs, path)
    ensures Narrows(env, End(docs, path[..|path| - 1]), End(docs, path))
    ensures DepthOk(End(docs, path[..|path| - 1]), End(docs, path))
    ensures TextAt(End(docs, path), "expires_at").Some?
  {
    hide Chain, GateSubset, DepthOk, Narrows, Admitted, ParentLink;
    var n := |path| - 1;
    var init := path[..n];
    assert forall i :: 0 <= i < n ==> init[i] == path[i];
    assert ParentLink(docs[path[n - 1]].token, docs[path[n]].token);
    HopChecked(env, docs, path[n - 1], path[n]);
    LineageMeans(env, docs);
    TokenHasExpiry(env, docs, docs[path[n]].token);
    HopNarrows(env, docs[path[n - 1]].token, docs[path[n]].token);
  }

  lemma TokenHasExpiry(env: Env, docs: seq<Doc>, v: Object)
    requires Admitted(env, docs, v)
    ensures TextAt(v, "expires_at").Some?
  {
    hide SignatureOk, GateSubset, Blank, CountId, FirstWithId;
  }

  /** Main result. Along any parent path of a reported lineage every scope list shrinks, limits
      and expiry never grow, and the governing digests are carried unchanged. */
  lemma {:induction false} PathNarrows(env: Env, docs: seq<Doc>, path: seq<nat>)
    requires Chain(env, docs).lineage && Path(docs, path) && |path| > 1
    ensures Narrows(env, Start(docs, path), End(docs, path))
  {
    PathHop(env, docs, path);
    if |path| > 2 {
      var init := path[..|path| - 1];
      PathNarrows(env, docs, init);
      PathHop(env, docs, init);
      hide Chain;
      NarrowsTransitive(env, Start(docs, path), End(docs, init), End(docs, path));
    }
  }

  lemma NarrowsTransitive(env: Env, a: Object, b: Object, c: Object)
    requires Narrows(env, a, b) && Narrows(env, b, c) && TextAt(b, "expires_at").Some?
    ensures Narrows(env, a, c)
  {
    hide Blank;
    forall k | k in DIGESTS && k in a ensures NonBlank(a, k) && TextAt(c, k) == TextAt(a, k) {
      assert k in b;
    }
    forall k | k in LIMITS && k in a
      ensures NumberAt(a, k).Some? && NumberAt(c, k).Some? && 0.0 <= c[k].number <= a[k].number
    {
      assert k in b;
    }
  }

  // ----- The hop budget -----

  /** The budget of a token that has one. */
  ghost function Budget(o: Object): real
    requires NumberAt(o, BUDGET).Some?
  {
    o[BUDGET].number
  }

  ghost predicate Integral(x: real) {
    x == x.Floor as real
  }

  /** Every token on the path states a whole number of remaining hops. */
  ghost predicate IntegralBudgets(docs: seq<Doc>, path: seq<nat>)
    requires Path(docs, path)
  {
    forall i :: 0 <= i < |path| ==> NumberAt(docs[path[i]].token, BUDGET).Some? ==>
        Integral(Budget(docs[path[i]].token))
  }

  /** Main result. If the path starts at a token with budget m, every token on it has a budget, the
      depth rises by exactly the number of hops k, and with whole budgets k <= m and the remaining
      budget is at most m - k. */
  lemma {:induction false} HopBudget(env: Env, docs: seq<Doc>, path: seq<nat>)
    requires Chain(env, docs).lineage && Path(docs, path)
    requires NumberAt(Start(docs, path), BUDGET).Some?
    ensures NumberAt(End(docs, path), BUDGET).Some?
    ensures var k := |path| - 1;
            && Depth(End(docs, path)) == Depth(Start(docs, path)) + k as real
            && (k > 0 ==> 1.0 <= Budget(Start(docs, path)) && 0.0 <= Budget(End(docs, path)))
            && (IntegralBudgets(docs, path) ==>
                  && Budget(End(docs, path)) <= Budget(Start(docs, path)) - k as real
                  && (k > 0 ==> k as real <= Budget(Start(docs, path))))
  {
    if |path| > 1 {
      hide Chain, Narrows;
      var init := path[..|path| - 1];
      PathHop(env, docs, path);
      HopBudget(env, docs, init);
      PathBudgets(docs, path, init);
      BudgetStep(env, End(docs, init), End(docs, path));
    }
  }

  lemma PathBudgets(docs: seq<Doc>, path: seq<nat>, init: seq<nat>)
    requires Path(docs, path) && |path| > 1 && init == path[..|path| - 1] && Path(docs, init)
    ensures IntegralBudgets(docs, path) ==> IntegralBudgets(docs, init)
    ensures IntegralBudgets(docs, path) && NumberAt(End(docs, path), BUDGET).Some? ==> Integral(Budget(End(docs, path)))
    ensures IntegralBudgets(docs, path) && NumberAt(End(docs, init), BUDGET).Some? ==> Integral(Budget(End(docs, init)))
  {
    hide Integral;
    assert forall i :: 0 <= i < |init| ==> init[i] == path[i];
  }

  lemma BudgetStep(env: Env, before: Object, after: Object)
    requires NumberAt(before, BUDGET).Some? && DepthOk(before, after) && Narrows(env, before, after)
    ensures NumberAt(after, BUDGET).Some? && Depth(after) == Depth(before) + 1.0
    ensures 1.0 <= Budget(before) && 0.0 <= Budget(after)
    ensures Integral(Budget(before)) && Integral(Budget(after)) ==> Budget(after) <= Budget(before) - 1.0
  {
    assert BUDGET in LIMITS && BUDGET in before;
    if Integral(Budget(before)) && Integral(Budget(after)) {
      WholeStep(Budget(after), Budget(before));
    }
  }

  lemma WholeStep(x: real, y: real)
    requires Integral(x) && Integral(y) && x < y
    ensures x <= y - 1.0
  {
    assert x.Floor < y.Floor;
  }

  /** A budget of at most one bounds the hops by itself, whole or not. */
  lemma SmallBudgetStops(env: Env, docs: seq<Doc>, path: seq<nat>)
    requires Chain(env, docs).lineage && Path(docs, path)
    requires NumberAt(Start(docs, path), BUDGET).Some? && Budget(Start(docs, path)) <= 1.0
    ensures |path| <= 2
  {
    if |path| > 2 {
      hide Chain, Narrows, DepthOk, ParentLink;
      Tails(docs, path);
      var first, rest := path[..2], path[1..];
      PathHop(env, docs, first);
      BudgetStep(env, Start(docs, path), Start(docs, rest));
      HopBudget(env, docs, rest);
      BudgetFalls(Start(docs, path), Start(docs, rest));
    }
  }

  lemma BudgetFalls(before: Object, after: Object)
    requires NumberAt(before, BUDGET).Some? && DepthOk(before, after)
    ensures NumberAt(after, BUDGET).Some? && Budget(after) < Budget(before)
  {
  }

  lemma Tails(docs: seq<Doc>, path: seq<nat>)
    requires Path(docs, path) && |path| > 2
    ensures Path(docs, path[..2]) && Path(docs, path[1..]) && Path(docs, path[..2][..1])
    ensures End(docs, path[..2]) == Start(docs, path[1..]) && Start(docs, path[..2]) == Start(docs, path)
    ensures End(docs, path[..2][..1]) == Start(docs, path)
  {
    hide ParentLink;
    assert forall i :: 0 <= i < |path| - 1 ==> path[1..][i] == path[i + 1];
  }
}
