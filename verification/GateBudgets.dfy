/** Which budgets a chain of delegations may carry: exactly the falling lists in which every parent
    has at least one hop left. How long a chain can get therefore depends on how finely budgets are
    divided, and only whole budgets bound it by the first one. */
module GateBudgets {
  import opened Prelude
  import opened Text
  import opened Json
  import opened Gate
  import opened GateChains

  // ----- Lists of budgets -----

  /** One hop: the budget falls, the parent has at least one hop left, the child's is not negative. */
  ghost predicate Drops(b: seq<real>, i: nat)
    requires i + 1 < |b|
  {
    b[i] >= 1.0 && 0.0 <= b[i + 1] < b[i]
  }

  ghost predicate Falling(b: seq<real>) {
    forall i: nat :: i + 1 < |b| ==> Drops(b, i)
  }

  function Units(n: int, u: real): real {
    n as real * u
  }

  /** `x` is a whole number of units. */
  ghost predicate InUnits(x: real, u: real) {
    exists n :: x == Units(n, u)
  }

  lemma UnitStep(x: real, y: real, u: real)
    requires u > 0.0 && InUnits(x, u) && InUnits(y, u) && x < y
    ensures x <= y - u
  {
    var n :| x == Units(n, u);
    var m :| y == Units(m, u);
    if n >= m {
      Scale(n as real, m as real, u);
      assert false;
    }
    Scale((m - 1) as real, n as real, u);
    assert (m - 1) as real * u == m as real * u - u;
  }

  lemma Scale(x: real, y: real, u: real)
    requires x >= y && u > 0.0
    ensures x * u >= y * u
  {
  }

  /** Main result. If budgets of at least one come in units of u, then k hops from budget m need
      (k - 1) * u <= m - 1. Whole budgets are the case u = 1; float64 numbers of at least one come in
      units of 2^-52. */
  lemma {:induction false} UnitBound(b: seq<real>, u: real)
    requires |b| > 1 && Falling(b) && u > 0.0
    requires forall i :: 0 <= i < |b| && b[i] >= 1.0 ==> InUnits(b[i], u)
    ensures (|b| - 2) as real * u <= b[0] - 1.0
  {
    UnitFall(b, u, |b| - 2);
    assert Drops(b, |b| - 2);
  }

  lemma {:induction false} UnitFall(b: seq<real>, u: real, i: nat)
    requires i < |b| - 1 && Falling(b) && u > 0.0
    requires forall j :: 0 <= j < |b| && b[j] >= 1.0 ==> InUnits(b[j], u)
    ensures b[i] <= b[0] - i as real * u
  {
    if i > 0 {
      UnitFall(b, u, i - 1);
      assert Drops(b, i - 1) && Drops(b, i);
      UnitStep(b[i], b[i - 1], u);
      assert i as real * u == (i - 1) as real * u + u;
    }
  }

  /** The bound is met by counting down to one in steps of u and then to zero. */
  function Countdown(n: nat, u: real): seq<real> {
    seq(n + 2, i requires 0 <= i < n + 2 => if i <= n then 1.0 + (n - i) as real * u else 0.0)
  }

  lemma CountdownFalls(n: nat, u: real)
    requires u > 0.0
    ensures Falling(Countdown(n, u)) && (|Countdown(n, u)| - 2) as real * u == Countdown(n, u)[0] - 1.0
  {
    var b := Countdown(n, u);
    forall i: nat | i + 1 < |b| ensures Drops(b, i) {
      Scale((n - i) as real, 0.0, u);
      if i < n {
        Scale((n - i - 1) as real, 0.0, u);
        assert (n - i) as real * u == (n - i - 1) as real * u + u;
      }
    }
  }

  // ----- What a lineage demands of budgets -----

  /** Every token on the path has a budget. */
  ghost predicate AllBudgeted(docs: seq<Doc>, path: seq<nat>)
    requires Path(docs, path)
  {
    forall i :: 0 <= i < |path| ==> NumberAt(docs[path[i]].token, BUDGET).Some?
  }

  /** The budgets along a path. */
  ghost function BudgetsOn(docs: seq<Doc>, path: seq<nat>): (b: seq<real>)
    requires Path(docs, path) && AllBudgeted(docs, path)
    ensures |b| == |path|
  {
    seq(|path|, i requires 0 <= i < |path| => Budget(docs[path[i]].token))
  }

  /** Along a path of a lineage that starts at a budget, all have one, and the budgets fall. */
  lemma {:induction false} LineageBudgetsFall(env: Env, docs: seq<Doc>, path: seq<nat>)
    requires Chain(env, docs).lineage && Path(docs, path) && NumberAt(Start(docs, path), BUDGET).Some?
    ensures AllBudgeted(docs, path) && Falling(BudgetsOn(docs, path))
  {
    hide Chain, Narrows, DepthOk, Falling, AllBudgeted, ParentLink, BudgetsOn, NumberAt;
    if |path| > 1 {
      var init := path[..|path| - 1];
      PathHop(env, docs, path);
      LineageBudgetsFall(env, docs, init);
      EndBudgeted(docs, init);
      BudgetStep(env, End(docs, init), End(docs, path));
      BudgetFalls(End(docs, init), End(docs, path));
      AddBudget(docs, path, init);
    } else {
      OneBudget(docs, path);
    }
  }

  lemma OneBudget(docs: seq<Doc>, path: seq<nat>)
    requires Path(docs, path) && |path| <= 1 && NumberAt(Start(docs, path), BUDGET).Some?
    ensures AllBudgeted(docs, path) && Falling(BudgetsOn(docs, path))
  {
  }

  lemma EndBudgeted(docs: seq<Doc>, path: seq<nat>)
    requires Path(docs, path) && AllBudgeted(docs, path)
    ensures NumberAt(End(docs, path), BUDGET).Some?
  {
    hide ParentLink;
  }

  lemma AddBudget(docs: seq<Doc>, path: seq<nat>, init: seq<nat>)
    requires Path(docs, path) && |path| > 1 && init == path[..|path| - 1] && Path(docs, init)
    requires AllBudgeted(docs, init) && Falling(BudgetsOn(docs, init))
    requires NumberAt(End(docs, path), BUDGET).Some? && NumberAt(End(docs, init), BUDGET).Some?
    requires Budget(End(docs, init)) >= 1.0 && 0.0 <= Budget(End(docs, path)) < Budget(End(docs, init))
    ensures AllBudgeted(docs, path) && Falling(BudgetsOn(docs, path))
  {
    hide ParentLink;
    assert forall i :: 0 <= i < |init| ==> init[i] == path[i];
    var before, after := BudgetsOn(docs, init), BudgetsOn(docs, path);
    forall i: nat | i + 1 < |after| ensures Drops(after, i) {
      assert after[i] == before[i];
      if i + 1 < |before| {
        assert Drops(before, i) && after[i + 1] == before[i + 1];
      }
    }
  }

  /** Every budget of at least one on the path is a whole number of units. */
  ghost predicate UnitsOn(docs: seq<Doc>, path: seq<nat>, u: real)
    requires Path(docs, path)
  {
    forall i :: 0 <= i < |path| ==>
      var v := docs[path[i]].token;
      NumberAt(v, BUDGET).Some? && Budget(v) >= 1.0 ==> InUnits(Budget(v), u)
  }

  /** Main result. In a lineage whose budgets of at least one come in units of u, a path of k hops
      from budget m has (k - 1) * u <= m - 1. */
  lemma LineageUnitBound(env: Env, docs: seq<Doc>, path: seq<nat>, u: real)
    requires Chain(env, docs).lineage && Path(docs, path) && |path| > 1 && u > 0.0
    requires NumberAt(Start(docs, path), BUDGET).Some?
    requires UnitsOn(docs, path, u)
    ensures (|path| - 2) as real * u <= Budget(Start(docs, path)) - 1.0
  {
    hide Chain, InUnits, Falling, ParentLink;
    LineageBudgetsFall(env, docs, path);
    UnitBound(BudgetsOn(docs, path), u);
  }

  // ----- Every falling list is carried by some lineage -----

  const SCHEMA := "gait.gate.delegation_token"

  /** A well-formed, properly signed delegation, valid now. */
  ghost predicate Sound(env: Env, v: Object) {
    && ShapeOk(env, v) && SignatureOk(env, v) && v["schema_id"] == Str(SCHEMA) && "revoked" !in v
    && var created, expires := Instant(env, v, "created_at"), Instant(env, v, "expires_at");
       created < expires && expires != 0 && (env.now == 0 || created <= env.now < expires)
  }

  /** A delegation that names `root` as its parent and restates its scope and expiry. */
  ghost predicate Restates(root: Object, v: Object) {
    && (forall k :: k in SCOPES ==> StringsAt(v, k) == StringsAt(root, k))
    && TextAt(v, "expires_at") == TextAt(root, "expires_at")
    && TextAt(v, "delegator_identity") == TextAt(root, "delegate_identity")
    && TextAt(v, "parent_token_id") == TextAt(root, "token_id")
    && TextAt(v, "parent_token_digest").Some? && NamesSignature(root, TextOr(v, "parent_token_digest"))
  }

  /** A root delegation. */
  ghost predicate Original(v: Object) {
    "parent_token_id" !in v && "parent_token_digest" !in v
  }

  /** The only limit is the budget, and no digest is bound. */
  ghost predicate Budgeted(b: real, v: Object, i: nat) {
    && (forall k :: k in DIGESTS ==> k !in v) && (forall k :: k in LIMITS && k != BUDGET ==> k !in v)
    && NumberAt(v, BUDGET) == Some(b) && NumberAt(v, "depth") == Some(i as real)
  }

  /** The token at one place of a row. */
  ghost predicate Link(env: Env, b: seq<real>, row: seq<Object>, i: nat)
    requires i < |row| == |b|
  {
    && Sound(env, row[i]) && Budgeted(b[i], row[i], i)
    && (if i == 0 then Original(row[i]) else Restates(row[i - 1], row[i]))
  }

  /** A row of delegations under distinct ids, each from the one before it. */
  ghost predicate Delegations(env: Env, b: seq<real>, row: seq<Object>) {
    && |row| == |b| > 0 && (forall i: nat :: i < |row| ==> Link(env, b, row, i))
    && forall i, j :: 0 <= i < j < |row| ==> TextOr(row[i], "token_id") != TextOr(row[j], "token_id")
  }

  lemma StartsSolid(s: string)
    requires s != "" && !IsSpace(s[0])
    ensures !Blank(s)
  {
    assert TrimLeft(s) == s;
    KeepsHead(s);
  }

  lemma {:induction false} KeepsHead(s: string)
    requires s != "" && !IsSpace(s[0])
    ensures TrimRight(s) != ""
  {
    if IsSpace(s[|s| - 1]) {
      KeepsHead(s[..|s| - 1]);
    }
  }

  // ----- One hop -----

  lemma HopPasses(env: Env, x: real, y: real, root: Object, v: Object, i: nat)
    requires i > 0 && x >= 1.0 && 0.0 <= y < x && Sound(env, root) && Sound(env, v)
    requires Budgeted(x, root, i - 1) && Budgeted(y, v, i) && Restates(root, v)
    ensures GateSubset(env, root, v - {"signature"}) == None
  {
    HopIdentity(env, root, v);
    HopLimits(x, y, root, v, i);
    HopScopes(root, v);
    hide *;
    SubsetOf(env, root, v - {"signature"});
  }

  lemma SubsetOf(env: Env, root: Object, child: Object)
    requires IdRuleOk(root, child) && HandoverOk(root, child) && ExpiryOk(env, root, child) && DepthOk(root, child)
    requires forall k :: k in DIGESTS ==> DigestCarried(root, child, k)
    requires forall k :: k in SCOPES ==> StringsAt(child, k) <= StringsAt(root, k)
    requires forall k :: k in LIMITS ==> LimitOk(root, child, k)
    ensures GateSubset(env, root, child) == None
  {
    hide IdRuleOk, HandoverOk, ExpiryOk, DepthOk, DigestCarried, StringsAt, LimitOk;
  }

  lemma HopScopes(root: Object, v: Object)
    requires Restates(root, v)
    ensures forall k :: k in SCOPES ==> StringsAt(v - {"signature"}, k) <= StringsAt(root, k)
  {
    forall k | k in SCOPES ensures StringsAt(v - {"signature"}, k) <= StringsAt(root, k) {
      WithoutSignature(v, k);
    }
  }

  lemma HopIdentity(env: Env, root: Object, v: Object)
    requires Sound(env, root) && Sound(env, v) && Restates(root, v)
    ensures var child := v - {"signature"};
            IdRuleOk(root, child) && HandoverOk(root, child) && ExpiryOk(env, root, child)
  {
    hide Blank, SignatureOk, StringsAt;
  }

  lemma HopLimits(x: real, y: real, root: Object, v: Object, i: nat)
    requires i > 0 && x >= 1.0 && 0.0 <= y < x && Budgeted(x, root, i - 1) && Budgeted(y, v, i)
    ensures var child := v - {"signature"};
            && DepthOk(root, child) && (forall k :: k in LIMITS ==> LimitOk(root, child, k))
            && (forall k :: k in DIGESTS ==> DigestCarried(root, child, k))
  {
    forall k | k in LIMITS ensures LimitOk(root, v - {"signature"}, k) {
      assert k in root ==> k == BUDGET;
    }
  }

  // ----- The row -----

  lemma RootVerifies(env: Env, v: Object)
    requires Sound(env, v) && Original(v)
    ensures VerifyArtifact(env, v, None).Good?
  {
    hide ShapeOk, Blank;
  }

  lemma ChildVerifies(env: Env, root: Object, v: Object)
    requires Sound(env, root) && Sound(env, v) && Restates(root, v) && GateSubset(env, root, v - {"signature"}) == None
    ensures VerifyArtifact(env, v, Some(root)).Good?
  {
    NamesParent(env, root, v);
    hide ShapeOk, GateSubset, Blank, StringsAt;
  }

  lemma NamesParent(env: Env, root: Object, v: Object)
    requires Sound(env, root) && Restates(root, v)
    ensures NonBlank(v, "parent_token_id") && NonBlank(v, "parent_token_digest")
  {
    StartsSolid(TextOr(v, "parent_token_digest"));
    hide Blank, SignatureOk, StringsAt;
  }

  /** The documents of a row. */
  ghost predicate Documents(row: seq<Object>, docs: seq<Doc>) {
    |docs| == |row| && forall i :: 0 <= i < |docs| ==> docs[i] == Token(row[i])
  }

  /** No two of the delegations share an id. */
  lemma {:induction false} UniqueId(row: seq<Object>, docs: seq<Doc>, i: nat)
    requires Documents(row, docs) && i < |row|
    requires forall j :: 0 <= j < |row| && j != i ==> TextOr(row[j], "token_id") != TextOr(row[i], "token_id")
    ensures CountId(docs, TextOr(row[i], "token_id")) == 1
  {
    var n := |row| - 1;
    if i < n {
      UniqueId(row[..n], docs[..n], i);
    } else {
      NoId(docs[..n], TextOr(row[i], "token_id"));
    }
  }

  lemma {:induction false} NoId(docs: seq<Doc>, id: string)
    requires forall i :: 0 <= i < |docs| && docs[i].Token? ==> TextOr(docs[i].token, "token_id") != id
    ensures CountId(docs, id) == 0
  {
    if docs != [] {
      NoId(docs[..|docs| - 1], id);
    }
  }

  lemma HasTokenId(env: Env, v: Object)
    requires Sound(env, v)
    ensures TextAt(v, "token_id") == Some(TextOr(v, "token_id"))
  {
    hide Blank, SignatureOk;
  }

  /** Each place of a row, with the facts of its token and of the one before it. */
  lemma LinkAt(env: Env, b: seq<real>, row: seq<Object>, i: nat)
    requires i < |row| && Delegations(env, b, row)
    ensures Sound(env, row[i]) && |b| == |row| && Budgeted(b[i], row[i], i)
    ensures if i == 0 then Original(row[i]) else Restates(row[i - 1], row[i])
    ensures forall j :: 0 <= j < |row| && j != i ==> TextOr(row[j], "token_id") != TextOr(row[i], "token_id")
  {
    hide Sound, Budgeted, Original, Restates, TextOr;
    assert Link(env, b, row, i);
  }

  lemma Names(env: Env, root: Object, v: Object)
    requires Sound(env, root) && Restates(root, v)
    ensures TextAt(v, "parent_token_id") == TextAt(root, "token_id") == Some(TextOr(root, "token_id"))
    ensures ParentLink(root, v)
  {
    hide Blank, SignatureOk, StringsAt, NamesSignature;
  }

  lemma AdmittedChild(env: Env, docs: seq<Doc>, root: Object, v: Object)
    requires TextAt(v, "parent_token_id") == Some(TextOr(root, "token_id"))
    requires FirstWithId(docs, TextOr(root, "token_id")) == Some(root)
    requires CountId(docs, TextOr(v, "token_id")) == 1 && VerifyArtifact(env, v, Some(root)).Good?
    ensures Admitted(env, docs, v)
  {
    hide VerifyArtifact, CountId, FirstWithId;
  }

  lemma AdmittedRoot(env: Env, docs: seq<Doc>, v: Object)
    requires Original(v) && CountId(docs, TextOr(v, "token_id")) == 1 && VerifyArtifact(env, v, None).Good?
    ensures Admitted(env, docs, v)
  {
    hide VerifyArtifact, CountId, FirstWithId;
  }

  lemma FoundById(env: Env, row: seq<Object>, docs: seq<Doc>, i: nat)
    requires Documents(row, docs) && i < |row| && Sound(env, row[i])
    requires forall j :: 0 <= j < |row| && j != i ==> TextOr(row[j], "token_id") != TextOr(row[i], "token_id")
    ensures FirstWithId(docs, TextOr(row[i], "token_id")) == Some(row[i])
  {
    HasTokenId(env, row[i]);
    UniqueId(row, docs, i);
    hide Sound, CountId, FirstWithId;
    NamedParent(docs, i, TextOr(row[i], "token_id"));
  }

  lemma FallsAt(b: seq<real>, i: nat)
    requires Falling(b) && 0 < i < |b|
    ensures b[i - 1] >= 1.0 && 0.0 <= b[i] < b[i - 1]
  {
    assert Drops(b, i - 1);
  }

  lemma DelegationAdmitted(env: Env, b: seq<real>, row: seq<Object>, docs: seq<Doc>, i: nat)
    requires i < |row| && Delegations(env, b, row) && Documents(row, docs) && Falling(b)
    ensures Admitted(env, docs, row[i])
    ensures i > 0 ==> ParentLink(row[i - 1], row[i])
  {
    hide *;
    LinkAt(env, b, row, i);
    UniqueId(row, docs, i);
    if i == 0 {
      RootVerifies(env, row[i]);
      AdmittedRoot(env, docs, row[i]);
    } else {
      LinkAt(env, b, row, i - 1);
      FallsAt(b, i);
      HopPasses(env, b[i - 1], b[i], row[i - 1], row[i], i);
      ChildVerifies(env, row[i - 1], row[i]);
      Names(env, row[i - 1], row[i]);
      FoundById(env, row, docs, i - 1);
      AdmittedChild(env, docs, row[i - 1], row[i]);
    }
  }

  lemma RowIsLineage(env: Env, b: seq<real>, row: seq<Object>, docs: seq<Doc>)
    requires Delegations(env, b, row) && Documents(row, docs) && Falling(b)
    ensures Chain(env, docs).lineage && docs != []
  {
    assert docs != [];
    hide Admitted, Chain, Delegations, Documents;
    LineageMeans(env, docs);
    forall i | 0 <= i < |docs| ensures docs[i].Token? && Admitted(env, docs, docs[i].token) {
      DocumentAt(row, docs, i);
      DelegationAdmitted(env, b, row, docs, i);
    }
  }

  lemma DocumentAt(row: seq<Object>, docs: seq<Doc>, i: nat)
    requires Documents(row, docs) && (i < |row| || i < |docs|)
    ensures |row| == |docs| && docs[i] == Token(row[i])
  {
  }

  lemma RowIsPath(env: Env, b: seq<real>, row: seq<Object>, docs: seq<Doc>, path: seq<nat>)
    requires Delegations(env, b, row) && Documents(row, docs) && Falling(b) && row != []
    requires |path| == |row| && forall i :: 0 <= i < |path| ==> path[i] == i
    ensures Path(docs, path)
  {
    hide ParentLink, Delegations, Documents, Falling;
    forall i | 0 <= i < |path| ensures path[i] < |docs| && docs[path[i]].Token? {
      DocumentAt(row, docs, i);
    }
    forall i | 0 < i < |path| ensures ParentLink(docs[path[i - 1]].token, docs[path[i]].token) {
      RowLinked(env, b, row, docs, i);
    }
  }

  lemma RowLinked(env: Env, b: seq<real>, row: seq<Object>, docs: seq<Doc>, i: nat)
    requires Delegations(env, b, row) && Documents(row, docs) && Falling(b) && 0 < i < |row|
    ensures |row| == |docs| && docs[i - 1].Token? && docs[i].Token? && ParentLink(docs[i - 1].token, docs[i].token)
  {
    hide *;
    DocumentAt(row, docs, i - 1);
    DocumentAt(row, docs, i);
    DelegationAdmitted(env, b, row, docs, i);
  }

  lemma RowBudgetAt(env: Env, b: seq<real>, row: seq<Object>, docs: seq<Doc>, i: nat)
    requires Delegations(env, b, row) && Documents(row, docs) && i < |row|
    ensures |b| == |row| == |docs| && docs[i].Token?
    ensures NumberAt(docs[i].token, BUDGET).Some? && Budget(docs[i].token) == b[i]
  {
    hide Delegations, Sound, Original, Restates;
    DocumentAt(row, docs, i);
    LinkAt(env, b, row, i);
  }

  lemma RowBudgets(env: Env, b: seq<real>, row: seq<Object>, docs: seq<Doc>, path: seq<nat>)
    requires Delegations(env, b, row) && Documents(row, docs) && Path(docs, path)
    requires |path| == |row| && forall i :: 0 <= i < |path| ==> path[i] == i
    ensures AllBudgeted(docs, path) && BudgetsOn(docs, path) == b
  {
    hide Delegations, ParentLink, NumberAt, Documents;
    hide Budget;
    forall i | 0 <= i < |path|
      ensures |b| == |path| == |docs| && docs[i].Token? && NumberAt(docs[i].token, BUDGET).Some? &&
              Budget(docs[i].token) == b[i]
    {
      RowBudgetAt(env, b, row, docs, i);
    }
    assert |path| > 0 && path[0] == 0;
    RowBudgetAt(env, b, row, docs, 0);
    var on := BudgetsOn(docs, path);
    assert |on| == |b| && forall i :: 0 <= i < |path| ==> on[i] == Budget(docs[path[i]].token);
  }
}
