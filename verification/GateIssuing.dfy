/** Issuing a chain of delegations: for any signer whose signatures verify, every falling list of
    budgets is carried by tokens that are reported as a lineage. */
module GateIssuing {
  import opened Prelude
  import opened Text
  import opened Json
  import opened Gate
  import opened GateChains
  import opened GateBudgets

  /** Who issues: the validity window, and a signature for each unsigned token. */
  datatype Issuer = Issuer(created: string, expires: string, sign: Object -> Object)

  /** The issuer's window is open and its signatures verify. */
  ghost predicate Issues(env: Env, s: Issuer) {
    && env.parse(s.created).Some? && env.parse(s.expires).Some? && !Blank(s.created) && !Blank(s.expires)
    && env.parse(s.created).value < env.parse(s.expires).value && env.parse(s.expires).value != 0
    && (env.now == 0 || env.parse(s.created).value <= env.now < env.parse(s.expires).value)
    && forall body: Object :: "signature" !in body ==> SignatureOk(env, body["signature" := Obj(s.sign(body))])
  }

  /** Distinct names for tokens and identities. */
  function Name(i: nat): (name: string)
    ensures |name| == i + 1 && name[0] == 's'
  {
    if i == 0 then "s" else Name(i - 1) + "s"
  }

  lemma NameSolid(i: nat)
    ensures !Blank(Name(i))
  {
    StartsSolid(Name(i));
  }

  lemma NamesDiffer(i: nat, j: nat)
    requires i != j
    ensures Name(i) != Name(j)
  {
    assert |Name(i)| != |Name(j)|;
  }

  function Identity(s: Issuer, id: string, from: string, to: string): Object {
    map["schema_id" := Str(SCHEMA), "schema_version" := Str("1.0.0"), "producer_version" := Str("1"),
        "token_id" := Str(id),
        "created_at" := Str(s.created), "expires_at" := Str(s.expires), "scope" := Arr([Str("s")]),
        "delegator_identity" := Str(from), "delegate_identity" := Str(to)]
  }

  function Allowance(b: real, depth: real): Object {
    map["max_descendant_depth" := Num(b), "depth" := Num(depth)]
  }

  function Parent(id: string, digest: string): Object {
    map["parent_token_id" := Str(id), "parent_token_digest" := Str(digest)]
  }

  /** The names every check looks up. */
  lemma IdentityFields(s: Issuer, id: string, from: string, to: string)
    ensures var v := Identity(s, id, from, to);
            && TextAt(v, "schema_id") == Some(SCHEMA) && TextAt(v, "schema_version") == Some("1.0.0")
            && TextAt(v, "producer_version") == Some("1") && TextAt(v, "token_id") == Some(id)
            && TextAt(v, "created_at") == Some(s.created) && TextAt(v, "expires_at") == Some(s.expires)
            && ItemsAt(v, "scope") == [Str("s")]
            && TextAt(v, "delegator_identity") == Some(from) && TextAt(v, "delegate_identity") == Some(to)
  {
  }

  // ----- One token -----

  function Unsigned(s: Issuer, b: real, i: nat, parentDigest: string): Object {
    var own := Identity(s, Name(i), Name(i), Name(i + 1)) + Allowance(b, i as real);
    if i == 0 then own else own + Parent(Name(i - 1), parentDigest)
  }

  function Issue(s: Issuer, b: real, i: nat, parentDigest: string): Object {
    var body := Unsigned(s, b, i, parentDigest);
    body["signature" := Obj(s.sign(body))]
  }

  const NINE: seq<string> := ["schema_id", "schema_version", "producer_version", "token_id", "created_at",
                              "expires_at", "scope",
                              "delegator_identity", "delegate_identity"]
  const FIVE: set<string> := {"max_descendant_depth", "depth", "parent_token_id", "parent_token_digest", "signature"}

  lemma IdentityKeys(s: Issuer, id: string, from: string, to: string)
    ensures forall k :: k in Identity(s, id, from, to) <==> k in NINE
  {
    assert forall k :: k in NINE <==> k in Identity(s, id, from, to).Keys;
  }

  lemma NineApart()
    ensures forall k :: k in NINE ==> k !in FIVE
  {
  }

  lemma OthersAbsent(k: string)
    requires k in DIGESTS || k == "revoked" || (k in LIMITS && k != BUDGET) || (k in SCOPES && k != "scope")
    ensures k !in NINE && k !in FIVE
  {
  }

  /** A key is one of the nine, one of the five, or absent. */
  lemma IssueAt(s: Issuer, b: real, i: nat, digest: string, k: string)
    ensures var v, own := Issue(s, b, i, digest), Identity(s, Name(i), Name(i), Name(i + 1));
            && (k in NINE ==> k in v && k in own && v[k] == own[k])
            && (k !in NINE && k !in FIVE ==> k !in v)
  {
    IdentityKeys(s, Name(i), Name(i), Name(i + 1));
    NineApart();
    hide Identity, NINE, Name;
  }

  lemma FiveApart()
    ensures "depth" != "max_descendant_depth" && "parent_token_id" != "parent_token_digest"
    ensures "max_descendant_depth" !in {"parent_token_id", "parent_token_digest", "signature"}
    ensures "depth" !in {"parent_token_id", "parent_token_digest", "signature"}
    ensures "signature" !in {"parent_token_id", "parent_token_digest"}
  {
  }

  lemma IssueAllowance(s: Issuer, b: real, i: nat, digest: string)
    ensures var v := Issue(s, b, i, digest); NumberAt(v, BUDGET) == Some(b) && NumberAt(v, "depth") == Some(i as real)
  {
    FiveApart();
    hide Identity, Name;
    var allowance := Allowance(b, i as real);
    assert "max_descendant_depth" in allowance && "depth" in allowance;
    assert i > 0 ==> "max_descendant_depth" !in Parent(Name(i - 1), digest) && "depth" !in Parent(Name(i - 1), digest);
  }

  lemma IssueParent(s: Issuer, b: real, i: nat, digest: string)
    requires i > 0
    ensures var v := Issue(s, b, i, digest);
            TextAt(v, "parent_token_id") == Some(Name(i - 1)) && TextAt(v, "parent_token_digest") == Some(digest)
  {
    FiveApart();
    hide Identity, Name, Allowance;
    var parent := Parent(Name(i - 1), digest);
    assert "parent_token_id" in parent && "parent_token_digest" in parent;
  }

  lemma IssueRoot(s: Issuer, b: real, digest: string)
    ensures Original(Issue(s, b, 0, digest))
  {
    FiveApart();
    NineApart();
    IdentityKeys(s, Name(0), Name(0), Name(1));
    hide Identity, Name, NINE;
    var own, allowance := Identity(s, Name(0), Name(0), Name(1)), Allowance(b, 0 as real);
    assert "parent_token_id" in FIVE && "parent_token_digest" in FIVE;
    assert "parent_token_id" !in allowance && "parent_token_digest" !in allowance;
  }

  lemma IssueSignature(s: Issuer, b: real, i: nat, digest: string)
    ensures var v := Issue(s, b, i, digest);
            && ObjectAt(v, "signature") == Some(s.sign(Unsigned(s, b, i, digest)))
            && "signature" !in Unsigned(s, b, i, digest)
  {
    FiveApart();
    NineApart();
    IdentityKeys(s, Name(i), Name(i), Name(i + 1));
    hide Identity, Name, NINE;
    var own, allowance := Identity(s, Name(i), Name(i), Name(i + 1)), Allowance(b, i as real);
    assert "signature" in FIVE;
    assert "signature" !in allowance;
    assert i > 0 ==> "signature" !in Parent(Name(i - 1), digest);
  }

  lemma NineListed()
    ensures "schema_id" in NINE && "schema_version" in NINE && "producer_version" in NINE && "token_id" in NINE
    ensures "created_at" in NINE && "expires_at" in NINE && "scope" in NINE
    ensures "delegator_identity" in NINE && "delegate_identity" in NINE
  {
    assert NINE[0] in NINE && NINE[1] in NINE && NINE[2] in NINE && NINE[3] in NINE && NINE[4] in NINE;
    assert NINE[5] in NINE && NINE[6] in NINE && NINE[7] in NINE && NINE[8] in NINE;
  }

  /** What the checks read of an issued token. */
  lemma IssueFields(s: Issuer, b: real, i: nat, digest: string)
    ensures var v := Issue(s, b, i, digest);
            && TextAt(v, "schema_id") == Some(SCHEMA) && TextAt(v, "schema_version") == Some("1.0.0")
            && TextAt(v, "producer_version") == Some("1") && TextAt(v, "token_id") == Some(Name(i))
            && TextAt(v, "created_at") == Some(s.created) && TextAt(v, "expires_at") == Some(s.expires)
            && ItemsAt(v, "scope") == [Str("s")]
            && TextAt(v, "delegator_identity") == Some(Name(i)) && TextAt(v, "delegate_identity") == Some(Name(i + 1))
  {
    hide Issue, Identity, NINE, Name;
    IdentityFields(s, Name(i), Name(i), Name(i + 1));
    NineListed();
    IssueAt(s, b, i, digest, "schema_id");
    IssueAt(s, b, i, digest, "schema_version");
    IssueAt(s, b, i, digest, "producer_version");
    IssueAt(s, b, i, digest, "token_id");
    IssueAt(s, b, i, digest, "created_at");
    IssueAt(s, b, i, digest, "expires_at");
    IssueAt(s, b, i, digest, "scope");
    IssueAt(s, b, i, digest, "delegator_identity");
    IssueAt(s, b, i, digest, "delegate_identity");
  }

  lemma IssueSound(env: Env, s: Issuer, b: real, i: nat, digest: string)
    requires Issues(env, s)
    ensures Sound(env, Issue(s, b, i, digest))
  {
    hide Issue, Identity, NINE, FIVE, Name, Blank, SignatureOk, Unsigned;
    IssueFields(s, b, i, digest);
    IssueSignature(s, b, i, digest);
    IssueSigned(env, s, b, i, digest);
    OthersAbsent("revoked");
    IssueAt(s, b, i, digest, "revoked");
    NameSolid(i);
    NameSolid(i + 1);
    NamesDiffer(i, i + 1);
    TextsSolid();
  }

  lemma TextsSolid()
    ensures !Blank(SCHEMA) && !Blank("1.0.0") && !Blank("1") && !Blank("s")
  {
    StartsSolid(SCHEMA);
    StartsSolid("1.0.0");
    StartsSolid("1");
    StartsSolid("s");
  }

  lemma IssueSigned(env: Env, s: Issuer, b: real, i: nat, digest: string)
    requires Issues(env, s)
    ensures SignatureOk(env, Issue(s, b, i, digest))
  {
    IssueSignature(s, b, i, digest);
    hide SignatureOk, Unsigned, Blank;
  }

  lemma IssueBudgeted(s: Issuer, b: real, i: nat, digest: string)
    ensures Budgeted(b, Issue(s, b, i, digest), i)
  {
    IssueAllowance(s, b, i, digest);
    hide Issue, DIGESTS, LIMITS, NINE, FIVE;
    var v := Issue(s, b, i, digest);
    forall k | k in DIGESTS || (k in LIMITS && k != BUDGET) ensures k !in v {
      OthersAbsent(k);
      IssueAt(s, b, i, digest, k);
    }
  }

  // ----- The chain -----

  /** The digest by which a child names the token. */
  function Naming(v: Object): string {
    "sha256:" + match ObjectAt(v, "signature") case None => "" case Some(sig) => TextOr(sig, "signed_digest")
  }

  function Row(s: Issuer, b: seq<real>): (row: seq<Object>)
    ensures |row| == |b|
  {
    if b == [] then []
    else
      var n := |b| - 1;
      var init := Row(s, b[..n]);
      init + [Issue(s, b[n], n, if n == 0 then "" else Naming(init[n - 1]))]
  }

  lemma {:induction false} RowAt(s: Issuer, b: seq<real>, i: nat)
    requires i < |b|
    ensures Row(s, b)[i] == Issue(s, b[i], i, if i == 0 then "" else Naming(Row(s, b)[i - 1]))
  {
    hide Issue, Naming;
    var n := |b| - 1;
    if i < n {
      RowAt(s, b[..n], i);
    }
  }

  lemma IssueScopes(s: Issuer, x: real, y: real, i: nat, j: nat, digest: string, other: string, k: string)
    requires k in SCOPES
    ensures StringsAt(Issue(s, x, i, digest), k) == StringsAt(Issue(s, y, j, other), k)
  {
    var root, v := Issue(s, x, i, digest), Issue(s, y, j, other);
    hide *;
    if k == "scope" {
      IssueFields(s, x, i, digest);
      IssueFields(s, y, j, other);
    } else {
      OthersAbsent(k);
      IssueAt(s, x, i, digest, k);
      IssueAt(s, y, j, other, k);
      NoItems(root, k);
      NoItems(v, k);
    }
    SameItems(root, v, k);
  }

  lemma NoItems(v: Object, k: string)
    requires k !in v
    ensures ItemsAt(v, k) == []
  {
  }

  lemma SameItems(v: Object, w: Object, k: string)
    requires ItemsAt(v, k) == ItemsAt(w, k)
    ensures StringsAt(v, k) == StringsAt(w, k)
  {
  }

  lemma IssueRestates(s: Issuer, x: real, y: real, i: nat, digest: string)
    requires i > 0
    ensures var root := Issue(s, x, i - 1, digest); Restates(root, Issue(s, y, i, Naming(root)))
  {
    hide Issue, NINE, FIVE, SCOPES, Unsigned, Name, StringsAt;
    var root := Issue(s, x, i - 1, digest);
    var v := Issue(s, y, i, Naming(root));
    forall k | k in SCOPES ensures StringsAt(v, k) == StringsAt(root, k) {
      IssueScopes(s, x, y, i - 1, i, digest, Naming(root), k);
    }
    IssueFields(s, x, i - 1, digest);
    IssueFields(s, y, i, Naming(root));
    IssueSignature(s, x, i - 1, digest);
    IssueParent(s, y, i, Naming(root));
  }

  lemma RowLink(env: Env, s: Issuer, b: seq<real>, i: nat)
    requires Issues(env, s) && i < |b|
    ensures Link(env, b, Row(s, b), i) && TextOr(Row(s, b)[i], "token_id") == Name(i)
  {
    hide Issue, Issues, Sound, Budgeted, Original, Restates, Naming, Row, Name;
    RowAt(s, b, i);
    var digest := if i == 0 then "" else Naming(Row(s, b)[i - 1]);
    IssueSound(env, s, b[i], i, digest);
    IssueBudgeted(s, b[i], i, digest);
    IssueFields(s, b[i], i, digest);
    if i == 0 {
      IssueRoot(s, b[0], "");
    } else {
      RowAt(s, b, i - 1);
      IssueRestates(s, b[i - 1], b[i], i, if i == 1 then "" else Naming(Row(s, b)[i - 2]));
    }
  }

  lemma RowDelegates(env: Env, s: Issuer, b: seq<real>)
    requires Issues(env, s) && b != []
    ensures Delegations(env, b, Row(s, b))
  {
    hide Issues, Link, Row, Name;
    var row := Row(s, b);
    forall i: nat | i < |row| ensures Link(env, b, row, i) {
      RowLink(env, s, b, i);
    }
    forall i, j | 0 <= i < j < |row| ensures TextOr(row[i], "token_id") != TextOr(row[j], "token_id") {
      RowLink(env, s, b, i);
      RowLink(env, s, b, j);
      NamesDiffer(i, j);
    }
  }

  function DocsOf(row: seq<Object>): (docs: seq<Doc>)
    ensures Documents(row, docs)
  {
    seq(|row|, i requires 0 <= i < |row| => Token(row[i]))
  }

  function Positions(n: nat): (path: seq<nat>)
    ensures |path| == n && forall i :: 0 <= i < n ==> path[i] == i
  {
    seq(n, i => i)
  }

  /** Main result. For any issuer whose signatures verify, every falling list of budgets is carried by
      a chain of tokens that is reported as a lineage. With `LineageBudgetsFall`, the lists of budgets
      a lineage can carry are exactly the falling ones. */
  lemma FallingBudgetsAccepted(env: Env, s: Issuer, b: seq<real>)
    requires Issues(env, s) && b != [] && Falling(b)
    ensures var docs, path := DocsOf(Row(s, b)), Positions(|b|);
            Chain(env, docs).lineage && Path(docs, path) && AllBudgeted(docs, path) && BudgetsOn(docs, path) == b
  {
    var row := Row(s, b);
    var docs, path := DocsOf(row), Positions(|b|);
    RowDelegates(env, s, b);
    hide Issues, Row, DocsOf, Positions, Chain, Delegations, Falling, Path, Documents, BudgetsOn, AllBudgeted;
    RowIsLineage(env, b, row, docs);
    RowIsPath(env, b, row, docs, path);
    RowBudgets(env, b, row, docs, path);
  }

  /** The bound of `LineageUnitBound` is met for every unit and every length: a lineage of n + 1 hops
      starts from budget 1 + n * u. For u < 1 that is more hops than the budget says as soon as
      n * (1 - u) exceeds zero. */
  lemma UnitBoundIsMet(env: Env, s: Issuer, n: nat, u: real)
    requires Issues(env, s) && u > 0.0
    ensures var docs, path := DocsOf(Row(s, Countdown(n, u))), Positions(n + 2);
            && Chain(env, docs).lineage && Path(docs, path) && |path| - 1 == n + 1
            && NumberAt(Start(docs, path), BUDGET).Some? && Budget(Start(docs, path)) == 1.0 + n as real * u
            && (n > 0 && u < 1.0 ==> (n + 1) as real > Budget(Start(docs, path)))
  {
    hide *;
    var b := Countdown(n, u);
    CountdownFalls(n, u);
    CountdownStart(n, u);
    FallingBudgetsAccepted(env, s, b);
    StartOfBudgets(DocsOf(Row(s, b)), Positions(n + 2), b);
    if n > 0 && u < 1.0 { Shrinks(n as real, u); }
  }

  lemma CountdownStart(n: nat, u: real)
    ensures |Countdown(n, u)| == n + 2 && Countdown(n, u)[0] == 1.0 + n as real * u
  {
  }

  lemma StartOfBudgets(docs: seq<Doc>, path: seq<nat>, b: seq<real>)
    requires Path(docs, path) && AllBudgeted(docs, path) && BudgetsOn(docs, path) == b && b != []
    ensures NumberAt(Start(docs, path), BUDGET).Some? && Budget(Start(docs, path)) == b[0]
  {
    hide ParentLink;
    assert BudgetsOn(docs, path)[0] == Budget(docs[path[0]].token);
  }

  lemma Shrinks(n: real, u: real)
    requires n > 0.0 && u < 1.0
    ensures n * u < n
  {
    assert n * (1.0 - u) > 0.0;
  }

  /** There are such issuers: where digests and signatures are taken on trust, any signer is one. */
  lemma SomeIssuer()
    ensures exists env, s :: Issues(env, s)
  {
    var digest := seq(64, _ => 'a');
    var s := Issuer("c", "e", body => map["signed_digest" := Str(digest), "key_id" := Str("k")]);
    var env := Env(t => if t == "c" then Some(1) else Some(2), o => Some(digest), sig => true, "k", true, 0);
    StartsSolid("c");
    StartsSolid("e");
    forall body: Object | "signature" !in body ensures SignatureOk(env, body["signature" := Obj(s.sign(body))]) {
    }
    assert Issues(env, s);
  }
}
