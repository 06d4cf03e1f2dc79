/** What an analysis of observations reports and keeps, in terms of the observations alone. */
module DriftMeaning {
  import opened Prelude
  import opened Text
  import opened Sorting
  import opened Drift

  /** The observation names both a principal and a privilege. */
  predicate Complete(o: Observation) {
    o.principal != "" && o.privilege != ""
  }

  ghost predicate Before(os: seq<Observation>, i: int, principal: string, privilege: string)
    requires 0 <= i <= |os|
  {
    exists j :: 0 <= j < i && os[j].principal == principal && os[j].privilege == privilege
  }

  predicate Granted(b: Baseline, principal: string, privilege: string) {
    principal in b && privilege in b[principal]
  }

  /** The first sight of a privilege that the baseline does not grant, without approval. */
  ghost predicate Unapproved(b: Baseline, os: seq<Observation>, i: int)
    requires 0 <= i < |os|
  {
    && Complete(os[i]) && !os[i].approved && !Granted(b, os[i].principal, os[i].privilege)
    && !Before(os, i, os[i].principal, os[i].privilege)
  }

  lemma EscalationIs(b: Baseline, os: seq<Observation>, i: nat)
    requires i < |os|
    ensures Escalation(b, os, i) <==> Unapproved(b, os, i)
  {
    forall j | 0 <= j < i
      ensures Same(os[j], os[i].principal, os[i].privilege) <==>
              os[j].principal == os[i].principal && os[j].privilege == os[i].privilege && Complete(os[i])
    {
    }
    hide Same;
  }

  /** Main result. One gap is reported for each unapproved first sight, naming the pair and the record. */
  lemma GapsMean(b: Baseline, os: seq<Observation>, g: Gap)
    requires SortedBaseline(b)
    ensures g in Found(b, os) <==>
            exists i :: 0 <= i < |os| && Unapproved(b, os, i)
                        && g.principal == os[i].principal && g.privilege == os[i].privilege &&
                           g.recordID == os[i].recordID
  {
    GapsAreEscalations(b, os, g);
    forall i: nat | i < |os| ensures Escalation(b, os, i) <==> Unapproved(b, os, i) {
      EscalationIs(b, os, i);
    }
    hide Escalation, Unapproved, Found;
    if i :| GapAt(b, os, i, g) { assert Unapproved(b, os, i); }
    if i :| 0 <= i < |os| && Unapproved(b, os, i)
            && g.principal == os[i].principal && g.privilege == os[i].privilege && g.recordID == os[i].recordID {
      assert g == Gap(os[i].principal, os[i].privilege, os[i].recordID);
      assert GapAt(b, os, i, g);
    }
  }

  /** How many gaps there are: one per unapproved first sight. */
  ghost function Sights(b: Baseline, os: seq<Observation>, n: nat): nat
    requires n <= |os|
  {
    if n == 0 then 0 else Sights(b, os, n - 1) + if Unapproved(b, os, n - 1) then 1 else 0
  }

  lemma {:induction false} GapsCounted(b: Baseline, os: seq<Observation>, n: nat)
    requires SortedBaseline(b) && n <= |os|
    ensures |Found(b, os[..n])| == Sights(b, os, n)
  {
    if n > 0 {
      hide Found, Escalation, Unapproved;
      var part := os[..n];
      GapsCounted(b, os, n - 1);
      assert part[..n - 1] == os[..n - 1] && |part| - 1 == n - 1;
      OneGapEach(b, part);
      EscalationIs(b, part, n - 1);
      SightPrefix(b, os, n);
    } else {
      assert os[..0] == [];
    }
  }

  lemma SightPrefix(b: Baseline, os: seq<Observation>, n: nat)
    requires 0 < n <= |os|
    ensures Unapproved(b, os[..n], n - 1) <==> Unapproved(b, os, n - 1)
  {
    var part := os[..n];
    assert forall j :: 0 <= j < n ==> part[j] == os[j];
    var o := os[n - 1];
    if j :| 0 <= j < n - 1 && os[j].principal == o.principal && os[j].privilege == o.privilege {
      assert part[j].principal == o.principal;
    }
  }

  /** Main result. Afterwards a pair is granted exactly when it was before or a complete observation
      named it; a principal is listed when it was before or a complete observation named it. */
  lemma BaselineMeans(b: Baseline, os: seq<Observation>, principal: string, privilege: string)
    requires SortedBaseline(b)
    ensures Granted(After(b, os), principal, privilege) <==>
            || Granted(b, principal, privilege)
            || (principal != "" && privilege != "" && Before(os, |os|, principal, privilege))
  {
    Contents(b, os, principal, privilege);
    forall i | 0 <= i < |os|
      ensures Same(os[i], principal, privilege) <==>
              os[i].principal == principal && os[i].privilege == privilege && principal != "" && privilege != ""
    {
    }
    hide Same, After;
  }

  /** The report is sorted by principal, then privilege, then record. */
  lemma ReportSorted(b: Baseline, os: seq<Observation>, i: nat, j: nat)
    requires SortedBaseline(b) && i < j < |SortBy(GapBefore, Found(b, os))|
    ensures var gaps := SortBy(GapBefore, Found(b, os));
            var x, y := gaps[i], gaps[j];
            || Less(x.principal, y.principal)
            || (x.principal == y.principal && (Less(x.privilege, y.privilege)
                || (x.privilege == y.privilege && !Less(y.recordID, x.recordID))))
  {
    hide Less, Found;
    var gaps := SortBy(GapBefore, Found(b, os));
    GapsOrdered(Found(b, os));
    SortByAscending(GapBefore, Found(b, os));
    assert !GapBefore(gaps[j], gaps[i]);
    if gaps[i].principal != gaps[j].principal { LessTotal(gaps[i].principal, gaps[j].principal); }
    if gaps[i].privilege != gaps[j].privilege { LessTotal(gaps[i].privilege, gaps[j].privilege); }
  }

  lemma GapsOrdered(gaps: seq<Gap>)
    ensures WeakOrderOn(GapBefore, gaps)
  {
    hide Less;
    forall x, y | x in gaps && y in gaps && GapBefore(x, y) ensures !GapBefore(y, x) {
      GapAsymmetric(x, y);
    }
    forall x, y, z | x in gaps && y in gaps && z in gaps && !GapBefore(y, x) && !GapBefore(z, y)
      ensures !GapBefore(z, x) {
      GapChain(x, y, z);
    }
  }

  lemma GapAsymmetric(x: Gap, y: Gap)
    requires GapBefore(x, y)
    ensures !GapBefore(y, x)
  {
    hide Less;
    if x.principal != y.principal { LessAsymmetric(x.principal, y.principal); }
    else if x.privilege != y.privilege { LessAsymmetric(x.privilege, y.privilege); }
    else { LessAsymmetric(x.recordID, y.recordID); }
  }

  lemma GapChain(x: Gap, y: Gap, z: Gap)
    requires !GapBefore(y, x) && !GapBefore(z, y)
    ensures !GapBefore(z, x)
  {
    hide Less;
    if GapBefore(z, x) {
      if x.principal != y.principal || y.principal != z.principal {
        Total(x.principal, y.principal);
        Total(y.principal, z.principal);
        Chain(x.principal, y.principal, z.principal);
      } else if x.privilege != y.privilege || y.privilege != z.privilege {
        Total(x.privilege, y.privilege);
        Total(y.privilege, z.privilege);
        Chain(x.privilege, y.privilege, z.privilege);
      } else {
        LessNotTransitive(x.recordID, y.recordID, z.recordID);
      }
    }
  }

  lemma Total(a: string, b: string)
    ensures a == b || Less(a, b) || Less(b, a)
  {
    if a != b { LessTotal(a, b); }
  }

  /** If neither falls behind the one before, the last is ahead of the first unless all are equal. */
  lemma Chain(a: string, b: string, c: string)
    requires !Less(b, a) && !Less(c, b) && (a != b || b != c)
    ensures Less(a, c) && !Less(c, a) && a != c
  {
    LessNotTransitive(a, b, c);
    if a == c {
      LessTotal(a, b);
      assert false;
    }
    LessTotal(a, c);
  }
}
