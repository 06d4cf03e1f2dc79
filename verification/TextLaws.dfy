/** What the string helpers do to a text, position by position. */
module TextLaws {
  import opened Text

  /** `a` and `b` agree before `n`, and there `a` ends or has the smaller character. */
  ghost predicate FirstDifference(a: string, b: string, n: nat) {
    && n <= |a| && n < |b| && (forall i :: 0 <= i < n ==> a[i] == b[i])
    && (n == |a| || a[n] < b[n])
  }

  /** Go's string order is decided at the first difference. */
  lemma {:induction false} LessAtFirstDifference(a: string, b: string)
    ensures Less(a, b) <==> exists n :: FirstDifference(a, b, n)
  {
    if b != "" && a != "" && a[0] == b[0] {
      LessAtFirstDifference(a[1..], b[1..]);
      if n: nat :| FirstDifference(a[1..], b[1..], n) {
        forall i | 0 <= i < n + 1 ensures a[i] == b[i] {
          if i > 0 { assert a[1..][i - 1] == b[1..][i - 1]; }
        }
        assert n < |a[1..]| ==> a[1..][n] == a[n + 1];
        assert b[1..][n] == b[n + 1];
        assert FirstDifference(a, b, n + 1);
      }
      if n: nat :| FirstDifference(a, b, n) {
        assert FirstDifference(a[1..], b[1..], n - 1);
      }
    } else if b != "" {
      assert Less(a, b) ==> FirstDifference(a, b, 0);
    }
  }

  lemma {:induction false} LeftTrimmed(s: string) returns (i: nat)
    ensures i <= |s| && TrimLeft(s) == s[i..]
    ensures forall k :: 0 <= k < i ==> IsSpace(s[k])
  {
    if s != "" && IsSpace(s[0]) {
      i := LeftTrimmed(s[1..]);
      forall k | 0 <= k < i + 1 ensures IsSpace(s[k]) {
        if k > 0 { assert s[1..][k - 1] == s[k]; }
      }
      i := i + 1;
    } else {
      i := 0;
    }
  }

  lemma {:induction false} RightTrimmed(s: string) returns (j: nat)
    ensures j <= |s| && TrimRight(s) == s[..j]
    ensures forall k :: j <= k < |s| ==> IsSpace(s[k])
  {
    if s != "" && IsSpace(s[|s| - 1]) {
      j := RightTrimmed(s[..|s| - 1]);
      assert s[..|s| - 1][..j] == s[..j];
    } else {
      j := |s|;
    }
  }

  /** Trimming takes away spaces at both ends and nothing else. */
  lemma Trimmed(s: string) returns (i: nat, j: nat)
    ensures i <= j <= |s| && Trim(s) == s[i..j]
    ensures forall k :: 0 <= k < i || j <= k < |s| ==> IsSpace(s[k])
    ensures i < j ==> !IsSpace(s[i]) && !IsSpace(s[j - 1])
  {
    i := LeftTrimmed(s);
    var n := RightTrimmed(s[i..]);
    j := i + n;
    assert s[i..][..n] == s[i..j];
    forall k | j <= k < |s| ensures IsSpace(s[k]) {
      assert s[i..][k - i] == s[k];
    }
    assert i < j ==> Trim(s)[0] == s[i] && Trim(s)[|Trim(s)| - 1] == s[j - 1];
  }

  /** Lowering changes capital letters to their small forms, which lie 32 places on, and nothing else. */
  lemma Lowered(s: string, i: nat)
    requires i < |s|
    ensures if 'A' <= s[i] <= 'Z' then Lower(s)[i] - 'a' == s[i] - 'A' else Lower(s)[i] == s[i]
  {
  }

  /** The code points of the twenty-five white space characters. */
  const SPACES: seq<int> :=
    [9, 10, 11, 12, 13, 32, 133, 160, 5760, 8192, 8193, 8194, 8195, 8196, 8197, 8198, 8199, 8200, 8201, 8202,
     8232, 8233, 8239, 8287, 12288]

  lemma SpacesAre(c: char)
    ensures IsSpace(c) <==> c as int in SPACES
  {
    var n := c as int;
    if IsSpace(c) {
      assert n == 9 || n == 10 || n == 11 || n == 12 || n == 13 ||
             n in {32, 133, 160, 5760, 8232, 8233, 8239, 8287, 12288}
             || 8192 <= n <= 8202;
      Listed();
    }
  }

  lemma Listed()
    ensures forall n ::
              (9 <= n <= 13 || 8192 <= n <= 8202 || n in {32, 133, 160, 5760, 8232, 8233, 8239, 8287, 12288}) ==>
                n in SPACES
  {
    assert SPACES[0] == 9 && SPACES[1] == 10 && SPACES[2] == 11 && SPACES[3] == 12 && SPACES[4] == 13 &&
           SPACES[5] == 32;
    assert SPACES[6] == 133 && SPACES[7] == 160 && SPACES[8] == 5760 && SPACES[20] == 8232 && SPACES[21] == 8233;
    assert SPACES[22] == 8239 && SPACES[23] == 8287 && SPACES[24] == 12288;
    forall n | 8192 <= n <= 8202 ensures n in SPACES {
      assert SPACES[n - 8183] == n;
    }
  }

  /** A prefix is taken off once if it is there, whatever follows. */
  lemma PrefixTaken(x: string)
    ensures WithoutPrefix("sha256:" + x) == x
    ensures |x| < 7 || x[..7] != "sha256:" ==> WithoutPrefix(x) == x
  {
    assert ("sha256:" + x)[7..] == x;
  }
}
