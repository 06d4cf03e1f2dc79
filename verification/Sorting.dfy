/** `sort.SliceStable` and its relatives: a stable insertion sort for an arbitrary comparator,
    and the facts that make its result independent of the order of the input. */
module Sorting {
  import opened Text

  /** Shift `x` left past every element it is less than. */
  function Insert<T>(less: (T, T) -> bool, x: T, xs: seq<T>): (ys: seq<T>)
    ensures multiset(ys) == multiset(xs) + multiset{x}
    ensures |ys| == |xs| + 1
  {
    if xs == [] || !less(x, xs[|xs| - 1]) then xs + [x]
    else
      assert xs == xs[..|xs| - 1] + [xs[|xs| - 1]];
      Insert(less, x, xs[..|xs| - 1]) + [xs[|xs| - 1]]
  }

  function SortBy<T>(less: (T, T) -> bool, xs: seq<T>): (ys: seq<T>)
    ensures multiset(ys) == multiset(xs)
    ensures |ys| == |xs|
  {
    if xs == [] then []
    else
      assert xs == xs[..|xs| - 1] + [xs[|xs| - 1]];
      Insert(less, xs[|xs| - 1], SortBy(less, xs[..|xs| - 1]))
  }

  ghost predicate Ascending<T>(less: (T, T) -> bool, xs: seq<T>) {
    forall i, j :: 0 <= i < j < |xs| ==> !less(xs[j], xs[i])
  }

  /** On the members of `xs`, `less` is asymmetric and "not less" is transitive. */
  ghost predicate WeakOrderOn<T>(less: (T, T) -> bool, xs: seq<T>) {
    && (forall x, y :: x in xs && y in xs && less(x, y) ==> !less(y, x))
    && (forall x, y, z :: x in xs && y in xs && z in xs && !less(y, x) && !less(z, y) ==> !less(z, x))
  }

  /** On the members of `xs`, only equal values are unordered. */
  ghost predicate StrictOn<T>(less: (T, T) -> bool, xs: seq<T>) {
    forall x, y :: x in xs && y in xs && x != y ==> less(x, y) || less(y, x)
  }

  lemma {:induction false} InsertAscending<T>(less: (T, T) -> bool, x: T, xs: seq<T>)
    requires Ascending(less, xs) && WeakOrderOn(less, xs + [x])
    ensures Ascending(less, Insert(less, x, xs))
  {
    var ys := Insert(less, x, xs);
    if xs != [] {
      var last, init := xs[|xs| - 1], xs[..|xs| - 1];
      if less(x, last) {
        assert forall y :: y in init + [x] ==> y in xs + [x];
        InsertAscending(less, x, init);
        var zs := Insert(less, x, init);
        forall i | 0 <= i < |zs| ensures !less(last, zs[i]) {
          assert zs[i] in multiset(zs);
          if zs[i] != x {
            assert zs[i] in init;
            var j :| 0 <= j < |init| && init[j] == zs[i];
            assert xs[j] == zs[i];
          }
        }
      } else {
        forall i | 0 <= i < |xs| ensures !less(x, xs[i]) {
          assert xs[i] in xs + [x] && last in xs + [x] && x in xs + [x];
          assert i < |xs| - 1 ==> !less(last, xs[i]);
          if less(last, last) { assert false; }
        }
      }
    }
  }

  lemma {:induction false} SortByAscending<T>(less: (T, T) -> bool, xs: seq<T>)
    requires WeakOrderOn(less, xs)
    ensures Ascending(less, SortBy(less, xs))
  {
    if xs != [] {
      var last, init := xs[|xs| - 1], xs[..|xs| - 1];
      assert xs == init + [last];
      SortByAscending(less, init);
      var ys := SortBy(less, init);
      forall y | y in ys + [last] ensures y in xs {
        if y in ys { assert y in multiset(ys); assert y in multiset(init); }
      }
      InsertAscending(less, last, ys);
    }
  }

  lemma LastIsGreatest<T>(less: (T, T) -> bool, xs: seq<T>, x: T)
    requires x in xs && Ascending(less, xs) && x != xs[|xs| - 1]
    ensures !less(xs[|xs| - 1], x)
  {
    var i :| 0 <= i < |xs| && xs[i] == x;
    assert i < |xs| - 1;
  }

  lemma Member<T>(x: T, xs: seq<T>, ys: seq<T>)
    requires multiset(xs) == multiset(ys) && x in xs
    ensures x in ys
  {
    assert x in multiset(xs);
  }

  lemma MultisetOfInit<T>(xs: seq<T>)
    requires xs != []
    ensures multiset(xs[..|xs| - 1]) == multiset(xs) - multiset{xs[|xs| - 1]}
  {
    assert xs == xs[..|xs| - 1] + [xs[|xs| - 1]];
  }

  /** Two ascending arrangements of the same elements coincide when the order is strict. */
  lemma {:induction false} AscendingUnique<T>(less: (T, T) -> bool, xs: seq<T>, ys: seq<T>)
    requires multiset(xs) == multiset(ys)
    requires Ascending(less, xs) && Ascending(less, ys) && StrictOn(less, xs)
    ensures xs == ys
  {
    assert |xs| == |multiset(xs)| == |ys|;
    if xs != [] {
      var n := |xs| - 1;
      var x, y := xs[n], ys[n];
      Member(x, xs, ys);
      Member(y, ys, xs);
      if x != y {
        LastIsGreatest(less, xs, y);
        LastIsGreatest(less, ys, x);
        assert false;
      }
      MultisetOfInit(xs);
      MultisetOfInit(ys);
      var xs', ys' := xs[..n], ys[..n];
      AscendingUnique(less, xs', ys');
      assert xs == xs' + [x] && ys == ys' + [y];
    }
  }

  // `sort.Strings`.

  function SortStrings(xs: seq<string>): (ys: seq<string>)
    ensures multiset(ys) == multiset(xs)
    ensures |ys| == |xs|
  {
    SortBy(Less, xs)
  }

  lemma StringsWeakOrder(xs: seq<string>)
    ensures WeakOrderOn(Less, xs) && StrictOn(Less, xs)
  {
    forall x, y | x in xs && y in xs && Less(x, y) ensures !Less(y, x) {
      LessAsymmetric(x, y);
    }
    forall x, y, z | x in xs && y in xs && z in xs && !Less(y, x) && !Less(z, y) ensures !Less(z, x) {
      LessNotTransitive(x, y, z);
    }
    forall x, y | x in xs && y in xs && x != y ensures Less(x, y) || Less(y, x) {
      LessTotal(x, y);
    }
  }

  lemma LessNotTransitive(x: string, y: string, z: string)
    requires !Less(y, x) && !Less(z, y)
    ensures !Less(z, x)
  {
    if Less(z, x) {
      if y != z { LessTotal(y, z); LessTransitive(y, z, x); }
      assert false;
    }
  }

  lemma SortStringsAscending(xs: seq<string>)
    ensures Ascending(Less, SortStrings(xs))
  {
    StringsWeakOrder(xs);
    SortByAscending(Less, xs);
  }

  // ----- The keys of a Go map, sorted -----

  ghost predicate Least(keys: set<string>, key: string) {
    key in keys && forall k :: k in keys ==> !Less(k, key)
  }

  lemma LeastExists(keys: set<string>)
    requires keys != {}
    ensures exists key :: Least(keys, key)
  {
    var k :| k in keys;
    if keys == {k} {
      LessIrreflexive(k);
      assert Least(keys, k);
    } else {
      LeastExists(keys - {k});
      var m :| Least(keys - {k}, m);
      if Less(k, m) {
        LessIrreflexive(k);
        forall x | x in keys ensures !Less(x, k) {
          if Less(x, k) { LessTransitive(x, k, m); }
        }
        assert Least(keys, k);
      } else {
        assert Least(keys, m);
      }
    }
  }

  ghost function OrderedKeys(keys: set<string>): (ks: seq<string>)
    ensures multiset(ks) == multiset(keys) && Ascending(Less, ks)
    ensures forall k :: k in ks <==> k in keys
  {
    if keys == {} then []
    else
      LeastExists(keys);
      var key :| Least(keys, key);
      var rest := OrderedKeys(keys - {key});
      LeastFirst(keys, key, rest);
      [key] + rest
  }

  lemma LeastFirst(keys: set<string>, key: string, rest: seq<string>)
    requires Least(keys, key) && multiset(rest) == multiset(keys - {key}) && Ascending(Less, rest)
    ensures multiset([key] + rest) == multiset(keys) && Ascending(Less, [key] + rest)
    ensures forall k :: k in [key] + rest <==> k in keys
  {
    hide Less;
    assert multiset(keys) == multiset{key} + multiset(keys - {key});
    forall k ensures k in rest <==> k in keys - {key} {
      assert k in rest <==> k in multiset(rest);
    }
    var all := [key] + rest;
    forall i, j | 0 <= i < j < |all| ensures !Less(all[j], all[i]) {
      assert all[j] == rest[j - 1] && all[j] in rest;
      assert i > 0 ==> all[i] == rest[i - 1];
    }
  }

  /** Collect the keys in whatever order the map iteration yields them, then sort. */
  method SortedKeys(keys: set<string>) returns (sorted: seq<string>)
    ensures sorted == OrderedKeys(keys)
  {
    var raw: seq<string> := [];
    var todo := keys;
    while todo != {}
      invariant todo <= keys
      invariant multiset(raw) + multiset(todo) == multiset(keys)
    {
      var key :| key in todo;
      assert multiset(todo) == multiset(todo - {key}) + multiset{key};
      todo := todo - {key};
      raw := raw + [key];
    }
    assert multiset(todo) == multiset{};
    SortStringsAscending(raw);
    sorted := SortStrings(raw);
    StringsWeakOrder(sorted);
    AscendingUnique(Less, sorted, OrderedKeys(keys));
  }

  /** Strings already in order are left alone. */
  lemma SortStringsKeeps(xs: seq<string>)
    requires Ascending(Less, xs)
    ensures SortStrings(xs) == xs
  {
    SortStringsAscending(xs);
    StringsWeakOrder(xs);
    StringsWeakOrder(SortStrings(xs));
    AscendingUnique(Less, SortStrings(xs), xs);
  }
}
