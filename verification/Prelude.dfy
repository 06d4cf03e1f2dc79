/** The conventional option type, and mapping a list-valued function over a list. */
module Prelude {
  datatype Option<+T> = None | Some(value: T)

  function FlatMap<A, B>(f: A -> seq<B>, xs: seq<A>): seq<B> {
    if xs == [] then [] else FlatMap(f, xs[..|xs| - 1]) + f(xs[|xs| - 1])
  }

  lemma FlatMapSnoc<A, B>(f: A -> seq<B>, xs: seq<A>, x: A)
    ensures FlatMap(f, xs + [x]) == FlatMap(f, xs) + f(x)
  {
    assert (xs + [x])[..|xs + [x]| - 1] == xs;
  }

  lemma FlatMapEmpty<A, B>(f: A -> seq<B>)
    ensures FlatMap(f, []) == []
  {
  }

  lemma Associative<A>(a: seq<A>, b: seq<A>, c: seq<A>)
    ensures a + (b + c) == (a + b) + c
  {
  }

  lemma {:induction false} FlatMapConcat<A, B>(f: A -> seq<B>, xs: seq<A>, ys: seq<A>)
    ensures FlatMap(f, xs + ys) == FlatMap(f, xs) + FlatMap(f, ys)
  {
    hide *;
    if ys == [] {
      assert xs + ys == xs;
      FlatMapEmpty(f);
    } else {
      var init, y := ys[..|ys| - 1], ys[|ys| - 1];
      assert ys == init + [y];
      FlatMapConcat(f, xs, init);
      FlatMapSnoc(f, xs + init, y);
      FlatMapSnoc(f, init, y);
      Associative(xs, init, [y]);
      Associative(FlatMap(f, xs), FlatMap(f, init), f(y));
    }
  }
}
