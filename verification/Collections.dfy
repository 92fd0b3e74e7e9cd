/** Sequence combinators used by the table models: the row-wise expansion behind a join,
    and sums over rows. */
module Collections {

  datatype Option<+T> = None | Some(value: T)

  /** Replaces every element by a block of elements and concatenates the blocks in order. */
  function FlatMap<A, B>(xs: seq<A>, f: A -> seq<B>): (ys: seq<B>) {
    if xs == [] then [] else f(xs[0]) + FlatMap(xs[1..], f)
  }

  function Sum<A>(xs: seq<A>, weight: A -> int): (total: int) {
    if xs == [] then 0 else weight(xs[0]) + Sum(xs[1..], weight)
  }

  predicate NoDup<A(==)>(xs: seq<A>) {
    forall i, j | 0 <= i < j < |xs| :: xs[i] != xs[j]
  }

  lemma {:induction false} FlatMapConcat<A, B>(xs: seq<A>, ys: seq<A>, f: A -> seq<B>)
    ensures FlatMap(xs + ys, f) == FlatMap(xs, f) + FlatMap(ys, f)
  {
    if xs == [] {
      assert xs + ys == ys;
    } else {
      assert (xs + ys)[1..] == xs[1..] + ys;
      FlatMapConcat(xs[1..], ys, f);
    }
  }

  lemma FlatMapOne<A, B>(x: A, f: A -> seq<B>)
    ensures FlatMap([x], f) == f(x)
  {
    assert FlatMap([x], f) == f(x) + FlatMap([x][1..], f);
  }

  lemma {:induction false} FlatMapCong<A, B>(xs: seq<A>, f: A -> seq<B>, g: A -> seq<B>)
    requires forall x | x in xs :: f(x) == g(x)
    ensures FlatMap(xs, f) == FlatMap(xs, g)
  {
    if xs != [] {
      FlatMapCong(xs[1..], f, g);
    }
  }

  lemma {:induction false} FlatMapPointwise<A, B, C>(xs: seq<A>, ys: seq<B>, f: A -> seq<C>, g: B -> seq<C>)
    requires |xs| == |ys| && forall i | 0 <= i < |xs| :: f(xs[i]) == g(ys[i])
    ensures FlatMap(xs, f) == FlatMap(ys, g)
  {
    if xs != [] {
      assert forall i | 0 <= i < |xs[1..]| :: xs[1..][i] == xs[i + 1] && ys[1..][i] == ys[i + 1];
      FlatMapPointwise(xs[1..], ys[1..], f, g);
    }
  }

  /** Expanding twice is expanding once by the composed expansion. */
  lemma {:induction false} FlatMapAssoc<A, B, C>(xs: seq<A>, f: A -> seq<B>, g: B -> seq<C>, h: A -> seq<C>)
    requires forall x | x in xs :: h(x) == FlatMap(f(x), g)
    ensures FlatMap(FlatMap(xs, f), g) == FlatMap(xs, h)
  {
    if xs != [] {
      FlatMapConcat(f(xs[0]), FlatMap(xs[1..], f), g);
      FlatMapAssoc(xs[1..], f, g, h);
    }
  }

  lemma OneMore(k: nat, c: int)
    requires k > 0
    ensures k * c == c + (k - 1) * c
  {
  }

  lemma {:induction false} FlatMapUniform<A, B>(xs: seq<A>, f: A -> seq<B>, n: nat)
    requires forall x | x in xs :: |f(x)| == n
    ensures |FlatMap(xs, f)| == |xs| * n
  {
    if xs != [] {
      FlatMapUniform(xs[1..], f, n);
      OneMore(|xs|, n);
    }
  }

  lemma {:induction false} FlatMapMember<A, B>(xs: seq<A>, f: A -> seq<B>, y: B)
    ensures y in FlatMap(xs, f) <==> exists x :: x in xs && y in f(x)
  {
    if xs != [] {
      FlatMapMember(xs[1..], f, y);
      assert forall x :: x in xs <==> x == xs[0] || x in xs[1..];
    }
  }

  lemma {:induction false} SumConcat<A>(xs: seq<A>, ys: seq<A>, w: A -> int)
    ensures Sum(xs + ys, w) == Sum(xs, w) + Sum(ys, w)
  {
    if xs == [] {
      assert xs + ys == ys;
    } else {
      assert (xs + ys)[1..] == xs[1..] + ys;
      SumConcat(xs[1..], ys, w);
    }
  }

  lemma {:induction false} SumCong<A>(xs: seq<A>, v: A -> int, w: A -> int)
    requires forall x | x in xs :: v(x) == w(x)
    ensures Sum(xs, v) == Sum(xs, w)
  {
    if xs != [] {
      SumCong(xs[1..], v, w);
    }
  }

  lemma {:induction false} SumAdd<A>(xs: seq<A>, u: A -> int, v: A -> int, w: A -> int)
    requires forall x | x in xs :: w(x) == u(x) + v(x)
    ensures Sum(xs, w) == Sum(xs, u) + Sum(xs, v)
  {
    if xs != [] {
      SumAdd(xs[1..], u, v, w);
    }
  }

  /** The sum over an expanded table is the sum of the block sums. */
  lemma {:induction false} SumFlatMap<A, B>(xs: seq<A>, f: A -> seq<B>, w: B -> int, v: A -> int)
    requires forall x | x in xs :: v(x) == Sum(f(x), w)
    ensures Sum(FlatMap(xs, f), w) == Sum(xs, v)
  {
    if xs != [] {
      SumConcat(f(xs[0]), FlatMap(xs[1..], f), w);
      SumFlatMap(xs[1..], f, w, v);
    }
  }

  lemma {:induction false} SumUniform<A>(xs: seq<A>, w: A -> int, c: int)
    requires forall x | x in xs :: w(x) == c
    ensures Sum(xs, w) == |xs| * c
  {
    if xs != [] {
      SumUniform(xs[1..], w, c);
      OneMore(|xs|, c);
    }
  }

  /** Pointwise comparison carries over to sums, and the sums agree only when every term does. */
  lemma {:induction false} SumCompare<A>(xs: seq<A>, v: A -> int, w: A -> int)
    requires forall x | x in xs :: v(x) <= w(x)
    ensures Sum(xs, v) <= Sum(xs, w)
    ensures Sum(xs, v) == Sum(xs, w) <==> forall x | x in xs :: v(x) == w(x)
  {
    if xs != [] {
      SumCompare(xs[1..], v, w);
      assert forall x :: x in xs <==> x == xs[0] || x in xs[1..];
    }
  }

  /** The sum over the rows of one group. */
  function GroupSum<A, K(==)>(rows: seq<A>, key: A -> K, k: K, w: A -> int): int {
    if rows == [] then 0 else (if key(rows[0]) == k then w(rows[0]) else 0) + GroupSum(rows[1..], key, k, w)
  }

  lemma {:induction false} GroupSumIs<A, K>(rows: seq<A>, key: A -> K, k: K, w: A -> int, g: A -> int)
    requires forall r | r in rows :: g(r) == if key(r) == k then w(r) else 0
    ensures GroupSum(rows, key, k, w) == Sum(rows, g)
  {
    if rows != [] {
      GroupSumIs(rows[1..], key, k, w, g);
    }
  }

  /** Summing group by group over distinct keys adds up exactly the rows whose key is listed. */
  lemma {:induction false} SumByKey<A, K>(rows: seq<A>, ks: seq<K>, key: A -> K, w: A -> int,
                                          group: K -> int, listed: A -> int)
    requires NoDup(ks)
    requires forall k | k in ks :: group(k) == GroupSum(rows, key, k, w)
    requires forall r | r in rows :: listed(r) == if key(r) in ks then w(r) else 0
    ensures Sum(ks, group) == Sum(rows, listed)
  {
    if ks == [] {
      SumUniform(rows, listed, 0);
    } else {
      var k, rest := ks[0], ks[1..];
      var inRest := (r: A) => if key(r) in rest then w(r) else 0;
      var isFirst := (r: A) => if key(r) == k then w(r) else 0;
      assert forall x :: x in ks <==> x == k || x in rest;
      SumByKey(rows, rest, key, w, group, inRest);
      GroupSumIs(rows, key, k, w, isFirst);
      SumAdd(rows, isFirst, inRest, listed);
    }
  }
}
