/** Two listings of the same elements, taken apart element by element. */
module Reordering {

  lemma WithoutOne<T>(xs: seq<T>, i: nat)
    requires i < |xs|
    ensures multiset(xs[..i] + xs[i + 1..]) == multiset(xs) - multiset{xs[i]}
  {
    assert xs == xs[..i] + [xs[i]] + xs[i + 1..];
  }

  /** Where the first element of one listing stands in another. */
  lemma Partner<T>(xs: seq<T>, ys: seq<T>) returns (i: nat)
    requires xs != [] && multiset(xs) == multiset(ys)
    ensures i < |ys| && ys[i] == xs[0]
    ensures multiset(xs[..0] + xs[1..]) == multiset(ys[..i] + ys[i + 1..])
  {
    assert xs[0] in multiset(ys);
    i :| 0 <= i < |ys| && ys[i] == xs[0];
    WithoutOne(xs, 0);
    WithoutOne(ys, i);
  }

  lemma PutBack<T>(xs: seq<T>, ys: seq<T>, i: nat, k: nat)
    requires i < |xs| && k < |ys| && xs[i] == ys[k]
    requires multiset(xs) - multiset{xs[i]} == multiset(ys) - multiset{ys[k]}
    ensures multiset(xs) == multiset(ys)
  {
    assert xs[i] in multiset(xs) && ys[k] in multiset(ys);
    assert multiset(xs) == multiset(xs) - multiset{xs[i]} + multiset{xs[i]};
    assert multiset(ys) == multiset(ys) - multiset{ys[k]} + multiset{ys[k]};
  }

  lemma SameLength<T>(xs: seq<T>, ys: seq<T>)
    requires multiset(xs) == multiset(ys)
    ensures |xs| == |ys|
  {
    assert |xs| == |multiset(xs)| == |ys|;
  }

  /** `us` gives what `m` says of each element of `xs`. */
  ghost predicate Follows<T, U>(m: map<T, U>, xs: seq<T>, us: seq<U>) {
    |us| == |xs| && forall i :: 0 <= i < |xs| ==> xs[i] in m && us[i] == m[xs[i]]
  }

  /** Reordering a list reorders what is computed element by element. */
  lemma {:induction false} ReorderedAlike<T, U>(m: map<T, U>, xs: seq<T>, ys: seq<T>, us: seq<U>, vs: seq<U>)
    requires multiset(xs) == multiset(ys) && Follows(m, xs, us) && Follows(m, ys, vs)
    ensures multiset(us) == multiset(vs)
    decreases |xs|
  {
    SameLength(xs, ys);
    if xs != [] {
      var i := Partner(xs, ys);
      ReorderedAlike(m, xs[..0] + xs[1..], ys[..i] + ys[i + 1..], us[..0] + us[1..], vs[..i] + vs[i + 1..]);
      WithoutOne(us, 0);
      WithoutOne(vs, i);
      PutBack(us, vs, 0, i);
    } else {
      assert us == vs == [];
    }
  }
}
