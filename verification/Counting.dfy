/** Sums of what the members of a sequence hold. */
module Counting {

  function Sum<T, K(==)>(ps: seq<T>, f: T -> multiset<K>): multiset<K> {
    if ps == [] then multiset{} else Sum(ps[..|ps| - 1], f) + f(ps[|ps| - 1])
  }

  lemma {:induction false} SumSet<T, K>(ps: seq<T>, f: T -> multiset<K>, i: nat, p: T)
    requires i < |ps|
    ensures f(ps[i]) <= Sum(ps, f)
    ensures Sum(ps[i := p], f) == Sum(ps, f) - f(ps[i]) + f(p)
    decreases |ps|
  {
    var n := |ps| - 1;
    if i == n {
      assert ps[i := p][..n] == ps[..n];
      Exchange(f(ps[n]), Sum(ps[..n], f), f(ps[n]), f(p));
    } else {
      assert ps[i := p][..n] == ps[..n][i := p] && ps[..n][i] == ps[i];
      SumSet(ps[..n], f, i, p);
      Exchange(Sum(ps[..n], f), f(ps[n]), f(ps[i]), f(p));
    }
  }

  lemma {:induction false} SumAppend<T, K>(a: seq<T>, b: seq<T>, f: T -> multiset<K>)
    ensures Sum(a + b, f) == Sum(a, f) + Sum(b, f)
    decreases |b|
  {
    if b == [] {
      assert a + b == a;
    } else {
      assert (a + b)[..|a + b| - 1] == a + b[..|b| - 1];
      SumAppend(a, b[..|b| - 1], f);
    }
  }

  lemma Exchange<T>(a: multiset<T>, b: multiset<T>, x: multiset<T>, y: multiset<T>)
    requires x <= a
    ensures x <= a + b == b + a
    ensures (a - x + y) + b == (a + b) - x + y
    ensures b + (a - x + y) == (b + a) - x + y
  {
  }

  lemma {:induction false} SumTwo<T, K>(ps: seq<T>, f: T -> multiset<K>, i: nat, j: nat)
    requires i < j < |ps|
    ensures f(ps[i]) + f(ps[j]) <= Sum(ps, f)
    decreases |ps|
  {
    var n := |ps| - 1;
    if j == n {
      SumSet(ps[..n], f, i, ps[i]);
      assert ps[..n][i] == ps[i];
    } else {
      SumTwo(ps[..n], f, i, j);
      assert ps[..n][i] == ps[i] && ps[..n][j] == ps[j];
    }
  }
}
