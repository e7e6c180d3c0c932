/** What the moves of a run do, one after the other. */
module Histories {

  /** What the first `k` moves do, in order; move `j` is made in state `ss[j]`. */
  ghost function Along<S, M, T>(ss: seq<S>, ms: seq<M>, k: nat, f: (S, M) -> seq<T>): seq<T>
    requires k <= |ms| && k <= |ss|
  {
    if k == 0 then [] else Along(ss, ms, k - 1, f) + f(ss[k - 1], ms[k - 1])
  }

  /** Move `j` takes what is asked for into hand, and gives out of hand what is done. */
  ghost predicate KeepsCount<S, M, T>(s: S, m: M, s': S, asks: (S, M) -> seq<T>, done: (S, M) -> seq<T>, held: S -> multiset<T>) {
    held(s') + multiset(done(s, m)) == held(s) + multiset(asks(s, m))
  }

  /** What is asked for is done or still in hand, each as often as it is asked for. */
  lemma {:induction false} CountAlong<S, M, T>(ss: seq<S>, ms: seq<M>, k: nat, asks: (S, M) -> seq<T>, done: (S, M) -> seq<T>,
                                            held: S -> multiset<T>)
    requires k < |ss| == |ms| + 1 && held(ss[0]) == multiset{}
    requires forall j :: 0 <= j < |ms| ==> KeepsCount(ss[j], ms[j], ss[j + 1], asks, done, held)
    ensures multiset(Along(ss, ms, k, asks)) == multiset(Along(ss, ms, k, done)) + held(ss[k])
  {
    if k > 0 {
      CountAlong(ss, ms, k - 1, asks, done, held);
      var s, m := ss[k - 1], ms[k - 1];
      assert KeepsCount(s, m, ss[k - 1 + 1], asks, done, held);
      Tally(multiset(Along(ss, ms, k - 1, asks)), multiset(Along(ss, ms, k - 1, done)), held(s),
            multiset(asks(s, m)), multiset(done(s, m)), held(ss[k]));
    }
  }

  lemma Tally<T>(a: multiset<T>, d: multiset<T>, n: multiset<T>, da: multiset<T>, dd: multiset<T>, n': multiset<T>)
    requires a == d + n && n' + dd == n + da
    ensures a + da == (d + dd) + n'
  {
    forall k ensures (a + da)[k] == ((d + dd) + n')[k] {
      assert a[k] == (d + n)[k] && (n' + dd)[k] == (n + da)[k];
    }
  }

  /** The same in order. */
  ghost predicate KeepsOrder<S, M, T>(s: S, m: M, s': S, asks: (S, M) -> seq<T>, done: (S, M) -> seq<T>, held: S -> seq<T>) {
    held(s) + asks(s, m) == done(s, m) + held(s')
  }

  /** What is asked for is done in that order; the rest is in hand. */
  lemma {:induction false} OrderAlong<S, M, T>(ss: seq<S>, ms: seq<M>, k: nat, asks: (S, M) -> seq<T>, done: (S, M) -> seq<T>,
                                            held: S -> seq<T>)
    requires k < |ss| == |ms| + 1 && held(ss[0]) == []
    requires forall j :: 0 <= j < |ms| ==> KeepsOrder(ss[j], ms[j], ss[j + 1], asks, done, held)
    ensures Along(ss, ms, k, asks) == Along(ss, ms, k, done) + held(ss[k])
  {
    if k > 0 {
      OrderAlong(ss, ms, k - 1, asks, done, held);
      var s, m := ss[k - 1], ms[k - 1];
      assert KeepsOrder(s, m, ss[k - 1 + 1], asks, done, held);
      Follows(Along(ss, ms, k - 1, asks), Along(ss, ms, k - 1, done), held(s), asks(s, m), done(s, m), held(ss[k]));
    }
  }

  lemma Follows<T>(a: seq<T>, d: seq<T>, n: seq<T>, da: seq<T>, dd: seq<T>, n': seq<T>)
    requires a == d + n && n + da == dd + n'
    ensures a + da == (d + dd) + n'
  {
    assert a + da == d + (n + da);
    assert (d + dd) + n' == d + (dd + n');
  }

  /** The move adds to a log what it does. */
  ghost predicate KeepsLog<S, M, T>(s: S, m: M, s': S, does: (S, M) -> seq<T>, log: S -> seq<T>) {
    log(s') == log(s) + does(s, m)
  }

  /** A log that is empty at first holds what the moves do, in order, and nothing else. */
  lemma {:induction false} LogAlong<S, M, T>(ss: seq<S>, ms: seq<M>, k: nat, does: (S, M) -> seq<T>, log: S -> seq<T>)
    requires k < |ss| == |ms| + 1 && log(ss[0]) == []
    requires forall j :: 0 <= j < |ms| ==> KeepsLog(ss[j], ms[j], ss[j + 1], does, log)
    ensures log(ss[k]) == Along(ss, ms, k, does)
  {
    if k > 0 {
      LogAlong(ss, ms, k - 1, does, log);
      assert KeepsLog(ss[k - 1], ms[k - 1], ss[k - 1 + 1], does, log);
    }
  }

  function Last<T>(x: T, xs: seq<T>): T { if xs == [] then x else xs[|xs| - 1] }

  /** What a state shows is set by some moves and left alone by the others. */
  ghost predicate Shows<S, M, T>(s: S, m: M, s': S, does: (S, M) -> seq<T>, shown: S -> T) {
    |does(s, m)| <= 1 && shown(s') == Last(shown(s), does(s, m))
  }

  /** A state shows what was set last. */
  lemma {:induction false} LastAlong<S, M, T>(ss: seq<S>, ms: seq<M>, k: nat, does: (S, M) -> seq<T>, shown: S -> T)
    requires k < |ss| == |ms| + 1
    requires forall j :: 0 <= j < |ms| ==> Shows(ss[j], ms[j], ss[j + 1], does, shown)
    ensures shown(ss[k]) == Last(shown(ss[0]), Along(ss, ms, k, does))
  {
    if k > 0 {
      LastAlong(ss, ms, k - 1, does, shown);
      assert Shows(ss[k - 1], ms[k - 1], ss[k - 1 + 1], does, shown);
    }
  }
}
