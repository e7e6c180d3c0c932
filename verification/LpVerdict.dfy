/** Which grammars `verifygrammar` rejects: those with a rule that may come back to itself before it has to pass a
    character, and those that repeat a pattern which matches the empty string. */
module LpVerdict {
  import opened Peg
  import opened LpAnalysis
  import opened LpCodegen
  import opened LpVerify
  import opened LpBudget
  import LpChains

  // ---------- calls at the front ----------

  /** `t` may be passed without passing a character, a set, `Any` or `False`; at most `n` calls are nested. */
  predicate SkipsWithin(g: seq<Tree>, t: Tree, n: nat, d: nat)
    decreases n, t
  {
    match t
    case Char(_) => false
    case Set(_) => false
    case Any => false
    case False => false
    case Capture(p) => SkipsWithin(g, p, n, d)
    case Call(r) => n > 0 && r < |g| && SkipsWithin(g, g[r], n - 1, d)
    case Seq(p, q) => SkipsWithin(g, p, n, d) && SkipsWithin(g, q, n, d)
    case Choice(p, q) => SkipsWithin(g, p, n, d) || SkipsWithin(g, q, n, d)
    case Grammar(_) => Nullable(g, t, d)
    case _ => true
  }

  ghost predicate Skips(g: seq<Tree>, t: Tree, d: nat) { exists n: nat :: SkipsWithin(g, t, n, d) }

  /** A call of rule `r` stands in `t` where none of these has to be passed before it. */
  ghost predicate Fronts(g: seq<Tree>, t: Tree, r: nat, d: nat)
    decreases t, d
  {
    match t
    case Call(x) => x == r
    case Not(p) => Fronts(g, p, r, d)
    case And(p) => Fronts(g, p, r, d)
    case Rep(p) => Fronts(g, p, r, d)
    case Capture(p) => Fronts(g, p, r, d)
    case Seq(p, q) => Fronts(g, p, r, d) || (Skips(g, p, d) && Fronts(g, q, r, d))
    case Choice(p, q) => Fronts(g, p, r, d) || Fronts(g, q, r, d)
    case _ => false
  }

  /** `n` calls one inside the other, the first at the front of `t`, each other at the front of the rule called before. */
  ghost predicate Chain(g: seq<Tree>, t: Tree, n: nat, d: nat)
    decreases n
  {
    n == 0 || exists r: nat :: Enters(g, t, r, d) && Chain(g, g[r], n - 1, d)
  }

  ghost predicate Enters(g: seq<Tree>, t: Tree, r: nat, d: nat) { r < |g| && Fronts(g, t, r, d) }

  /** Every call names a rule. */
  predicate Bound(g: seq<Tree>, t: Tree)
    decreases t, 0
  {
    match t
    case Call(r) => r < |g|
    case Rep(p) => Bound(g, p)
    case Not(p) => Bound(g, p)
    case And(p) => Bound(g, p)
    case Capture(p) => Bound(g, p)
    case Behind(_, p) => Bound(g, p)
    case Seq(p, q) => Bound(g, p) && Bound(g, q)
    case Choice(p, q) => Bound(g, p) && Bound(g, q)
    case _ => true
  }

  ghost predicate AllBound(g: seq<Tree>) { forall k :: 0 <= k < |g| ==> Bound(g, g[k]) }

  lemma {:induction false} SkipsMore(g: seq<Tree>, t: Tree, n: nat, m: nat, d: nat)
    requires SkipsWithin(g, t, n, d) && n <= m
    ensures SkipsWithin(g, t, m, d)
    decreases n, t
  {
    match t
    case Capture(p) => SkipsMore(g, p, n, m, d);
    case Call(r) => SkipsMore(g, g[r], n - 1, m - 1, d);
    case Seq(p, q) =>
      SkipsMore(g, p, n, m, d);
      SkipsMore(g, q, n, m, d);
    case Choice(p, q) => if SkipsWithin(g, p, n, d) { SkipsMore(g, p, n, m, d); } else { SkipsMore(g, q, n, m, d); }
    case _ =>
  }

  lemma SkipsSeq(g: seq<Tree>, p: Tree, q: Tree, d: nat)
    ensures Skips(g, Seq(p, q), d) <==> Skips(g, p, d) && Skips(g, q, d)
  {
    if Skips(g, p, d) && Skips(g, q, d) {
      var n: nat :| SkipsWithin(g, p, n, d);
      var m: nat :| SkipsWithin(g, q, m, d);
      SkipsMore(g, p, n, n + m, d);
      SkipsMore(g, q, m, n + m, d);
      assert SkipsWithin(g, Seq(p, q), n + m, d);
    }
    if n: nat :| SkipsWithin(g, Seq(p, q), n, d) {
      assert SkipsWithin(g, p, n, d) && SkipsWithin(g, q, n, d);
    }
  }

  lemma SkipsChoice(g: seq<Tree>, p: Tree, q: Tree, d: nat)
    ensures Skips(g, Choice(p, q), d) <==> Skips(g, p, d) || Skips(g, q, d)
  {
    if n: nat :| SkipsWithin(g, p, n, d) { assert SkipsWithin(g, Choice(p, q), n, d); }
    if n: nat :| SkipsWithin(g, q, n, d) { assert SkipsWithin(g, Choice(p, q), n, d); }
    if n: nat :| SkipsWithin(g, Choice(p, q), n, d) {
      assert SkipsWithin(g, p, n, d) || SkipsWithin(g, q, n, d);
    }
  }

  lemma SkipsCall(g: seq<Tree>, r: nat, d: nat)
    requires r < |g|
    ensures Skips(g, Call(r), d) <==> Skips(g, g[r], d)
  {
    if n: nat :| SkipsWithin(g, g[r], n, d) { assert SkipsWithin(g, Call(r), n + 1, d); }
    if n: nat :| SkipsWithin(g, Call(r), n, d) { assert SkipsWithin(g, g[r], n - 1, d); }
  }

  lemma SkipsCapture(g: seq<Tree>, p: Tree, d: nat)
    ensures Skips(g, Capture(p), d) <==> Skips(g, p, d)
  {
    if n: nat :| SkipsWithin(g, p, n, d) { assert SkipsWithin(g, Capture(p), n, d); }
    if n: nat :| SkipsWithin(g, Capture(p), n, d) { assert SkipsWithin(g, p, n, d); }
  }

  lemma SkipsLeaf(g: seq<Tree>, t: Tree, d: nat)
    requires !t.Seq? && !t.Choice? && !t.Call? && !t.Capture?
    ensures Skips(g, t, d) <==> SkipsWithin(g, t, 0, d)
  {
    if n: nat :| SkipsWithin(g, t, n, d) { assert SkipsWithin(g, t, 0, d); }
  }

  /** Chains of a pattern made of parts. */
  lemma ChainUnder(g: seq<Tree>, t: Tree, p: Tree, n: nat, d: nat)
    requires n > 0 && (t == Not(p) || t == And(p) || t == Rep(p) || t == Capture(p))
    ensures Chain(g, t, n, d) <==> Chain(g, p, n, d)
  {
    assert forall r: nat :: Enters(g, t, r, d) <==> Enters(g, p, r, d);
  }

  lemma ChainSeq(g: seq<Tree>, p: Tree, q: Tree, n: nat, d: nat)
    requires n > 0
    ensures Chain(g, Seq(p, q), n, d) <==> Chain(g, p, n, d) || (Skips(g, p, d) && Chain(g, q, n, d))
  {
    assert forall r: nat :: Enters(g, Seq(p, q), r, d) <==> Enters(g, p, r, d) || (Skips(g, p, d) && Enters(g, q, r, d));
  }

  lemma ChainChoice(g: seq<Tree>, p: Tree, q: Tree, n: nat, d: nat)
    requires n > 0
    ensures Chain(g, Choice(p, q), n, d) <==> Chain(g, p, n, d) || Chain(g, q, n, d)
  {
    assert forall r: nat :: Enters(g, Choice(p, q), r, d) <==> Enters(g, p, r, d) || Enters(g, q, r, d);
  }

  lemma ChainCall(g: seq<Tree>, r: nat, n: nat, d: nat)
    requires n > 0 && r < |g|
    ensures Chain(g, Call(r), n, d) <==> Chain(g, g[r], n - 1, d)
  {
    assert Enters(g, Call(r), r, d);
  }

  // ---------- the verdict of verifyrule ----------

  /** The flag that `verifyrule` returns claims no more than there is: it was set before, or the pattern may be passed. */
  ghost predicate FlagTrue(g: seq<Tree>, t: Tree, nb: bool, v: Verdict, d: nat) {
    v == Accepts(true) ==> nb || Skips(g, t, d)
  }

  /** What is rejected with `left` rules to go has a chain of one call more. */
  lemma {:induction false} RejectedHasChain(g: seq<Tree>, t: Tree, left: nat, nb: bool, d: nat)
    requires AllBound(g) && Bound(g, t)
    ensures var v := VerifyRule(g, t, left, nb, d); (v == Rejected ==> Chain(g, t, left + 1, d)) && FlagTrue(g, t, nb, v, d)
    decreases left, t
  {
    match t
    case Not(p) => RejectedUnder(g, t, p, left, nb, d);
    case And(p) => RejectedUnder(g, t, p, left, nb, d);
    case Rep(p) => RejectedUnder(g, t, p, left, nb, d);
    case Capture(p) =>
      RejectedHasChain(g, p, left, nb, d);
      ChainUnder(g, t, p, left + 1, d);
      SkipsCapture(g, p, d);
    case Call(r) =>
      ChainCall(g, r, left + 1, d);
      SkipsCall(g, r, d);
      if left > 0 { RejectedHasChain(g, g[r], left - 1, nb, d); }
    case Seq(p, q) => RejectedSeq(g, p, q, left, nb, d);
    case Choice(p, q) => RejectedChoice(g, p, q, left, nb, d);
    case _ => SkipsLeaf(g, t, d);
  }

  lemma {:induction false} RejectedUnder(g: seq<Tree>, t: Tree, p: Tree, left: nat, nb: bool, d: nat)
    requires AllBound(g) && Bound(g, t) && (t == Not(p) || t == And(p) || t == Rep(p))
    ensures var v := VerifyRule(g, t, left, nb, d); (v == Rejected ==> Chain(g, t, left + 1, d)) && FlagTrue(g, t, nb, v, d)
    decreases left, t, 0
  {
    RejectedHasChain(g, p, left, true, d);
    ChainUnder(g, t, p, left + 1, d);
    SkipsLeaf(g, t, d);
  }

  lemma {:induction false} RejectedSeq(g: seq<Tree>, p: Tree, q: Tree, left: nat, nb: bool, d: nat)
    requires AllBound(g) && Bound(g, Seq(p, q))
    ensures var v := VerifyRule(g, Seq(p, q), left, nb, d);
      (v == Rejected ==> Chain(g, Seq(p, q), left + 1, d)) && FlagTrue(g, Seq(p, q), nb, v, d)
    decreases left, Seq(p, q), 0
  {
    RejectedHasChain(g, p, left, false, d);
    RejectedHasChain(g, q, left, nb, d);
    ChainSeq(g, p, q, left + 1, d);
    SkipsSeq(g, p, q, d);
  }

  lemma {:induction false} RejectedChoice(g: seq<Tree>, p: Tree, q: Tree, left: nat, nb: bool, d: nat)
    requires AllBound(g) && Bound(g, Choice(p, q))
    ensures var v := VerifyRule(g, Choice(p, q), left, nb, d);
      (v == Rejected ==> Chain(g, Choice(p, q), left + 1, d)) && FlagTrue(g, Choice(p, q), nb, v, d)
    decreases left, Choice(p, q), 0
  {
    RejectedHasChain(g, p, left, nb, d);
    var v := VerifyRule(g, p, left, nb, d);
    if v.Accepts? { RejectedHasChain(g, q, left, v.nb, d); }
    ChainChoice(g, p, q, left + 1, d);
    SkipsChoice(g, p, q, d);
  }

  /** The flag covers what there is, too, where it is kept. */
  ghost predicate FlagFull(g: seq<Tree>, t: Tree, nb: bool, v: Verdict, d: nat) {
    v.Accepts? && (nb || Skips(g, t, d)) ==> v.nb
  }

  /** What is accepted without losing the flag has no such chain. */
  lemma {:induction false} AcceptedHasNone(g: seq<Tree>, t: Tree, left: nat, nb: bool, d: nat)
    requires AllBound(g) && Bound(g, t) && NbKept(g, t, left, nb, d)
    ensures var v := VerifyRule(g, t, left, nb, d); (v.Accepts? ==> !Chain(g, t, left + 1, d)) && FlagFull(g, t, nb, v, d)
    decreases left, t
  {
    match t
    case Not(p) => AcceptedUnder(g, t, p, left, nb, d);
    case And(p) => AcceptedUnder(g, t, p, left, nb, d);
    case Rep(p) => AcceptedUnder(g, t, p, left, nb, d);
    case Capture(p) =>
      AcceptedHasNone(g, p, left, nb, d);
      ChainUnder(g, t, p, left + 1, d);
      SkipsCapture(g, p, d);
    case Call(r) =>
      ChainCall(g, r, left + 1, d);
      SkipsCall(g, r, d);
      if left > 0 { AcceptedHasNone(g, g[r], left - 1, nb, d); }
    case Seq(p, q) => AcceptedSeq(g, p, q, left, nb, d);
    case Choice(p, q) => AcceptedChoice(g, p, q, left, nb, d);
    case _ => SkipsLeaf(g, t, d);
  }

  lemma {:induction false} AcceptedUnder(g: seq<Tree>, t: Tree, p: Tree, left: nat, nb: bool, d: nat)
    requires AllBound(g) && Bound(g, t) && NbKept(g, t, left, nb, d) && (t == Not(p) || t == And(p) || t == Rep(p))
    ensures var v := VerifyRule(g, t, left, nb, d); (v.Accepts? ==> !Chain(g, t, left + 1, d)) && FlagFull(g, t, nb, v, d)
    decreases left, t, 0
  {
    AcceptedHasNone(g, p, left, true, d);
    ChainUnder(g, t, p, left + 1, d);
  }

  lemma {:induction false} AcceptedSeq(g: seq<Tree>, p: Tree, q: Tree, left: nat, nb: bool, d: nat)
    requires AllBound(g) && Bound(g, Seq(p, q)) && NbKept(g, Seq(p, q), left, nb, d)
    ensures var v := VerifyRule(g, Seq(p, q), left, nb, d);
      (v.Accepts? ==> !Chain(g, Seq(p, q), left + 1, d)) && FlagFull(g, Seq(p, q), nb, v, d)
    decreases left, Seq(p, q), 0
  {
    AcceptedHasNone(g, p, left, false, d);
    RejectedHasChain(g, p, left, false, d);
    if VerifyRule(g, p, left, false, d) == Accepts(true) { AcceptedHasNone(g, q, left, nb, d); }
    ChainSeq(g, p, q, left + 1, d);
    SkipsSeq(g, p, q, d);
  }

  lemma {:induction false} AcceptedChoice(g: seq<Tree>, p: Tree, q: Tree, left: nat, nb: bool, d: nat)
    requires AllBound(g) && Bound(g, Choice(p, q)) && NbKept(g, Choice(p, q), left, nb, d)
    ensures var v := VerifyRule(g, Choice(p, q), left, nb, d);
      (v.Accepts? ==> !Chain(g, Choice(p, q), left + 1, d)) && FlagFull(g, Choice(p, q), nb, v, d)
    decreases left, Choice(p, q), 0
  {
    AcceptedHasNone(g, p, left, nb, d);
    var v := VerifyRule(g, p, left, nb, d);
    if v.Accepts? { AcceptedHasNone(g, q, left, v.nb, d); }
    ChainChoice(g, p, q, left + 1, d);
    SkipsChoice(g, p, q, d);
  }

  /** `verifyrule` rejects exactly the patterns with a chain of more calls than there are rules to go, provided it
      nowhere loses its flag. */
  lemma RejectedIff(g: seq<Tree>, t: Tree, left: nat, nb: bool, d: nat)
    requires AllBound(g) && Bound(g, t) && NbKept(g, t, left, nb, d)
    ensures VerifyRule(g, t, left, nb, d) == Rejected <==> Chain(g, t, left + 1, d)
  {
    RejectedHasChain(g, t, left, nb, d);
    AcceptedHasNone(g, t, left, nb, d);
  }

  // ---------- left recursion ----------

  /** Rules that are called one at the front of the other, the first at the front of `t`. */
  ghost predicate Path(g: seq<Tree>, t: Tree, rs: seq<nat>, d: nat) {
    && (rs != [] ==> Enters(g, t, rs[0], d))
    && forall k :: 0 < k < |rs| ==> Linked(g, rs, k, d)
  }

  ghost predicate Linked(g: seq<Tree>, rs: seq<nat>, k: nat, d: nat)
    requires 0 < k < |rs|
  {
    rs[k - 1] < |g| && Enters(g, g[rs[k - 1]], rs[k], d)
  }

  /** Some rule that `t` may enter may come back to itself before a character has to be passed. */
  ghost predicate LeftRecursive(g: seq<Tree>, t: Tree, d: nat) {
    exists rs: seq<nat>, i: nat, j: nat :: Returns(g, t, rs, i, j, d)
  }

  ghost predicate Returns(g: seq<Tree>, t: Tree, rs: seq<nat>, i: nat, j: nat, d: nat) {
    i < j < |rs| && rs[i] == rs[j] && Path(g, t, rs, d)
  }

  lemma {:induction false} ChainPath(g: seq<Tree>, t: Tree, n: nat, d: nat) returns (rs: seq<nat>)
    requires Chain(g, t, n, d)
    ensures |rs| == n && Path(g, t, rs, d)
    decreases n
  {
    if n == 0 {
      rs := [];
    } else {
      var r: nat :| Enters(g, t, r, d) && Chain(g, g[r], n - 1, d);
      var rest := ChainPath(g, g[r], n - 1, d);
      rs := [r] + rest;
      forall k | 0 < k < |rs| ensures Linked(g, rs, k, d) {
        if k > 1 { assert Linked(g, rest, k - 1, d); }
      }
    }
  }

  lemma PathInside(g: seq<Tree>, t: Tree, rs: seq<nat>, k: nat, d: nat)
    requires Path(g, t, rs, d) && k < |rs|
    ensures rs[k] < |g|
  {
    if k > 0 { assert Linked(g, rs, k, d); }
  }

  /** From a rule that comes back to itself there are chains of any length. */
  lemma {:induction false} ReturnsChain(g: seq<Tree>, t: Tree, rs: seq<nat>, i: nat, j: nat, k: nat, n: nat, d: nat)
    requires Returns(g, t, rs, i, j, d) && i <= k < j
    ensures rs[k] < |g| && Chain(g, g[rs[k]], n, d)
    decreases n
  {
    PathInside(g, t, rs, k, d);
    if n > 0 {
      var x := rs[k + 1];
      assert Linked(g, rs, k + 1, d);
      ReturnsChain(g, t, rs, i, j, if k + 1 == j then i else k + 1, n - 1, d);
      assert Enters(g, g[rs[k]], x, d) && Chain(g, g[x], n - 1, d);
    }
  }

  lemma {:induction false} PathChain(g: seq<Tree>, t: Tree, rs: seq<nat>, k: nat, n: nat, d: nat)
    requires Path(g, t, rs, d) && k < |rs| && rs[k] < |g| && forall m: nat :: Chain(g, g[rs[k]], m, d)
    ensures Chain(g, t, n, d)
    decreases k
  {
    if n > 0 {
      if k == 0 {
        assert Enters(g, t, rs[0], d) && Chain(g, g[rs[0]], n - 1, d);
      } else {
        var x, y := rs[k - 1], rs[k];
        assert Linked(g, rs, k, d);
        forall m: nat ensures Chain(g, g[x], m, d) {
          if m > 0 { assert Enters(g, g[x], y, d) && Chain(g, g[y], m - 1, d); }
        }
        PathChain(g, t, rs, k - 1, n, d);
      }
    }
  }

  /** More calls than rules make one rule come back. */
  lemma ChainReturns(g: seq<Tree>, t: Tree, n: nat, d: nat)
    requires Chain(g, t, n, d) && n > |g|
    ensures LeftRecursive(g, t, d)
  {
    var rs := ChainPath(g, t, n, d);
    forall k | 0 <= k < |rs| ensures 0 <= rs[k] < |g| { PathInside(g, t, rs, k, d); }
    if i: nat, j: nat :| i < j < |rs| && rs[i] == rs[j] {
      assert Returns(g, t, rs, i, j, d);
    } else {
      LpChains.Pigeons(rs, |g|);
      assert false;
    }
  }

  /** A grammar has no more rules than may be passed.  A rule is rejected only if it may enter a left-recursive rule; */
  lemma RejectedRecursive(g: seq<Tree>, t: Tree, left: nat, nb: bool, d: nat)
    requires AllBound(g) && Bound(g, t) && |g| <= left && VerifyRule(g, t, left, nb, d) == Rejected
    ensures LeftRecursive(g, t, d)
  {
    RejectedHasChain(g, t, left, nb, d);
    ChainReturns(g, t, left + 1, d);
  }

  /** and if it may, it is, unless the flag is lost. */
  lemma RecursiveRejected(g: seq<Tree>, t: Tree, left: nat, nb: bool, d: nat)
    requires AllBound(g) && Bound(g, t) && NbKept(g, t, left, nb, d) && LeftRecursive(g, t, d)
    ensures VerifyRule(g, t, left, nb, d) == Rejected
  {
    RejectedIff(g, t, left, nb, d);
    RecursiveChain(g, t, left + 1, d);
  }

  lemma RecursiveChain(g: seq<Tree>, t: Tree, n: nat, d: nat)
    requires LeftRecursive(g, t, d)
    ensures Chain(g, t, n, d)
  {
    var rs: seq<nat>, i: nat, j: nat :| Returns(g, t, rs, i, j, d);
    forall n: nat ensures rs[i] < |g| && Chain(g, g[rs[i]], n, d) { ReturnsChain(g, t, rs, i, j, i, n, d); }
    PathInside(g, t, rs, i, d);
    PathChain(g, t, rs, i, n, d);
  }

  /** Every call in `t` stands behind a pattern of fixed, positive length. */
  predicate Guarded(g: seq<Tree>, t: Tree, d: nat)
    decreases t, d
  {
    match t
    case Call(_) => false
    case Not(p) => Guarded(g, p, d)
    case And(p) => Guarded(g, p, d)
    case Rep(p) => Guarded(g, p, d)
    case Capture(p) => Guarded(g, p, d)
    case Seq(p, q) => Guarded(g, p, d) && (FixedLen(g, p, d) > 0 || Guarded(g, q, d))
    case Choice(p, q) => Guarded(g, p, d) && Guarded(g, q, d)
    case _ => true
  }

  lemma {:induction false} LongNotNullable(g: seq<Tree>, t: Tree, d: nat)
    requires FixedLen(g, t, d) > 0
    ensures !Nullable(g, t, d)
    decreases d, t
  {
    match t
    case Capture(p) => LongNotNullable(g, p, d);
    case Grammar(rs) => LongNotNullable(rs, rs[0], d);
    case Call(r) => LongNotNullable(g, g[r], d - 1);
    case Seq(p, q) => if FixedLen(g, p, d) > 0 { LongNotNullable(g, p, d); } else { LongNotNullable(g, q, d); }
    case Choice(p, q) =>
      LongNotNullable(g, p, d);
      LongNotNullable(g, q, d);
    case _ =>
  }

  lemma {:induction false} LongNotSkipped(g: seq<Tree>, t: Tree, e: nat, n: nat, d: nat)
    requires FixedLen(g, t, e) > 0 && e <= d
    ensures !SkipsWithin(g, t, n, d)
    decreases n, t
  {
    match t
    case Capture(p) => LongNotSkipped(g, p, e, n, d);
    case Grammar(rs) =>
      LongNotNullable(g, t, e);
      if Nullable(g, t, d) { NullableLess(g, t, e, d); }
    case Call(r) => if n > 0 { LongNotSkipped(g, g[r], e - 1, n - 1, d); }
    case Seq(p, q) => if FixedLen(g, p, e) > 0 { LongNotSkipped(g, p, e, n, d); } else { LongNotSkipped(g, q, e, n, d); }
    case Choice(p, q) =>
      LongNotSkipped(g, p, e, n, d);
      LongNotSkipped(g, q, e, n, d);
    case _ =>
  }

  lemma {:induction false} GuardedFronts(g: seq<Tree>, t: Tree, r: nat, d: nat)
    requires Guarded(g, t, d)
    ensures !Fronts(g, t, r, d)
    decreases t
  {
    match t
    case Not(p) => GuardedFronts(g, p, r, d);
    case And(p) => GuardedFronts(g, p, r, d);
    case Rep(p) => GuardedFronts(g, p, r, d);
    case Capture(p) => GuardedFronts(g, p, r, d);
    case Seq(p, q) =>
      GuardedFronts(g, p, r, d);
      if FixedLen(g, p, d) > 0 {
        forall n: nat ensures !SkipsWithin(g, p, n, d) { LongNotSkipped(g, p, d, n, d); }
      } else {
        GuardedFronts(g, q, r, d);
      }
    case Choice(p, q) =>
      GuardedFronts(g, p, r, d);
      GuardedFronts(g, q, r, d);
    case _ =>
  }

  /** A pattern in which every call stands behind a pattern of fixed, positive length is never rejected for left
      recursion, whatever rules there are to go. */
  lemma GuardedAccepted(g: seq<Tree>, t: Tree, left: nat, nb: bool, d: nat)
    requires AllBound(g) && Bound(g, t) && Guarded(g, t, d)
    ensures VerifyRule(g, t, left, nb, d).Accepts?
  {
    RejectedHasChain(g, t, left, nb, d);
    if Chain(g, t, left + 1, d) {
      var r: nat :| Enters(g, t, r, d) && Chain(g, g[r], left, d);
      GuardedFronts(g, t, r, d);
    }
  }

  // ---------- empty loops ----------

  /** `x` is a part of `t`, outside the grammars in `t`. */
  predicate Inside(x: Tree, t: Tree)
    decreases t
  {
    x == t ||
    match t
    case Rep(p) => Inside(x, p)
    case Not(p) => Inside(x, p)
    case And(p) => Inside(x, p)
    case Capture(p) => Inside(x, p)
    case Behind(_, p) => Inside(x, p)
    case Seq(p, q) => Inside(x, p) || Inside(x, q)
    case Choice(p, q) => Inside(x, p) || Inside(x, q)
    case _ => false
  }

  /** What `checkloops` finds is the body of a repetition in `t`. */
  lemma {:induction false} LoopFound(g: seq<Tree>, t: Tree, d: nat) returns (p: Tree)
    requires CheckLoops(g, t, d)
    ensures Inside(Rep(p), t) && Nullable(g, p, d)
    decreases t
  {
    match t
    case Rep(q) => if Nullable(g, q, d) { p := q; } else { p := LoopFound(g, q, d); }
    case Not(q) => p := LoopFound(g, q, d);
    case And(q) => p := LoopFound(g, q, d);
    case Capture(q) => p := LoopFound(g, q, d);
    case Behind(_, q) => p := LoopFound(g, q, d);
    case Seq(q1, q2) => if CheckLoops(g, q1, d) { p := LoopFound(g, q1, d); } else { p := LoopFound(g, q2, d); }
    case Choice(q1, q2) => if CheckLoops(g, q1, d) { p := LoopFound(g, q1, d); } else { p := LoopFound(g, q2, d); }
  }

  /** No repetition with a nullable body is missed. */
  lemma {:induction false} LoopMet(g: seq<Tree>, t: Tree, p: Tree, d: nat)
    requires Inside(Rep(p), t) && Nullable(g, p, d)
    ensures CheckLoops(g, t, d)
    decreases t
  {
    if t != Rep(p) {
      match t
      case Rep(q) => LoopMet(g, q, p, d);
      case Not(q) => LoopMet(g, q, p, d);
      case And(q) => LoopMet(g, q, p, d);
      case Capture(q) => LoopMet(g, q, p, d);
      case Behind(_, q) => LoopMet(g, q, p, d);
      case Seq(q1, q2) => if Inside(Rep(p), q1) { LoopMet(g, q1, p, d); } else { LoopMet(g, q2, p, d); }
      case Choice(q1, q2) => if Inside(Rep(p), q1) { LoopMet(g, q1, p, d); } else { LoopMet(g, q2, p, d); }
    }
  }

  /** No predicate and no look-behind in the pattern, grammars included. */
  ghost predicate Plain(t: Tree)
    decreases t
  {
    match t
    case Not(_) => false
    case And(_) => false
    case Behind(_, _) => false
    case Rep(p) => Plain(p)
    case Capture(p) => Plain(p)
    case Seq(p, q) => Plain(p) && Plain(q)
    case Choice(p, q) => Plain(p) && Plain(q)
    case Grammar(rs) => forall k :: 0 <= k < |rs| ==> Plain(rs[k])
    case _ => true
  }

  ghost predicate AllPlain(g: seq<Tree>) { forall k :: 0 <= k < |g| ==> Plain(g[k]) }

  /** At the end of a subject a pattern without predicates answers what the analysis says: it matches exactly if it is
      nullable, and fails exactly if it is not. */
  lemma {:induction false} EndExact(g: seq<Tree>, t: Tree, d: nat, s: Subject, n: nat)
    requires AllPlain(g) && Plain(t) && CheckEnds(g, t, PEnullable, d) && Match(g, t, s, |s|, n) != Out
    ensures Match(g, t, s, |s|, n) == if Nullable(g, t, d) then Ok(|s|) else Fail
    decreases n
  {
    MatchRange(g, t, s, |s|, n);
    match t
    case Rep(p) => RepAnswers(g, p, s, |s|, n);
    case Seq(p, q) =>
      EndExact(g, p, d, s, n - 1);
      if Nullable(g, p, d) { EndExact(g, q, d, s, n - 1); }
    case Choice(p, q) =>
      MatchRange(g, p, s, |s|, n - 1);
      if Match(g, p, s, |s|, n - 1) == Fail { EndExact(g, q, d, s, n - 1); }
      if !Nullable(g, q, d) { EndExact(g, p, d, s, n - 1); }
    case Capture(p) => EndExact(g, p, d, s, n - 1);
    case Call(r) => if r < |g| { EndExact(g, g[r], d - 1, s, n - 1); }
    case Grammar(rs) => if rs != [] { EndExact(rs, rs[0], d, s, n - 1); }
    case _ =>
  }

  /** A pattern without predicates that has a meaning on the empty subject is nullable exactly if it matches that. */
  lemma NullableExact(g: seq<Tree>, t: Tree, d: nat)
    requires AllPlain(g) && Plain(t) && CheckEnds(g, t, PEnullable, d)
    requires exists r :: Means(g, t, [], 0, r)
    ensures Nullable(g, t, d) <==> Means(g, t, [], 0, Ok(0))
  {
    var r :| Means(g, t, [], 0, r);
    var n: nat :| Match(g, t, [], 0, n) == r;
    EndExact(g, t, d, [], n);
    if m: nat :| Match(g, t, [], 0, m) == Ok(0) { EndExact(g, t, d, [], m); }
  }

  /** A repetition of a nullable pattern without predicates never ends at the end of a subject. */
  lemma {:induction false} EmptyLoop(g: seq<Tree>, p: Tree, d: nat, s: Subject, n: nat)
    requires AllPlain(g) && Plain(p) && CheckEnds(g, p, PEnullable, d) && Nullable(g, p, d)
    ensures Match(g, Rep(p), s, |s|, n) == Out
    decreases n
  {
    if n > 0 {
      if Match(g, p, s, |s|, n - 1) != Out { EndExact(g, p, d, s, n - 1); }
      EmptyLoop(g, p, d, s, n - 1);
    }
  }

  lemma {:induction false} InsidePlain(x: Tree, t: Tree)
    requires Inside(x, t) && Plain(t)
    ensures Plain(x)
    decreases t
  {
    if x != t {
      match t
      case Rep(p) => InsidePlain(x, p);
      case Capture(p) => InsidePlain(x, p);
      case Seq(p, q) => if Inside(x, p) { InsidePlain(x, p); } else { InsidePlain(x, q); }
      case Choice(p, q) => if Inside(x, p) { InsidePlain(x, p); } else { InsidePlain(x, q); }
    }
  }

  /** The analysis of every repeated body comes to an end. */
  ghost predicate BodiesEnd(g: seq<Tree>, t: Tree, d: nat) {
    forall p :: Inside(Rep(p), t) ==> CheckEnds(g, p, PEnullable, d)
  }

  /** A rule without predicates is rejected for an empty loop only if it has one: a repetition in it that does not end
      on the empty subject, nor at the end of any other. */
  lemma LoopIsEmpty(g: seq<Tree>, t: Tree, d: nat) returns (p: Tree)
    requires AllPlain(g) && Plain(t) && BodiesEnd(g, t, d) && CheckLoops(g, t, d)
    ensures Inside(Rep(p), t) && forall s, n: nat :: Match(g, Rep(p), s, |s|, n) == Out
  {
    p := LoopFound(g, t, d);
    InsidePlain(Rep(p), t);
    forall s, n: nat ensures Match(g, Rep(p), s, |s|, n) == Out { EmptyLoop(g, p, d, s, n); }
  }

  // ---------- the verdict of verifygrammar ----------

  /** No repetition in `t` has a nullable body. */
  ghost predicate NoEmptyLoop(g: seq<Tree>, t: Tree, d: nat) {
    forall p :: Inside(Rep(p), t) ==> !Nullable(g, p, d)
  }

  lemma LoopsIff(g: seq<Tree>, t: Tree, d: nat)
    ensures CheckLoops(g, t, d) <==> !NoEmptyLoop(g, t, d)
  {
    if CheckLoops(g, t, d) { var p := LoopFound(g, t, d); }
    if p :| Inside(Rep(p), t) && Nullable(g, p, d) { LoopMet(g, t, p, d); }
  }

  /** `verifygrammar` accepts exactly the grammars in which no rule in use may enter a left-recursive rule or repeats a
      nullable pattern, provided it nowhere loses its flag. */
  lemma VerifiedIff(g: seq<Tree>, d: nat)
    requires AllBound(g) && |g| <= MAXRULES
    requires forall r: nat :: r < |g| && Used(g, r) ==> NbKept(g, g[r], MAXRULES, false, d)
    ensures Verified(g, d) <==>
            forall r: nat :: r < |g| && Used(g, r) ==> !LeftRecursive(g, g[r], d) && NoEmptyLoop(g, g[r], d)
  {
    forall r: nat | r < |g| && Used(g, r)
      ensures VerifyRule(g, g[r], MAXRULES, false, d) == Rejected <==> LeftRecursive(g, g[r], d)
      ensures CheckLoops(g, g[r], d) <==> !NoEmptyLoop(g, g[r], d)
    {
      if VerifyRule(g, g[r], MAXRULES, false, d) == Rejected { RejectedRecursive(g, g[r], MAXRULES, false, d); }
      if LeftRecursive(g, g[r], d) { RecursiveRejected(g, g[r], MAXRULES, false, d); }
      LoopsIff(g, g[r], d);
    }
  }

  /** The analysis of every grammar in `t`, which has passed its own check, comes to an end. */
  predicate SubsEnd(t: Tree, d: nat)
    decreases t, d
  {
    match t
    case Rep(p) => SubsEnd(p, d)
    case Not(p) => SubsEnd(p, d)
    case And(p) => SubsEnd(p, d)
    case Capture(p) => SubsEnd(p, d)
    case Behind(_, p) => SubsEnd(p, d)
    case Seq(p, q) => SubsEnd(p, d) && SubsEnd(q, d)
    case Choice(p, q) => SubsEnd(p, d) && SubsEnd(q, d)
    case Grammar(_) => CheckEnds([], t, PEnullable, d)
    case _ => true
  }

  ghost predicate AllSubsEnd(g: seq<Tree>, d: nat) { forall k :: 0 <= k < |g| ==> SubsEnd(g[k], d) }

  /** Without a chain of more than `n` calls, the analysis comes to an end, and what is nullable may be passed. */
  lemma {:induction false} ChainlessEnds(g: seq<Tree>, t: Tree, n: nat, d: nat, e: nat)
    requires AllBound(g) && Bound(g, t) && AllSubsEnd(g, d) && SubsEnd(t, d) && d <= e && !Chain(g, t, n + 1, e)
    ensures CheckEnds(g, t, PEnullable, n + d) && (Nullable(g, t, n + d) ==> Skips(g, t, e))
    decreases n, t
  {
    match t
    case Capture(p) =>
      ChainUnder(g, t, p, n + 1, e);
      SkipsCapture(g, p, e);
      ChainlessEnds(g, p, n, d, e);
    case Call(r) =>
      ChainCall(g, r, n + 1, e);
      SkipsCall(g, r, e);
      ChainlessEnds(g, g[r], n - 1, d, e);
    case Seq(p, q) => ChainlessSeq(g, p, q, n, d, e);
    case Choice(p, q) => ChainlessChoice(g, p, q, n, d, e);
    case Grammar(rs) =>
      SkipsLeaf(g, t, e);
      SubMore(g, t, d, n + d);
      SubMore(g, t, d, e);
    case _ => SkipsLeaf(g, t, e);
  }

  lemma SubMore(g: seq<Tree>, t: Tree, d: nat, e: nat)
    requires t.Grammar? && SubsEnd(t, d) && d <= e
    ensures CheckEnds(g, t, PEnullable, e) && Nullable(g, t, e) == Nullable([], t, d)
  {
    CheckMore([], t, PEnullable, d, e);
  }

  lemma {:induction false} ChainlessSeq(g: seq<Tree>, p: Tree, q: Tree, n: nat, d: nat, e: nat)
    requires AllBound(g) && Bound(g, Seq(p, q)) && AllSubsEnd(g, d) && SubsEnd(Seq(p, q), d) && d <= e
    requires !Chain(g, Seq(p, q), n + 1, e)
    ensures var t := Seq(p, q); CheckEnds(g, t, PEnullable, n + d) && (Nullable(g, t, n + d) ==> Skips(g, t, e))
    decreases n, Seq(p, q), 0
  {
    ChainSeq(g, p, q, n + 1, e);
    SkipsSeq(g, p, q, e);
    ChainlessEnds(g, p, n, d, e);
    if Nullable(g, p, n + d) { ChainlessEnds(g, q, n, d, e); }
  }

  lemma {:induction false} ChainlessChoice(g: seq<Tree>, p: Tree, q: Tree, n: nat, d: nat, e: nat)
    requires AllBound(g) && Bound(g, Choice(p, q)) && AllSubsEnd(g, d) && SubsEnd(Choice(p, q), d) && d <= e
    requires !Chain(g, Choice(p, q), n + 1, e)
    ensures var t := Choice(p, q); CheckEnds(g, t, PEnullable, n + d) && (Nullable(g, t, n + d) ==> Skips(g, t, e))
    decreases n, Choice(p, q), 0
  {
    ChainChoice(g, p, q, n + 1, e);
    SkipsChoice(g, p, q, e);
    ChainlessEnds(g, p, n, d, e);
    ChainlessEnds(g, q, n, d, e);
  }

  lemma {:induction false} FrontsCall(g: seq<Tree>, t: Tree, r: nat, d: nat)
    requires Fronts(g, t, r, d) && r < |g|
    ensures r in CallsIn(t, |g|)
    decreases t
  {
    match t
    case Not(p) => FrontsCall(g, p, r, d);
    case And(p) => FrontsCall(g, p, r, d);
    case Rep(p) => FrontsCall(g, p, r, d);
    case Capture(p) => FrontsCall(g, p, r, d);
    case Seq(p, q) => if Fronts(g, p, r, d) { FrontsCall(g, p, r, d); } else { FrontsCall(g, q, r, d); }
    case Choice(p, q) => if Fronts(g, p, r, d) { FrontsCall(g, p, r, d); } else { FrontsCall(g, q, r, d); }
    case _ =>
  }

  /** A part of a rule calls only what the rule calls, and so on. */
  lemma {:induction false} InsideParts(g: seq<Tree>, x: Tree, t: Tree, d: nat)
    requires Inside(x, t) && Bound(g, t) && SubsEnd(t, d)
    ensures Bound(g, x) && SubsEnd(x, d) && CallsIn(x, |g|) <= CallsIn(t, |g|)
    decreases t
  {
    if x != t {
      match t
      case Rep(p) => InsideParts(g, x, p, d);
      case Not(p) => InsideParts(g, x, p, d);
      case And(p) => InsideParts(g, x, p, d);
      case Capture(p) => InsideParts(g, x, p, d);
      case Behind(_, p) => InsideParts(g, x, p, d);
      case Seq(p, q) => if Inside(x, p) { InsideParts(g, x, p, d); } else { InsideParts(g, x, q, d); }
      case Choice(p, q) => if Inside(x, p) { InsideParts(g, x, p, d); } else { InsideParts(g, x, q, d); }
    }
  }

  /** Once no rule in use may enter a left-recursive rule, the analysis of every repeated body comes to an end. */
  lemma BodyEnds(g: seq<Tree>, r: nat, p: Tree, d: nat, e: nat)
    requires AllBound(g) && AllSubsEnd(g, d) && |g| <= MAXRULES && e == MAXRULES + 1 + d
    requires forall k: nat :: k < |g| && Used(g, k) ==> !LeftRecursive(g, g[k], e)
    requires r < |g| && Inside(Rep(p), g[r])
    ensures CheckEnds(g, p, PEnullable, e)
  {
    InsideParts(g, Rep(p), g[r], d);
    if Chain(g, p, MAXRULES + 2, e) {
      var k: nat :| Enters(g, p, k, e) && Chain(g, g[k], MAXRULES + 1, e);
      FrontsCall(g, p, k, e);
      assert Used(g, k);
      ChainReturns(g, g[k], MAXRULES + 1, e);
      assert false;
    }
    ChainlessEnds(g, p, MAXRULES + 1, d, e);
  }

  /** A repetition in `t` that does not end on the empty subject, nor at the end of any other. */
  ghost predicate Endless(g: seq<Tree>, t: Tree) {
    exists p :: Inside(Rep(p), t) && forall s, n: nat :: Match(g, Rep(p), s, |s|, n) == Out
  }

  /** A grammar without predicates is rejected only for a fault: a rule in use may enter a left-recursive rule, or has a
      repetition that does not end on the empty subject. */
  lemma RejectedForFault(g: seq<Tree>, d: nat, e: nat)
    requires AllBound(g) && AllPlain(g) && AllSubsEnd(g, d) && |g| <= MAXRULES && e == MAXRULES + 1 + d && !Verified(g, e)
    ensures exists r: nat :: r < |g| && Used(g, r) && (LeftRecursive(g, g[r], e) || Endless(g, g[r]))
  {
    var r: nat :| r < |g| && Used(g, r) && (VerifyRule(g, g[r], MAXRULES, false, e) == Rejected || CheckLoops(g, g[r], e));
    if k: nat :| k < |g| && Used(g, k) && LeftRecursive(g, g[k], e) {
    } else {
      if VerifyRule(g, g[r], MAXRULES, false, e) == Rejected {
        RejectedRecursive(g, g[r], MAXRULES, false, e);
        assert false;
      }
      forall p | Inside(Rep(p), g[r]) ensures CheckEnds(g, p, PEnullable, e) { BodyEnds(g, r, p, d, e); }
      var p := LoopIsEmpty(g, g[r], e);
      assert Endless(g, g[r]);
    }
  }
}
