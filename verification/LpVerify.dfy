/** `verifyrule`, `checkloops` and `verifygrammar` of lptree.c, and what they guarantee:
    matching an accepted grammar terminates. */
module LpVerify {
  import opened Peg
  import opened LpAnalysis
  import opened LpCodegen

  datatype Verdict = Rejected | Accepts(nb: bool)

  /** `verifyrule`; `left` is how many more rules may be entered before the pattern is
      rejected (MAXRULES - npassed). */
  function VerifyRule(g: seq<Tree>, t: Tree, left: nat, nb: bool, d: nat): Verdict
    decreases left, t
  {
    match t
    case Char(_) => Accepts(nb)
    case Set(_) => Accepts(nb)
    case Any => Accepts(nb)
    case False => Accepts(nb)
    case True => Accepts(true)
    case Behind(_, _) => Accepts(true)
    case Not(p) => VerifyRule(g, p, left, true, d)
    case And(p) => VerifyRule(g, p, left, true, d)
    case Rep(p) => VerifyRule(g, p, left, true, d)
    case Capture(p) => VerifyRule(g, p, left, nb, d)
    case Call(r) =>
      if left == 0 || r >= |g| then Rejected else VerifyRule(g, g[r], left - 1, nb, d)
    case Seq(p, q) => (
      match VerifyRule(g, p, left, false, d)
      case Rejected => Rejected
      case Accepts(nb1) => if nb1 then VerifyRule(g, q, left, nb, d) else Accepts(nb)
    )
    case Choice(p, q) => (
      match VerifyRule(g, p, left, nb, d)
      case Rejected => Rejected
      case Accepts(nb1) => VerifyRule(g, q, left, nb1, d)
    )
    case Grammar(_) => Accepts(Nullable(g, t, d))
  }

  /** `checkloops`: does the tree repeat a nullable pattern? */
  predicate CheckLoops(g: seq<Tree>, t: Tree, d: nat)
    decreases t, d
  {
    match t
    case Rep(p) => Nullable(g, p, d) || CheckLoops(g, p, d)
    case Not(p) => CheckLoops(g, p, d)
    case And(p) => CheckLoops(g, p, d)
    case Capture(p) => CheckLoops(g, p, d)
    case Behind(_, p) => CheckLoops(g, p, d)
    case Seq(p, q) => CheckLoops(g, p, d) || CheckLoops(g, q, d)
    case Choice(p, q) => CheckLoops(g, p, d) || CheckLoops(g, q, d)
    case _ => false
  }

  /** Rules of the enclosing grammar, which has `n` rules, called in `t`. */
  function CallsIn(t: Tree, n: nat): set<nat>
    decreases t, n
  {
    match t
    case Call(r) => if r < n then {r} else {}
    case Rep(p) => CallsIn(p, n)
    case Not(p) => CallsIn(p, n)
    case And(p) => CallsIn(p, n)
    case Capture(p) => CallsIn(p, n)
    case Behind(_, p) => CallsIn(p, n)
    case Seq(p, q) => CallsIn(p, n) + CallsIn(q, n)
    case Choice(p, q) => CallsIn(p, n) + CallsIn(q, n)
    case _ => {}
  }

  /** A rule has a key if some rule calls it or it is the initial one. */
  predicate Used(g: seq<Tree>, r: nat) {
    r == 0 || exists k :: 0 <= k < |g| && r in CallsIn(g[k], |g|)
  }

  /** What `verifygrammar` checks. */
  predicate Verified(g: seq<Tree>, d: nat) {
    forall r: nat :: r < |g| && Used(g, r) ==>
      VerifyRule(g, g[r], MAXRULES, false, d) != Rejected && !CheckLoops(g, g[r], d)
  }

  /** `verifygrammar`: first all rules for left recursion, then all rules for empty loops. */
  method VerifyGrammar(g: seq<Tree>, d: nat) returns (accepted: bool)
    ensures accepted <==> Verified(g, d)
  {
    for k := 0 to |g|
      invariant forall r: nat :: r < k && Used(g, r) ==> VerifyRule(g, g[r], MAXRULES, false, d) != Rejected
    {
      if Used(g, k) && VerifyRule(g, g[k], MAXRULES, false, d) == Rejected {
        return false;
      }
    }
    for k := 0 to |g|
      invariant forall r: nat :: r < k && Used(g, r) ==> !CheckLoops(g, g[r], d)
    {
      if Used(g, k) && CheckLoops(g, g[k], d) {
        return false;
      }
    }
    return true;
  }

  // ---------- where the check falls short ----------

  /** `verifyrule` drops its accumulator at a sub-grammar.  This says that along its
      traversal it never does so wrongly: a sub-grammar reached with `nb` is nullable. */
  predicate NbKept(g: seq<Tree>, t: Tree, left: nat, nb: bool, d: nat)
    decreases left, t
  {
    match t
    case Not(p) => NbKept(g, p, left, true, d)
    case And(p) => NbKept(g, p, left, true, d)
    case Rep(p) => NbKept(g, p, left, true, d)
    case Capture(p) => NbKept(g, p, left, nb, d)
    case Call(r) => left > 0 && r < |g| ==> NbKept(g, g[r], left - 1, nb, d)
    case Seq(p, q) =>
      && NbKept(g, p, left, false, d)
      && (VerifyRule(g, p, left, false, d) == Accepts(true) ==> NbKept(g, q, left, nb, d))
    case Choice(p, q) =>
      && NbKept(g, p, left, nb, d)
      && (var v := VerifyRule(g, p, left, nb, d); v.Accepts? ==> NbKept(g, q, left, v.nb, d))
    case Grammar(_) => nb ==> Nullable(g, t, d)
    case _ => true
  }

  /** A rule that starts with a repeated non-nullable sub-grammar and then calls itself is
      accepted, although matching it never ends on any subject. */
  lemma RepeatedSubgrammarAccepted(rs: seq<Tree>, d: nat, s: Subject, i: nat, n: nat)
    requires i <= |s| && !Nullable([], Grammar(rs), d)
    ensures var g := [Seq(Rep(Grammar(rs)), Call(0))];
      Verified(g, d) && Match(g, Call(0), s, i, n) == Out
    decreases n
  {
    var g := [Seq(Rep(Grammar(rs)), Call(0))];
    assert Nullable(g, Grammar(rs), d) == Nullable([], Grammar(rs), d);
    assert VerifyRule(g, Rep(Grammar(rs)), MAXRULES, false, d) == Accepts(false);
    assert VerifyRule(g, g[0], MAXRULES, false, d) == Accepts(false);
    var sub := Grammar(rs);
    assert !CheckLoops(g, sub, d) && !CheckLoops(g, Rep(sub), d) && !CheckLoops(g, Call(0), d);
    assert !CheckLoops(g, Seq(Rep(sub), Call(0)), d);
    if n > 1 {
      RepAnswers(g, Grammar(rs), s, i, n - 2);
      MatchRange(g, Rep(Grammar(rs)), s, i, n - 2);
      var r := Match(g, Rep(Grammar(rs)), s, i, n - 2);
      if r.Ok? { RepeatedSubgrammarAccepted(rs, d, s, r.pos, n - 2); }
      assert Match(g, g[0], s, i, n - 1) == Out;
    }
  }

  lemma {:induction false} RepAnswers(g: seq<Tree>, p: Tree, s: Subject, i: nat, n: nat)
    ensures Match(g, Rep(p), s, i, n) != Fail
    decreases n
  {
    if n > 0 {
      var r := Match(g, p, s, i, n - 1);
      if r.Ok? { RepAnswers(g, p, s, r.pos, n - 1); }
    }
  }

  /** A rule that calls itself inside a look-behind of length 0 is accepted, although
      matching it never ends on any subject. */
  lemma CallBehindAccepted(d: nat, s: Subject, i: nat, n: nat)
    ensures var g := [Behind(0, Not(Call(0)))];
      && FixedLen(g, Not(Call(0)), d) == 0
      && Verified(g, d) && Match(g, Call(0), s, i, n) == Out
    decreases n
  {
    var g := [Behind(0, Not(Call(0)))];
    assert !CheckLoops(g, Call(0), d) && !CheckLoops(g, Not(Call(0)), d);
    assert !CheckLoops(g, Behind(0, Not(Call(0))), d);
    if n > 2 {
      CallBehindAccepted(d, s, i, n - 3);
      assert Match(g, Not(Call(0)), s, i - 0, n - 2) == Out;
    }
    if n > 1 { assert Match(g, g[0], s, i, n - 1) == Out; }
  }

  // ---------- termination ----------

  /** No look-behind contains a call, and every sub-grammar is verified without losing `nb`. */
  predicate Clean(g: seq<Tree>, t: Tree, d: nat)
    decreases t, d
  {
    match t
    case Call(r) => r < |g|
    case Rep(p) => Clean(g, p, d)
    case Not(p) => Clean(g, p, d)
    case And(p) => Clean(g, p, d)
    case Capture(p) => Clean(g, p, d)
    case Behind(_, p) => CallsIn(p, |g|) == {} && Clean(g, p, d)
    case Seq(p, q) => Clean(g, p, d) && Clean(g, q, d)
    case Choice(p, q) => Clean(g, p, d) && Clean(g, q, d)
    case Grammar(rs) =>
      && rs != [] && Verified(rs, d)
      && forall r: nat :: r < |rs| && Used(rs, r) ==>
           NbKept(rs, rs[r], MAXRULES, false, d) && Clean(rs, rs[r], d)
    case _ => true
  }

  /** Every grammar inside the tree passed its check without losing `nb`, and no look-behind contains a call, also in
      unused rules. */
  ghost predicate Tidy(t: Tree, d: nat)
    decreases t, d
  {
    match t
    case Rep(p) => Tidy(p, d)
    case Not(p) => Tidy(p, d)
    case And(p) => Tidy(p, d)
    case Capture(p) => Tidy(p, d)
    case Behind(_, p) => Tidy(p, d)
    case Seq(p, q) => Tidy(p, d) && Tidy(q, d)
    case Choice(p, q) => Tidy(p, d) && Tidy(q, d)
    case Grammar(rs) => Clean([], t, d) && forall k :: 0 <= k < |rs| ==> Clean(rs, rs[k], d) && Tidy(rs[k], d)
    case _ => true
  }

  /** On a traversal that keeps `nb`, the verdict's flag covers `nb` and every match that
      consumes nothing. */
  lemma {:induction false} FlagSound(g: seq<Tree>, t: Tree, left: nat, nb: bool, d: nat, s: Subject, i: nat, n: nat)
    requires VerifyRule(g, t, left, nb, d).Accepts? && NbKept(g, t, left, nb, d) && i <= |s|
    ensures var b := VerifyRule(g, t, left, nb, d).nb; (nb ==> b) && (Match(g, t, s, i, n) == Ok(i) ==> b)
    decreases left, t
  {
    var m := if n > 0 then n - 1 else 0;
    match t
    case Not(p) => FlagSound(g, p, left, true, d, s, i, m);
    case And(p) => FlagSound(g, p, left, true, d, s, i, m);
    case Rep(p) => FlagSound(g, p, left, true, d, s, i, m);
    case Capture(p) => FlagSound(g, p, left, nb, d, s, i, m);
    case Call(r) => FlagSound(g, g[r], left - 1, nb, d, s, i, m);
    case Seq(p, q) =>
      FlagSound(g, p, left, false, d, s, i, m);
      MatchRange(g, p, s, i, m);
      var r := Match(g, p, s, i, m);
      if r.Ok? { MatchRange(g, q, s, r.pos, m); }
      if VerifyRule(g, p, left, false, d).nb { FlagSound(g, q, left, nb, d, s, i, m); }
    case Choice(p, q) =>
      FlagSound(g, p, left, nb, d, s, i, m);
      FlagSound(g, q, left, VerifyRule(g, p, left, nb, d).nb, d, s, i, m);
    case Grammar(_) => CheckAuxSound(g, t, d, s, i, n);
    case _ =>
  }

  /** The rules reachable by calls are verified, and smaller than `scope`. */
  ghost predicate Ready(g: seq<Tree>, d: nat, scope: Tree) {
    && Verified(g, d)
    && forall r: nat :: r < |g| && Used(g, r) ==>
         NbKept(g, g[r], MAXRULES, false, d) && Clean(g, g[r], d) && g[r] < scope
  }

  /** `t` may be entered with `left` rules to go; a pattern that is not at the start of a
      rule may always be entered with one more than a rule. */
  ghost predicate Enterable(g: seq<Tree>, t: Tree, left: nat, nb: bool, d: nat) {
    left == MAXRULES + 1 ||
    (left <= MAXRULES && VerifyRule(g, t, left, nb, d).Accepts? && NbKept(g, t, left, nb, d))
  }

  ghost predicate CallsUsed(g: seq<Tree>, t: Tree) {
    forall r :: r in CallsIn(t, |g|) ==> r < |g| && Used(g, r)
  }

  lemma RuleCallsUsed(g: seq<Tree>, d: nat, r: nat)
    requires r < |g| && Clean(g, g[r], d)
    ensures CallsUsed(g, g[r])
  {
    CallsInRange(g, g[r], d);
  }

  lemma {:induction false} CallsInRange(g: seq<Tree>, t: Tree, d: nat)
    requires Clean(g, t, d)
    ensures forall r :: r in CallsIn(t, |g|) ==> r < |g|
    decreases t
  {
    match t
    case Rep(p) => CallsInRange(g, p, d);
    case Not(p) => CallsInRange(g, p, d);
    case And(p) => CallsInRange(g, p, d);
    case Capture(p) => CallsInRange(g, p, d);
    case Seq(p, q) =>
      CallsInRange(g, p, d);
      CallsInRange(g, q, d);
    case Choice(p, q) =>
      CallsInRange(g, p, d);
      CallsInRange(g, q, d);
    case _ =>
  }

  /** Matching terminates: some evaluation depth gives an answer. */
  lemma {:induction false} Total(g: seq<Tree>, t: Tree, d: nat, s: Subject, i: nat, left: nat, nb: bool, scope: Tree)
    returns (n: nat)
    requires i <= |s| && t < scope
    requires Clean(g, t, d) && !CheckLoops(g, t, d) && CallsUsed(g, t)
    requires CallsIn(t, |g|) != {} ==> Ready(g, d, scope)
    requires Enterable(g, t, left, nb, d)
    ensures Match(g, t, s, i, n) != Out
    decreases scope, |s| - i, left, t
  {
    match t
    case Rep(p) =>
      var n1 := Total(g, p, d, s, i, left, true, scope);
      var r := Match(g, p, s, i, n1);
      if r.Ok? {
        MatchRange(g, p, s, i, n1);
        CheckAuxSound(g, p, d, s, i, n1);
        var n2 := Total(g, t, d, s, r.pos, MAXRULES + 1, nb, scope);
        n := Deeper2(g, p, t, s, i, r.pos, n1, n2);
      } else {
        n := n1 + 1;
      }
    case Seq(p, q) =>
      n := TotalSeq(g, t, d, s, i, left, nb, scope);
    case Choice(p, q) =>
      var n1 := Total(g, p, d, s, i, left, nb, scope);
      if Match(g, p, s, i, n1).Fail? {
        var nb1 := left <= MAXRULES && VerifyRule(g, p, left, nb, d).nb;
        var n2 := Total(g, q, d, s, i, left, nb1, scope);
        n := Deeper2(g, p, q, s, i, i, n1, n2);
      } else {
        n := n1 + 1;
      }
    case Not(p) =>
      n := Total(g, p, d, s, i, left, true, scope);
      n := n + 1;
    case And(p) =>
      n := Total(g, p, d, s, i, left, true, scope);
      n := n + 1;
    case Capture(p) =>
      n := Total(g, p, d, s, i, left, nb, scope);
      n := n + 1;
    case Call(r) =>
      assert r in CallsIn(t, |g|);
      RuleCallsUsed(g, d, r);
      n := Total(g, g[r], d, s, i, left - 1, if left == MAXRULES + 1 then false else nb, scope);
      n := n + 1;
    case Grammar(rs) =>
      assert Used(rs, 0);
      RuleCallsUsed(rs, d, 0);
      n := Total(rs, rs[0], d, s, i, MAXRULES + 1, false, t);
      n := n + 1;
    case Behind(k, p) =>
      n := 0;
      if k <= i {
        n := Total(g, p, d, s, i - k, MAXRULES + 1, false, t);
      }
      n := n + 1;
    case _ => n := 1;
  }

  lemma {:induction false} TotalSeq(g: seq<Tree>, t: Tree, d: nat, s: Subject, i: nat, left: nat, nb: bool, scope: Tree)
    returns (n: nat)
    requires t.Seq? && i <= |s| && t < scope
    requires Clean(g, t, d) && !CheckLoops(g, t, d) && CallsUsed(g, t)
    requires CallsIn(t, |g|) != {} ==> Ready(g, d, scope)
    requires Enterable(g, t, left, nb, d)
    ensures Match(g, t, s, i, n) != Out
    decreases scope, |s| - i, left, t, 0
  {
    var p, q := t.p1, t.p2;
    var n1 := Total(g, p, d, s, i, left, false, scope);
    var r := Match(g, p, s, i, n1);
    if r.Ok? {
      MatchRange(g, p, s, i, n1);
      var n2;
      if r.pos == i {
        if left <= MAXRULES { FlagSound(g, p, left, false, d, s, i, n1); }
        n2 := Total(g, q, d, s, i, left, nb, scope);
      } else {
        n2 := Total(g, q, d, s, r.pos, MAXRULES + 1, nb, scope);
      }
      n := Deeper2(g, p, q, s, i, r.pos, n1, n2);
    } else {
      n := n1 + 1;
    }
  }

  /** A depth at which both parts keep their answers. */
  lemma Deeper2(g: seq<Tree>, p: Tree, q: Tree, s: Subject, i: nat, j: nat, n1: nat, n2: nat) returns (n: nat)
    requires Match(g, p, s, i, n1) != Out && Match(g, q, s, j, n2) != Out
    ensures n > 0 && Match(g, p, s, i, n - 1) == Match(g, p, s, i, n1) && Match(g, q, s, j, n - 1) == Match(g, q, s, j, n2)
  {
    n := n1 + n2 + 1;
    MatchMonotone(g, p, s, i, n1, n1 + n2);
    MatchMonotone(g, q, s, j, n2, n1 + n2);
  }

  /** A pattern outside any grammar, whose grammars are all verified and clean, has a
      meaning at every position of every subject. */
  lemma MatchTerminates(t: Tree, d: nat, s: Subject, i: nat) returns (n: nat)
    requires i <= |s| && Clean([], t, d) && !CheckLoops([], t, d)
    ensures Match([], t, s, i, n) != Out
  {
    CallsInRange([], t, d);
    assert CallsIn(t, 0) == {};
    n := Total([], t, d, s, i, MAXRULES + 1, false, Capture(t));
  }
}
