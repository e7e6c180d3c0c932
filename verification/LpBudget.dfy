/** The analyses of lpcode.c follow calls without a bound.  When they come to an end within `d` nested calls, and that
    they do for grammars that passed `verifygrammar` without losing its flag. */
module LpBudget {
  import opened Peg
  import opened LpAnalysis
  import opened LpCodegen
  import opened LpLayout
  import opened LpVerify

  // ---------- analyses within a budget ----------

  /** `checkaux` visits no more than `d` nested calls. */
  predicate CheckEnds(g: seq<Tree>, t: Tree, pred: Pred, d: nat)
    decreases d, t
  {
    match t
    case And(p) => pred == PEnullable || CheckEnds(g, p, pred, d)
    case Seq(p, q) => CheckEnds(g, p, pred, d) && (CheckAux(g, p, pred, d) ==> CheckEnds(g, q, pred, d))
    case Choice(p, q) => CheckEnds(g, q, pred, d) && (!CheckAux(g, q, pred, d) ==> CheckEnds(g, p, pred, d))
    case Capture(p) => CheckEnds(g, p, pred, d)
    case Grammar(rs) => rs != [] ==> CheckEnds(rs, rs[0], pred, d)
    case Call(r) => d > 0 && (r < |g| ==> CheckEnds(g, g[r], pred, d - 1))
    case _ => true
  }

  /** `getfirst`; it enters negations and look-behinds, too. */
  predicate FirstEnds(g: seq<Tree>, t: Tree, d: nat)
    decreases d, t
  {
    match t
    case Choice(p, q) => FirstEnds(g, p, d) && FirstEnds(g, q, d)
    case Seq(p, q) =>
      CheckEnds(g, p, PEnullable, d) && FirstEnds(g, p, d) && (Nullable(g, p, d) ==> FirstEnds(g, q, d))
    case Rep(p) => FirstEnds(g, p, d)
    case Capture(p) => FirstEnds(g, p, d)
    case And(p) => FirstEnds(g, p, d)
    case Not(p) => ToCharset(p).0 || FirstEnds(g, p, d)
    case Behind(_, p) => FirstEnds(g, p, d)
    case Grammar(rs) => rs != [] ==> FirstEnds(rs, rs[0], d)
    case Call(r) => d > 0 && (r < |g| ==> FirstEnds(g, g[r], d - 1))
    case _ => true
  }

  /** `headfail` */
  predicate HeadEnds(g: seq<Tree>, t: Tree, d: nat)
    decreases d, t
  {
    match t
    case Capture(p) => HeadEnds(g, p, d)
    case And(p) => HeadEnds(g, p, d)
    case Seq(p, q) => CheckEnds(g, q, PEnofail, d) && (NoFail(g, q, d) ==> HeadEnds(g, p, d))
    case Choice(p, q) => HeadEnds(g, p, d) && (HeadFail(g, p, d) ==> HeadEnds(g, q, d))
    case Grammar(rs) => rs != [] ==> HeadEnds(rs, rs[0], d)
    case Call(r) => d > 0 && (r < |g| ==> HeadEnds(g, g[r], d - 1))
    case _ => true
  }

  /** Every analysis that `codegen` asks for while it codes `t`. */
  predicate GenEnds(g: seq<Tree>, d: nat, t: Tree)
    decreases t, d
  {
    match t
    case Choice(p, q) =>
      && FirstEnds(g, p, d) && HeadEnds(g, p, d)
      && (!HeadFail(g, p, d) && !GetFirst(g, p, FULL, d).e ==> FirstEnds(g, q, d))
      && GenEnds(g, d, p) && GenEnds(g, d, q)
    case Rep(p) => ToCharset(p).0 || (FirstEnds(g, p, d) && HeadEnds(g, p, d) && GenEnds(g, d, p))
    case Not(p) => FirstEnds(g, p, d) && HeadEnds(g, p, d) && (!HeadFail(g, p, d) ==> GenEnds(g, d, p))
    case Seq(p, q) => (NeedFollow(p) ==> FirstEnds(g, q, d)) && GenEnds(g, d, p) && GenEnds(g, d, q)
    case And(p) => GenEnds(g, d, p)
    case Capture(p) => GenEnds(g, d, p)
    case Behind(_, p) => GenEnds(g, d, p)
    case Grammar(rs) => forall k :: 0 <= k < |rs| ==> GenEnds(rs, d, rs[k])
    case _ => true
  }

  // ---------- a larger budget changes nothing ----------

  lemma {:induction false} CheckMore(g: seq<Tree>, t: Tree, pred: Pred, d: nat, e: nat)
    requires CheckEnds(g, t, pred, d) && d <= e
    ensures CheckEnds(g, t, pred, e) && CheckAux(g, t, pred, e) == CheckAux(g, t, pred, d)
    decreases d, t
  {
    match t
    case And(p) => if pred != PEnullable { CheckMore(g, p, pred, d, e); }
    case Seq(p, q) =>
      CheckMore(g, p, pred, d, e);
      if CheckAux(g, p, pred, d) { CheckMore(g, q, pred, d, e); }
    case Choice(p, q) =>
      CheckMore(g, q, pred, d, e);
      if !CheckAux(g, q, pred, d) { CheckMore(g, p, pred, d, e); }
    case Capture(p) => CheckMore(g, p, pred, d, e);
    case Grammar(rs) => if rs != [] { CheckMore(rs, rs[0], pred, d, e); }
    case Call(r) => if r < |g| { CheckMore(g, g[r], pred, d - 1, e - 1); }
    case _ =>
  }

  lemma {:induction false} FirstMore(g: seq<Tree>, t: Tree, fl: Charset, d: nat, e: nat)
    requires FirstEnds(g, t, d) && d <= e
    ensures FirstEnds(g, t, e) && GetFirst(g, t, fl, e) == GetFirst(g, t, fl, d)
    decreases d, t
  {
    match t
    case Choice(p, q) =>
      FirstMore(g, p, fl, d, e);
      FirstMore(g, q, fl, d, e);
    case Seq(p, q) =>
      CheckMore(g, p, PEnullable, d, e);
      FirstMore(g, p, FULL, d, e);
      if Nullable(g, p, d) {
        FirstMore(g, q, fl, d, e);
        FirstMore(g, p, GetFirst(g, q, fl, d).cs, d, e);
      }
    case Rep(p) => FirstMore(g, p, fl, d, e);
    case Capture(p) => FirstMore(g, p, fl, d, e);
    case And(p) => FirstMore(g, p, fl, d, e);
    case Not(p) => if !ToCharset(p).0 { FirstMore(g, p, fl, d, e); }
    case Behind(_, p) => FirstMore(g, p, fl, d, e);
    case Grammar(rs) => if rs != [] { FirstMore(rs, rs[0], fl, d, e); }
    case Call(r) => if r < |g| { FirstMore(g, g[r], fl, d - 1, e - 1); }
    case _ =>
  }

  lemma {:induction false} HeadMore(g: seq<Tree>, t: Tree, d: nat, e: nat)
    requires HeadEnds(g, t, d) && d <= e
    ensures HeadEnds(g, t, e) && HeadFail(g, t, e) == HeadFail(g, t, d)
    decreases d, t
  {
    match t
    case Capture(p) => HeadMore(g, p, d, e);
    case And(p) => HeadMore(g, p, d, e);
    case Seq(p, q) =>
      CheckMore(g, q, PEnofail, d, e);
      if NoFail(g, q, d) { HeadMore(g, p, d, e); }
    case Choice(p, q) =>
      HeadMore(g, p, d, e);
      if HeadFail(g, p, d) { HeadMore(g, q, d, e); }
    case Grammar(rs) => if rs != [] { HeadMore(rs, rs[0], d, e); }
    case Call(r) => if r < |g| { HeadMore(g, g[r], d - 1, e - 1); }
    case _ =>
  }

  /** With less budget more patterns count as nullable. */
  lemma {:induction false} NullableLess(g: seq<Tree>, t: Tree, d: nat, e: nat)
    requires Nullable(g, t, e) && d <= e
    ensures Nullable(g, t, d)
    decreases d, t
  {
    match t
    case Seq(p, q) =>
      NullableLess(g, p, d, e);
      NullableLess(g, q, d, e);
    case Choice(p, q) => if Nullable(g, q, e) { NullableLess(g, q, d, e); } else { NullableLess(g, p, d, e); }
    case Capture(p) => NullableLess(g, p, d, e);
    case Grammar(rs) => NullableLess(rs, rs[0], d, e);
    case Call(r) => if d > 0 { NullableLess(g, g[r], d - 1, e - 1); }
    case _ =>
  }

  lemma {:induction false} NoFailNullable(g: seq<Tree>, t: Tree, d: nat)
    requires NoFail(g, t, d)
    ensures Nullable(g, t, d)
    decreases d, t
  {
    match t
    case Seq(p, q) =>
      NoFailNullable(g, p, d);
      NoFailNullable(g, q, d);
    case Choice(p, q) => if NoFail(g, q, d) { NoFailNullable(g, q, d); } else { NoFailNullable(g, p, d); }
    case Capture(p) => NoFailNullable(g, p, d);
    case Grammar(rs) => NoFailNullable(rs, rs[0], d);
    case Call(r) => NoFailNullable(g, g[r], d - 1);
    case _ =>
  }

  // ---------- what may be entered without consuming ----------

  /** Everything that may be entered before a character is consumed is reached within `d` nested calls. */
  predicate LeftEnds(g: seq<Tree>, t: Tree, d: nat)
    decreases d, t
  {
    match t
    case Choice(p, q) => LeftEnds(g, p, d) && LeftEnds(g, q, d)
    case Seq(p, q) => LeftEnds(g, p, d) && (Nullable(g, p, d) ==> LeftEnds(g, q, d))
    case Rep(p) => LeftEnds(g, p, d)
    case Capture(p) => LeftEnds(g, p, d)
    case And(p) => LeftEnds(g, p, d)
    case Not(p) => LeftEnds(g, p, d)
    case Behind(_, p) => LeftEnds(g, p, d)
    case Grammar(rs) => rs != [] ==> LeftEnds(rs, rs[0], d)
    case Call(r) => d > 0 && (r < |g| ==> LeftEnds(g, g[r], d - 1))
    case _ => true
  }

  lemma {:induction false} LeftCheck(g: seq<Tree>, t: Tree, pred: Pred, d: nat)
    requires LeftEnds(g, t, d)
    ensures CheckEnds(g, t, pred, d)
    decreases d, t
  {
    match t
    case And(p) => LeftCheck(g, p, pred, d);
    case Seq(p, q) =>
      LeftCheck(g, p, pred, d);
      if CheckAux(g, p, pred, d) {
        if pred == PEnofail { NoFailNullable(g, p, d); }
        LeftCheck(g, q, pred, d);
      }
    case Choice(p, q) =>
      LeftCheck(g, p, pred, d);
      LeftCheck(g, q, pred, d);
    case Capture(p) => LeftCheck(g, p, pred, d);
    case Grammar(rs) => if rs != [] { LeftCheck(rs, rs[0], pred, d); }
    case Call(r) => if r < |g| { LeftCheck(g, g[r], pred, d - 1); }
    case _ =>
  }

  lemma {:induction false} LeftFirst(g: seq<Tree>, t: Tree, d: nat)
    requires LeftEnds(g, t, d)
    ensures FirstEnds(g, t, d)
    decreases d, t
  {
    match t
    case Choice(p, q) =>
      LeftFirst(g, p, d);
      LeftFirst(g, q, d);
    case Seq(p, q) =>
      LeftCheck(g, p, PEnullable, d);
      LeftFirst(g, p, d);
      if Nullable(g, p, d) { LeftFirst(g, q, d); }
    case Rep(p) => LeftFirst(g, p, d);
    case Capture(p) => LeftFirst(g, p, d);
    case And(p) => LeftFirst(g, p, d);
    case Not(p) => LeftFirst(g, p, d);
    case Behind(_, p) => LeftFirst(g, p, d);
    case Grammar(rs) => if rs != [] { LeftFirst(rs, rs[0], d); }
    case Call(r) => if r < |g| { LeftFirst(g, g[r], d - 1); }
    case _ =>
  }

  // ---------- accepted grammars ----------

  /** A budget for the grammars inside `t`: twice as many calls as rules may be passed, for each level. */
  function Need(t: Tree): nat
    decreases t
  {
    match t
    case Rep(p) => Need(p)
    case Not(p) => Need(p)
    case And(p) => Need(p)
    case Capture(p) => Need(p)
    case Behind(_, p) => Need(p)
    case Seq(p, q) => Max(Need(p), Need(q))
    case Choice(p, q) => Max(Need(p), Need(q))
    case Grammar(rs) => 2 * (MAXRULES + 1) + NeedOf(rs)
    case _ => 0
  }

  function Max(a: nat, b: nat): nat { if a < b then b else a }

  /** What the rules need. */
  function NeedOf(rs: seq<Tree>): nat
    decreases rs
  {
    if rs == [] then 0 else Max(Need(rs[0]), NeedOf(rs[1..]))
  }

  lemma {:induction false} NeedRule(rs: seq<Tree>, k: nat)
    requires k < |rs|
    ensures Need(rs[k]) <= NeedOf(rs)
    decreases |rs|
  {
    if k > 0 { NeedRule(rs[1..], k - 1); }
  }

  /** `t` stands in a grammar that passed its check, under budget `e`, and may be entered with `left` rules to go. */
  ghost predicate Entered(g: seq<Tree>, t: Tree, e: nat, left: nat, nb: bool, scope: Tree) {
    && t < scope && Clean(g, t, e) && CallsUsed(g, t) && (CallsIn(t, |g|) != {} ==> Ready(g, e, scope))
    && Enterable(g, t, left, nb, e)
  }

  /** The flag of `verifyrule` covers what the analysis calls nullable. */
  ghost predicate FlagCovers(g: seq<Tree>, t: Tree, e: nat, left: nat, nb: bool, d: nat) {
    left <= MAXRULES && Nullable(g, t, d) ==> VerifyRule(g, t, left, nb, e) == Accepts(true)
  }

  /** A flag that is set stays set. */
  lemma FlagStays(g: seq<Tree>, t: Tree, e: nat, left: nat)
    requires Enterable(g, t, left, true, e)
    ensures left <= MAXRULES ==> VerifyRule(g, t, left, true, e) == Accepts(true)
  {
    if left <= MAXRULES { FlagSound(g, t, left, true, e, [], 0, 0); }
  }

  /** The budget that remains suffices. */
  ghost predicate Enough(g: seq<Tree>, t: Tree, left: nat, d: nat) {
    d >= if CallsIn(t, |g|) == {} then Need(t) else left + Max(Need(t), NeedOf(g))
  }

  /** In an accepted grammar whatever may be entered before a character is consumed comes to an end. */
  lemma {:induction false} LeftAccepted(g: seq<Tree>, t: Tree, e: nat, left: nat, nb: bool, scope: Tree, d: nat)
    requires Entered(g, t, e, left, nb, scope) && Enough(g, t, left, d)
    ensures LeftEnds(g, t, d) && FlagCovers(g, t, e, left, nb, d)
    decreases scope, left, t
  {
    match t
    case Rep(p) => LeftUnder(g, t, p, e, left, nb, scope, d);
    case Not(p) => LeftUnder(g, t, p, e, left, nb, scope, d);
    case And(p) => LeftUnder(g, t, p, e, left, nb, scope, d);
    case Seq(p, q) => LeftSeq(g, t, e, left, nb, scope, d);
    case Choice(p, q) => LeftChoice(g, t, e, left, nb, scope, d);
    case Capture(p) => LeftAccepted(g, p, e, left, nb, scope, d);
    case Call(r) => LeftCall(g, t, e, left, nb, scope, d);
    case Grammar(rs) => LeftGrammar(g, t, e, left, nb, scope, d);
    case Behind(_, p) => LeftAccepted(g, p, e, MAXRULES + 1, false, t, d);
    case _ =>
  }

  lemma {:induction false} LeftUnder(g: seq<Tree>, t: Tree, p: Tree, e: nat, left: nat, nb: bool, scope: Tree, d: nat)
    requires t == Rep(p) || t == Not(p) || t == And(p)
    requires Entered(g, t, e, left, nb, scope) && Enough(g, t, left, d)
    ensures LeftEnds(g, t, d) && FlagCovers(g, t, e, left, nb, d)
    decreases scope, left, t, 0
  {
    LeftAccepted(g, p, e, left, true, scope, d);
    FlagStays(g, p, e, left);
  }

  lemma {:induction false} LeftSeq(g: seq<Tree>, t: Tree, e: nat, left: nat, nb: bool, scope: Tree, d: nat)
    requires t.Seq? && Entered(g, t, e, left, nb, scope) && Enough(g, t, left, d)
    ensures LeftEnds(g, t, d) && FlagCovers(g, t, e, left, nb, d)
    decreases scope, left, t, 0
  {
    LeftAccepted(g, t.p1, e, left, false, scope, d);
    if Nullable(g, t.p1, d) { LeftAccepted(g, t.p2, e, left, nb, scope, d); }
  }

  lemma {:induction false} LeftChoice(g: seq<Tree>, t: Tree, e: nat, left: nat, nb: bool, scope: Tree, d: nat)
    requires t.Choice? && Entered(g, t, e, left, nb, scope) && Enough(g, t, left, d)
    ensures LeftEnds(g, t, d) && FlagCovers(g, t, e, left, nb, d)
    decreases scope, left, t, 0
  {
    var nb1 := left <= MAXRULES && VerifyRule(g, t.p1, left, nb, e).nb;
    LeftAccepted(g, t.p1, e, left, nb, scope, d);
    LeftAccepted(g, t.p2, e, left, nb1, scope, d);
    if nb1 { FlagStays(g, t.p2, e, left); }
  }

  lemma {:induction false} LeftCall(g: seq<Tree>, t: Tree, e: nat, left: nat, nb: bool, scope: Tree, d: nat)
    requires t.Call? && Entered(g, t, e, left, nb, scope) && Enough(g, t, left, d)
    ensures LeftEnds(g, t, d) && FlagCovers(g, t, e, left, nb, d)
    decreases scope, left, t, 0
  {
    var r := t.rule;
    assert r in CallsIn(t, |g|);
    RuleCallsUsed(g, e, r);
    NeedRule(g, r);
    LeftAccepted(g, g[r], e, left - 1, if left == MAXRULES + 1 then false else nb, scope, d - 1);
  }

  lemma {:induction false} LeftGrammar(g: seq<Tree>, t: Tree, e: nat, left: nat, nb: bool, scope: Tree, d: nat)
    requires t.Grammar? && Entered(g, t, e, left, nb, scope) && Enough(g, t, left, d)
    ensures LeftEnds(g, t, d) && FlagCovers(g, t, e, left, nb, d)
    decreases scope, left, t, 0
  {
    var rs := t.rules;
    assert Used(rs, 0);
    RuleCallsUsed(rs, e, 0);
    NeedRule(rs, 0);
    LeftAccepted(rs, rs[0], e, MAXRULES + 1, false, t, d);
    if Nullable(g, t, d) { NullableAlike(g, t, d, e); }
  }

  /** Whether a pattern is nullable does not depend on the budget, once that suffices. */
  lemma NullableAlike(g: seq<Tree>, t: Tree, d: nat, e: nat)
    requires LeftEnds(g, t, d) && Nullable(g, t, d)
    ensures Nullable(g, t, e)
  {
    if e <= d {
      NullableLess(g, t, e, d);
    } else {
      LeftCheck(g, t, PEnullable, d);
      CheckMore(g, t, PEnullable, d, e);
    }
  }

  /** The budget that remains suffices for `headfail`, too, which starts anew behind what it has passed. */
  ghost predicate EnoughTwice(g: seq<Tree>, t: Tree, left: nat, d: nat) {
    d >= if CallsIn(t, |g|) == {} then Need(t) else left + MAXRULES + 1 + Max(Need(t), NeedOf(g))
  }

  lemma {:induction false} HeadAccepted(g: seq<Tree>, t: Tree, e: nat, left: nat, nb: bool, scope: Tree, d: nat)
    requires Entered(g, t, e, left, nb, scope) && EnoughTwice(g, t, left, d)
    ensures HeadEnds(g, t, d)
    decreases scope, left, t
  {
    match t
    case Capture(p) => HeadAccepted(g, p, e, left, nb, scope, d);
    case And(p) => HeadAccepted(g, p, e, left, true, scope, d);
    case Seq(p, q) => HeadSeq(g, t, e, left, nb, scope, d);
    case Choice(p, q) => HeadChoice(g, t, e, left, nb, scope, d);
    case Call(r) => HeadCall(g, t, e, left, nb, scope, d);
    case Grammar(rs) => HeadGrammar(g, t, e, left, nb, scope, d);
    case _ =>
  }

  lemma {:induction false} HeadChoice(g: seq<Tree>, t: Tree, e: nat, left: nat, nb: bool, scope: Tree, d: nat)
    requires t.Choice? && Entered(g, t, e, left, nb, scope) && EnoughTwice(g, t, left, d)
    ensures HeadEnds(g, t, d)
    decreases scope, left, t, 0
  {
    HeadAccepted(g, t.p1, e, left, nb, scope, d);
    HeadAccepted(g, t.p2, e, left, left <= MAXRULES && VerifyRule(g, t.p1, left, nb, e).nb, scope, d);
  }

  lemma {:induction false} HeadSeq(g: seq<Tree>, t: Tree, e: nat, left: nat, nb: bool, scope: Tree, d: nat)
    requires t.Seq? && Entered(g, t, e, left, nb, scope) && EnoughTwice(g, t, left, d)
    ensures HeadEnds(g, t, d)
    decreases scope, left, t, 0
  {
    HeadAccepted(g, t.p1, e, left, false, scope, d);
    LeftAccepted(g, t.p2, e, MAXRULES + 1, false, scope, d);
    LeftCheck(g, t.p2, PEnofail, d);
  }

  lemma {:induction false} HeadCall(g: seq<Tree>, t: Tree, e: nat, left: nat, nb: bool, scope: Tree, d: nat)
    requires t.Call? && Entered(g, t, e, left, nb, scope) && EnoughTwice(g, t, left, d)
    ensures HeadEnds(g, t, d)
    decreases scope, left, t, 0
  {
    var r := t.rule;
    assert r in CallsIn(t, |g|);
    RuleCallsUsed(g, e, r);
    NeedRule(g, r);
    HeadAccepted(g, g[r], e, left - 1, if left == MAXRULES + 1 then false else nb, scope, d - 1);
  }

  lemma {:induction false} HeadGrammar(g: seq<Tree>, t: Tree, e: nat, left: nat, nb: bool, scope: Tree, d: nat)
    requires t.Grammar? && Entered(g, t, e, left, nb, scope) && EnoughTwice(g, t, left, d)
    ensures HeadEnds(g, t, d)
    decreases scope, left, t, 0
  {
    var rs := t.rules;
    assert Used(rs, 0);
    RuleCallsUsed(rs, e, 0);
    NeedRule(rs, 0);
    HeadAccepted(rs, rs[0], e, MAXRULES + 1, false, t, d);
  }

  // ---------- code generation ----------

  /** `t` stands in a grammar that passed its check; it may be entered at any character. */
  ghost predicate Standing(g: seq<Tree>, t: Tree, e: nat, scope: Tree, d: nat) {
    Entered(g, t, e, MAXRULES + 1, false, scope) && EnoughTwice(g, t, MAXRULES + 1, d) && Tidy(t, e)
  }

  lemma BothEnd(g: seq<Tree>, t: Tree, e: nat, scope: Tree, d: nat)
    requires Standing(g, t, e, scope, d)
    ensures FirstEnds(g, t, d) && HeadEnds(g, t, d)
  {
    LeftAccepted(g, t, e, MAXRULES + 1, false, scope, d);
    LeftFirst(g, t, d);
    HeadAccepted(g, t, e, MAXRULES + 1, false, scope, d);
  }

  lemma StandingUnder(g: seq<Tree>, t: Tree, p: Tree, e: nat, scope: Tree, d: nat)
    requires Standing(g, t, e, scope, d)
    requires t == Rep(p) || t == Not(p) || t == And(p) || t == Capture(p) || (t.Behind? && t.body == p)
    ensures Standing(g, p, e, scope, d)
  {
  }

  lemma StandingFirst(g: seq<Tree>, t: Tree, p: Tree, q: Tree, e: nat, scope: Tree, d: nat)
    requires Standing(g, t, e, scope, d) && (t == Seq(p, q) || t == Choice(p, q))
    ensures Standing(g, p, e, scope, d)
  {
    assert CallsIn(t, |g|) == CallsIn(p, |g|) + CallsIn(q, |g|);
  }

  lemma StandingSecond(g: seq<Tree>, t: Tree, p: Tree, q: Tree, e: nat, scope: Tree, d: nat)
    requires Standing(g, t, e, scope, d) && (t == Seq(p, q) || t == Choice(p, q))
    ensures Standing(g, q, e, scope, d)
  {
    assert CallsIn(t, |g|) == CallsIn(p, |g|) + CallsIn(q, |g|);
  }

  /** What code generation asks of the analyses comes to an end for patterns whose grammars passed their checks. */
  lemma {:induction false} GenAccepted(g: seq<Tree>, t: Tree, e: nat, scope: Tree, d: nat)
    requires Standing(g, t, e, scope, d)
    ensures GenEnds(g, d, t)
    decreases t
  {
    match t
    case Rep(p) => GensTested(g, t, p, e, scope, d);
    case Not(p) => GensTested(g, t, p, e, scope, d);
    case And(p) => GensUnder(g, t, p, e, scope, d);
    case Capture(p) => GensUnder(g, t, p, e, scope, d);
    case Behind(_, p) => GensUnder(g, t, p, e, scope, d);
    case Seq(p, q) => GensTwo(g, t, p, q, e, scope, d);
    case Choice(p, q) => GensTwo(g, t, p, q, e, scope, d);
    case Grammar(rs) => GensGrammar(t, e, d);
    case _ =>
  }

  lemma {:induction false} GensUnder(g: seq<Tree>, t: Tree, p: Tree, e: nat, scope: Tree, d: nat)
    requires (t == And(p) || t == Capture(p) || (t.Behind? && t.body == p)) && Standing(g, t, e, scope, d)
    ensures GenEnds(g, d, p)
    decreases t, 0
  {
    StandingUnder(g, t, p, e, scope, d);
    GenAccepted(g, p, e, scope, d);
  }

  lemma {:induction false} GensTested(g: seq<Tree>, t: Tree, p: Tree, e: nat, scope: Tree, d: nat)
    requires (t == Rep(p) || t == Not(p)) && Standing(g, t, e, scope, d)
    ensures FirstEnds(g, p, d) && HeadEnds(g, p, d) && GenEnds(g, d, p)
    decreases t, 0
  {
    StandingUnder(g, t, p, e, scope, d);
    GenAccepted(g, p, e, scope, d);
    BothEnd(g, p, e, scope, d);
  }

  lemma {:induction false} GensTwo(g: seq<Tree>, t: Tree, p: Tree, q: Tree, e: nat, scope: Tree, d: nat)
    requires (t == Seq(p, q) || t == Choice(p, q)) && Standing(g, t, e, scope, d)
    ensures FirstEnds(g, p, d) && HeadEnds(g, p, d) && GenEnds(g, d, p) && FirstEnds(g, q, d) && GenEnds(g, d, q)
    decreases t, 0
  {
    StandingFirst(g, t, p, q, e, scope, d);
    StandingSecond(g, t, p, q, e, scope, d);
    GenAccepted(g, p, e, scope, d);
    GenAccepted(g, q, e, scope, d);
    BothEnd(g, p, e, scope, d);
    BothEnd(g, q, e, scope, d);
  }

  lemma {:induction false} GensGrammar(t: Tree, e: nat, d: nat)
    requires t.Grammar? && Tidy(t, e) && d >= Need(t)
    ensures GenEnds([], d, t)
    decreases t, 0
  {
    forall k | 0 <= k < |t.rules| ensures GenEnds(t.rules, d, t.rules[k]) {
      RuleCallsUsed(t.rules, e, k);
      NeedRule(t.rules, k);
      GenAccepted(t.rules, t.rules[k], e, t, d);
    }
  }

  lemma {:induction false} TidyClean(t: Tree, e: nat, d: nat)
    requires WellFormed([], d, t) && Tidy(t, e)
    ensures Clean([], t, e) && CallsIn(t, 0) == {}
    decreases t
  {
    match t
    case Rep(p) => TidyClean(p, e, d);
    case Not(p) => TidyClean(p, e, d);
    case And(p) => TidyClean(p, e, d);
    case Capture(p) => TidyClean(p, e, d);
    case Behind(_, p) => TidyClean(p, e, d);
    case Seq(p, q) =>
      TidyClean(p, e, d);
      TidyClean(q, e, d);
    case Choice(p, q) =>
      TidyClean(p, e, d);
      TidyClean(q, e, d);
    case _ =>
  }

  /** For a whole pattern whose grammars passed their checks, all that code generation asks of the analyses comes to
      an end within a budget that only depends on how deeply grammars are nested. */
  lemma AnalysesEnd(t: Tree, e: nat, d: nat)
    requires WellFormed([], e, t) && Tidy(t, e) && d >= Need(t)
    ensures GenEnds([], d, t)
  {
    TidyClean(t, e, e);
    GenAccepted([], t, e, Capture(t), d);
  }
}
