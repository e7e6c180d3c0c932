/** The whole path from pattern to answer: compiling a pattern returns exactly if its analyses do and no rule comes
    back to itself by jumps, and running compiled code is the same as matching by the PEG semantics. */
module LpTheorem {
  import opened Peg
  import opened LpAnalysis
  import opened LpVm
  import opened LpCodegen
  import opened LpLayout
  import opened LpSimulation
  import opened LpVerify
  import opened LpBudget
  import opened LpPeephole
  import opened LpChains
  import opened LpFlow
  import opened LpTails
  import opened LpReturns
  import opened LpJumps

  /** `compile`; where it does not return, this stands for code that was never made. */
  function Compile(t: Tree, d: nat): Code { Peephole(CompileRaw(t, d)) }

  /** `compile` returns: so do the analyses that code generation asks for, within `d` nested calls, and the peephole
      pass.  `correctcalls` always does. */
  ghost predicate CompileReturns(t: Tree, d: nat) { GenEnds([], d, t) && PassReturns(CompileRaw(t, d), 0) }

  lemma CompiledParses(t: Tree, d: nat)
    requires WellFormed([], d, t)
    ensures Parses(CompileRaw(t, d), 0)
  {
    GenGood([], d, t, false, NoTest, FULL);
    GoodOne(IEnd, 0);
    GoodAppend(Gen([], d, t, false, NoTest, FULL), [IEnd], 0);
  }

  /** `compile` returns exactly if its analyses do and no coded grammar has a rule that comes back to itself by
      jumps. */
  lemma CompileReturnsIff(t: Tree, d: nat)
    requires WellFormed([], d, t)
    ensures CompileReturns(t, d) <==> GenEnds([], d, t) && JumpFree([], d, t)
  {
    CompiledParses(t, d);
    PassReturnsIff(CompileRaw(t, d));
    CompiledEndsIff(t, d);
  }

  /** Compiled code answers as the semantics does, for any pattern and any evaluation that has an answer; and there is
      such code exactly if the analyses return and no rule comes back to itself by jumps. */
  lemma CompileSound(t: Tree, d: nat, s: Subject, i: nat, n: nat)
    requires WellFormed([], d, t) && i <= |s| && Match([], t, s, i, n) != Out
    ensures Halts(Compile(t, d), s, Start(i), AnswerOf(Match([], t, s, i, n)))
    ensures CompileReturns(t, d) <==> GenEnds([], d, t) && JumpFree([], d, t)
  {
    CompileRawCorrect(t, d, s, i, n);
    PeepFromKeeps(CompileRaw(t, d), 0, s, Start(i), AnswerOf(Match([], t, s, i, n)));
    CompileReturnsIff(t, d);
  }

  /** Wherever the semantics has an answer, the machine has that one and no other. */
  lemma CompileAgrees(t: Tree, d: nat, s: Subject, i: nat, r: Result, a: Answer)
    requires WellFormed([], d, t) && i <= |s| && Means([], t, s, i, r)
    ensures Halts(Compile(t, d), s, Start(i), a) <==> a == AnswerOf(r)
  {
    var n: nat :| Match([], t, s, i, n) == r;
    CompileSound(t, d, s, i, n);
    if Halts(Compile(t, d), s, Start(i), a) {
      HaltsUnique(Compile(t, d), s, Start(i), a, AnswerOf(r));
    }
  }

  /** Compiling returns for every pattern whose grammars passed their checks without losing the flag. */
  lemma AcceptedReturns(t: Tree, d: nat)
    requires WellFormed([], d, t) && Tidy(t, d) && d >= Need(t)
    ensures CompileReturns(t, d)
  {
    AnalysesEnd(t, d, d);
    TidyJumpFree([], t, d);
    CompileReturnsIff(t, d);
  }

  /** A well-formed pattern whose repetitions consume, which the constructors of lptree.c check, and whose grammars
      passed `verifygrammar` without losing the flag and call nothing inside a look-behind, which nothing checks. */
  ghost predicate Accepted(t: Tree, d: nat) {
    WellFormed([], d, t) && Clean([], t, d) && !CheckLoops([], t, d)
  }

  /** For these the machine stops on every subject: it matches up to `r` exactly when the semantics does, and gives up
      exactly when the semantics fails. */
  lemma CompileExact(t: Tree, d: nat, s: Subject, i: nat)
    requires Accepted(t, d) && i <= |s|
    ensures exists a :: Halts(Compile(t, d), s, Start(i), a)
    ensures forall r: nat :: Halts(Compile(t, d), s, Start(i), Matched(r)) <==> Means([], t, s, i, Ok(r))
    ensures Halts(Compile(t, d), s, Start(i), GaveUp) <==> Means([], t, s, i, Fail)
  {
    var n := MatchTerminates(t, d, s, i);
    var m := Match([], t, s, i, n);
    CompileSound(t, d, s, i, n);
    assert Means([], t, s, i, m);
    forall a ensures Halts(Compile(t, d), s, Start(i), a) <==> a == AnswerOf(m) {
      CompileAgrees(t, d, s, i, m, a);
    }
    forall r | Means([], t, s, i, r) ensures r == m {
      MeansUnique([], t, s, i, r, m);
    }
  }

  // ---------- accepted grammars that are never compiled ----------

  /** A grammar of one rule that never matches. */
  ghost predicate Nothing(sub: Tree) { sub == Grammar([False]) }

  lemma NothingFirst(g: seq<Tree>, d: nat, sub: Tree)
    requires Nothing(sub)
    ensures !Nullable(g, sub, d) && Guard(g, d, sub) == TestJmp && HeadFail(g, sub, d)
    ensures WellFormed(g, d, sub) && FirstEnds(g, sub, d) && HeadEnds(g, sub, d)
  {
    var rs := sub.rules;
    assert !CheckAux(rs, rs[0], PEnullable, d) && GetFirst(rs, rs[0], FULL, d) == First({}, false) && WellFormed(rs, d, rs[0]);
    assert !CheckAux(g, sub, PEnullable, d) && GetFirst(g, sub, FULL, d) == First({}, false);
    assert HeadFail(rs, rs[0], d) && FirstEnds(rs, rs[0], d) && HeadEnds(rs, rs[0], d);
  }

  /** `L <- !G L`, where `G` never matches: the negation is a jump over `fail`, and the call is another jump. */
  lemma {:induction false} LoopingRule(g: seq<Tree>, d: nat, r: nat, sub: Tree, n: nat)
    requires r < |g| && Nothing(sub) && g[r] == Seq(Not(sub), Call(r))
    ensures !Settles(g, d, r, n)
    decreases n
  {
    NothingFirst(g, d, sub);
    assert CourseOf(g, d, Not(sub)) == Through;
    assert CourseOf(g, d, g[r]) == Enter(r, true);
    if n > 0 { LoopingRule(g, d, r, sub, n - 1); }
  }

  /** `verifyrule` never looks at the call, and all analyses return. */
  lemma LoopingVerdict(g: seq<Tree>, d: nat, r: nat, sub: Tree, left: nat)
    requires r < |g| && Nothing(sub) && g[r] == Seq(Not(sub), Call(r))
    ensures VerifyRule(g, g[r], left, false, d) == Accepts(false) && !CheckLoops(g, g[r], d)
    ensures WellFormed(g, d, g[r]) && GenEnds(g, d, g[r])
  {
    NothingFirst(g, d, sub);
    assert VerifyRule(g, sub, left, true, d) == Accepts(false);
    assert VerifyRule(g, Not(sub), left, false, d) == Accepts(false);
    assert !CheckLoops(g, sub, d) && !CheckLoops(g, Not(sub), d) && !CheckLoops(g, Call(r), d);
    assert WellFormed(g, d, Not(sub)) && WellFormed(g, d, Call(r)) && GenEnds(g, d, Not(sub)) && GenEnds(g, d, Call(r));
  }

  /** The grammar `S <- c / L; L <- !G L`. */
  function Hanging(c: Byte, sub: Tree): seq<Tree> {
    [Choice(Char(c), Call(1)), Seq(Not(sub), Call(1))]
  }

  lemma HangingVerified(c: Byte, sub: Tree, d: nat)
    requires Nothing(sub)
    ensures var g := Hanging(c, sub);
      Verified(g, d) && WellFormed([], d, Grammar(g)) && GenEnds([], d, Grammar(g))
  {
    var g := Hanging(c, sub);
    LoopingVerdict(g, d, 1, sub, MAXRULES);
    LoopingVerdict(g, d, 1, sub, MAXRULES - 1);
    ChoiceVerdict(g, d, c);
    forall r: nat | r < |g|
      ensures VerifyRule(g, g[r], MAXRULES, false, d) != Rejected && !CheckLoops(g, g[r], d)
      ensures WellFormed(g, d, g[r]) && GenEnds(g, d, g[r])
    {
    }
  }

  lemma ChoiceVerdict(g: seq<Tree>, d: nat, c: Byte)
    requires |g| == 2 && g[0] == Choice(Char(c), Call(1)) && VerifyRule(g, g[1], MAXRULES - 1, false, d) == Accepts(false)
    ensures VerifyRule(g, g[0], MAXRULES, false, d) == Accepts(false) && !CheckLoops(g, g[0], d)
    ensures WellFormed(g, d, g[0]) && GenEnds(g, d, g[0])
  {
    assert VerifyRule(g, Char(c), MAXRULES, false, d) == Accepts(false);
    assert VerifyRule(g, Call(1), MAXRULES, false, d) == VerifyRule(g, g[1], MAXRULES - 1, false, d);
    assert !CheckLoops(g, Char(c), d) && !CheckLoops(g, Call(1), d);
    assert WellFormed(g, d, Char(c)) && WellFormed(g, d, Call(1)) && HeadFail(g, Char(c), d);
    assert GenEnds(g, d, Char(c)) && GenEnds(g, d, Call(1));
  }

  /** `verifygrammar` accepts a grammar that matches, and all its analyses return, but its compilation never does. */
  lemma CompileHangs(c: Byte, sub: Tree, d: nat)
    requires Nothing(sub)
    ensures var g := Hanging(c, sub);
      && Verified(g, d) && WellFormed([], d, Grammar(g)) && Means([], Grammar(g), [c], 0, Ok(1))
      && GenEnds([], d, Grammar(g)) && !CompileReturns(Grammar(g), d)
  {
    var g := Hanging(c, sub);
    HangingVerified(c, sub, d);
    LoopingRule(g, d, 1, sub, |g|);
    assert !JumpFree([], d, Grammar(g));
    CompileReturnsIff(Grammar(g), d);
    HangingMatches(g, c, 3);
  }

  lemma HangingMatches(g: seq<Tree>, c: Byte, n: nat)
    requires |g| == 2 && g[0] == Choice(Char(c), Call(1)) && n == 3
    ensures Means([], Grammar(g), [c], 0, Ok(1))
  {
    assert Match(g, Char(c), [c], 0, n - 2) == Ok(1);
    assert Match(g, g[0], [c], 0, n - 1) == Ok(1);
    assert Match([], Grammar(g), [c], 0, n) == Ok(1);
  }

  /** For `L <- G* L`, where `G` is not nullable, `verifygrammar` accepts, but `getfirst` follows the call of `L`
      for ever. */
  lemma AnalysisHangs(rs: seq<Tree>, d: nat, e: nat)
    requires !Nullable([], Grammar(rs), d)
    ensures var g := [Seq(Rep(Grammar(rs)), Call(0))]; Verified(g, d) && !GenEnds([], e, Grammar(g))
  {
    var g := [Seq(Rep(Grammar(rs)), Call(0))];
    RepeatedSubgrammarAccepted(rs, d, [], 0, 0);
    FirstNeverEnds(g, Grammar(rs), e);
    assert !GenEnds(g, e, g[0]);
  }

  lemma {:induction false} FirstNeverEnds(g: seq<Tree>, sub: Tree, e: nat)
    requires g == [Seq(Rep(sub), Call(0))]
    ensures !FirstEnds(g, Call(0), e)
    decreases e
  {
    if e > 0 {
      FirstNeverEnds(g, sub, e - 1);
      assert Nullable(g, Rep(sub), e - 1) && !FirstEnds(g, g[0], e - 1);
    }
  }
}
