/** The compiler state of lpcode.c: a code buffer that code generation appends to and
    patches in place.  Every method is proved to append exactly the words the code
    generation function gives. */
module LpCompiler {
  import opened Peg
  import opened LpAnalysis
  import opened LpVm
  import opened LpCodegen
  import opened LpLayout
  import opened LpVerify
  import opened LpPeephole
  import opened LpSimulation
  import opened LpChains
  import opened LpTails
  import opened LpReturns
  import opened LpTheorem
  import opened LpMatch

  const NOINST := -1

  /** The test instruction at index `tt`. */
  function TestAt(code: Code, tt: int): Test {
    if !(0 <= tt < |code|) then NoTest else
    match code[tt]
    case IJmp => TestJmp
    case ITestAny => TestAny
    case ITestChar(c) => TestChar(c)
    case ITestSet => if HasSet(code, tt + 2) then TestSet(code[tt + 2].cs) else NoTest
    case _ => NoTest
  }

  /** `tt` is no instruction, or a complete test instruction. */
  ghost predicate TestIn(code: Code, tt: int) {
    0 <= tt ==> tt + TestSize(TestAt(code, tt)) <= |code| && !TestAt(code, tt).NoTest?
  }

  lemma TestKept(code: Code, w: Code, tt: int)
    requires TestIn(code, tt)
    ensures TestIn(code + w, tt) && TestAt(code + w, tt) == TestAt(code, tt)
  {
    if 0 <= tt {
      assert (code + w)[tt] == code[tt];
      if code[tt] == ITestSet { assert (code + w)[tt + 2] == code[tt + 2]; }
    }
  }

  lemma TestThere(u: Code, test: Test, offset: int, v: Code)
    requires !test.NoTest?
    ensures var code := u + TestCode(test, offset) + v; TestIn(code, |u|) && TestAt(code, |u|) == test
  {
    var code := u + TestCode(test, offset) + v;
    assert code[|u|] == TestCode(test, offset)[0];
    if test.TestSet? { assert code[|u| + 2] == TestCode(test, offset)[2] == Buf(test.cs); }
  }

  lemma AppendIn(u: Code, w: Code, v: Code)
    ensures u + w + v == u + (w + v)
  {
  }

  lemma PatchIn(u: Code, w: Code, k: nat, x: Word)
    requires k < |w|
    ensures (u + w)[|u| + k := x] == u + w[k := x]
  {
  }

  /** Patching the label of a test that stands first. */
  lemma PatchTest(test: Test, x: int, y: int, v: Code)
    requires !test.NoTest?
    ensures (TestCode(test, x) + v)[1 := Off(y)] == TestCode(test, y) + v
  {
    assert TestCode(test, x)[1 := Off(y)] == TestCode(test, y);
  }

  /** Patching the label of an instruction between `u` and `v`. */
  lemma PatchLabel(u: Code, w: Word, x: int, y: int, v: Code)
    ensures (u + [w, Off(x)] + v)[|u| + 1 := Off(y)] == u + [w, Off(y)] + v
  {
  }

  /** A test over `c1` and the jump behind it, whose label is still open. */
  function TestedOpen(test: Test, c1: Code, j0: Code): Code {
    TestCode(test, TestSize(test) + |c1| + |j0|) + c1 + j0
  }

  lemma BuildTested(test: Test, c1: Code, j0: Code)
    requires !test.NoTest?
    ensures (TestCode(test, 0) + c1 + j0)[1 := Off(TestSize(test) + |c1| + |j0|)] == TestedOpen(test, c1, j0)
  {
    var l := TestSize(test) + |c1| + |j0|;
    AppendIn(TestCode(test, 0), c1, j0);
    PatchTest(test, 0, l, c1 + j0);
    AppendIn(TestCode(test, l), c1, j0);
  }

  lemma BuildTestedChoice(test: Test, c1: Code, c2: Code, empty2: bool)
    ensures var w := TestedOpen(test, c1, if empty2 then [] else [IJmp, Off(0)]) + c2;
      TestedChoice(test, c1, c2, empty2) == if empty2 then w else w[TestSize(test) + |c1| + 1 := Off(2 + |c2|)]
  {
    if !empty2 { PatchLabel(TestCode(test, TestSize(test) + |c1| + 2) + c1, IJmp, 0, 2 + |c2|, c2); }
  }

  /** Test, choice and guarded code; the label of the commit is still open. */
  function GuardedOpen(test: Test, c1: Code): Code {
    TestCode(test, TestSize(test) + 2 + |c1| + 2) + [IChoice, Off(2 + |c1| + 2)] + c1 + [ICommit, Off(0)]
  }

  lemma BuildGuarded(test: Test, c1: Code)
    ensures var w0 := TestCode(test, 0) + [IChoice, Off(0)] + c1 + [ICommit, Off(0)];
      var w1 := w0[TestSize(test) + 1 := Off(2 + |c1| + 2)];
      GuardedOpen(test, c1) == if test.NoTest? then w1 else w1[1 := Off(|w1|)]
  {
    var l := TestSize(test) + 2 + |c1| + 2;
    var t0, tl, choice, commit0 := TestCode(test, 0), TestCode(test, l), [IChoice, Off(2 + |c1| + 2)], [ICommit, Off(0)];
    AppendIn(t0 + [IChoice, Off(0)], c1, commit0);
    PatchLabel(t0, IChoice, 0, 2 + |c1| + 2, c1 + commit0);
    assert t0 + choice + (c1 + commit0) == t0 + (choice + c1 + commit0);
    if !test.NoTest? { PatchTest(test, 0, l, choice + c1 + commit0); }
    assert tl + (choice + c1 + commit0) == tl + choice + c1 + commit0;
  }

  lemma BuildFullChoice(test: Test, c1: Code, c2: Code)
    ensures (GuardedOpen(test, c1) + c2)[TestSize(test) + 2 + |c1| + 1 := Off(2 + |c2|)] == FullChoice(test, c1, c2)
  {
    var l := TestSize(test) + 2 + |c1| + 2;
    PatchLabel(TestCode(test, l) + [IChoice, Off(2 + |c1| + 2)] + c1, ICommit, 0, 2 + |c2|, c2);
  }

  lemma BuildTestedLoop(test: Test, c: Code)
    ensures var l := TestSize(test) + |c|;
      TestedLoop(test, c) == TestedOpen(test, c, [IJmp, Off(0)])[l + 1 := Off(-l)]
  {
    var l := TestSize(test) + |c|;
    var w := TestCode(test, l + 2) + c;
    PatchLabel(w, IJmp, 0, -l, []);
    assert w + [IJmp, Off(0)] + [] == w + [IJmp, Off(0)];
    assert w + [IJmp, Off(-l)] + [] == w + [IJmp, Off(-l)];
  }

  /** Entry and body of a loop, and the jump back. */
  function LoopWords(c: Code, enter: Code): Code { enter + c + [IPartialCommit, Off(-|c|)] }

  lemma BuildFullLoop(test: Test, c: Code, opt: bool)
    ensures var w := TestCode(test, 0) + LoopWords(c, if opt then [IPartialCommit, Off(2)] else [IChoice, Off(2 + |c| + 2)]);
      FullLoop(test, c, opt) == if test.NoTest? then w else w[1 := Off(|w|)]
  {
    var l := TestSize(test) + 2 + |c| + 2;
    var enter := if opt then [IPartialCommit, Off(2)] else [IChoice, Off(2 + |c| + 2)];
    if !test.NoTest? { PatchTest(test, 0, l, LoopWords(c, enter)); }
    assert TestCode(test, l) + LoopWords(c, enter) == TestCode(test, l) + enter + c + [IPartialCommit, Off(-|c|)];
  }

  lemma EnterLabel(c: Code)
    ensures LoopWords(c, [IChoice, Off(0)])[1 := Off(2 + |c| + 2)] == LoopWords(c, [IChoice, Off(2 + |c| + 2)])
  {
  }

  lemma OptionalLabel()
    ensures [IPartialCommit, Off(0)][1 := Off(2)] == [IPartialCommit, Off(2)]
  {
  }

  lemma BuildLoop(c: Code, enter: Code)
    requires |enter| == 2
    ensures (enter + c + [IPartialCommit, Off(0)])[2 + |c| + 1 := Off(-|c|)] == LoopWords(c, enter)
  {
  }

  lemma BuildTestedNot(test: Test)
    ensures var w0 := TestCode(test, 0) + [IFail];
      TestedNot(test) == if test.NoTest? then w0 else w0[1 := Off(|w0|)]
  {
    if !test.NoTest? { PatchTest(test, 0, TestSize(test) + 1, [IFail]); }
  }

  lemma BuildFullNot(test: Test, c: Code)
    ensures var w1 := TestCode(test, 0) + ([IChoice, Off(2 + |c| + 1)] + c + [IFailTwice]);
      FullNot(test, c) == if test.NoTest? then w1 else w1[1 := Off(|w1|)]
  {
    var l := TestSize(test) + 2 + |c| + 1;
    var t0, choice := TestCode(test, 0), [IChoice, Off(2 + |c| + 1)];
    if !test.NoTest? { PatchTest(test, 0, l, choice + c + [IFailTwice]); }
    assert TestCode(test, l) + (choice + c + [IFailTwice]) == TestCode(test, l) + choice + c + [IFailTwice];
  }

  lemma BuildFullAnd(c: Code)
    ensures FullAnd(c) == (([IChoice, Off(0)] + c + [IBackCommit, Off(0)])[1 := Off(2 + |c| + 2)] + [IFail])[2 + |c| + 1 := Off(3)]
  {
    var choice := [IChoice, Off(2 + |c| + 2)];
    assert ([IChoice, Off(0)] + c + [IBackCommit, Off(0)])[1 := Off(2 + |c| + 2)] == choice + c + [IBackCommit, Off(0)];
    PatchLabel(choice + c, IBackCommit, 0, 3, [IFail]);
  }

  /** `finaltarget`: follows jumps until there is none. */
  method FollowJumps(code: Code, i: int) returns (j: int)
    requires Ends(code, i)
    ensures j == FinalTarget(code, i, |code|) && !JumpsOn(code, j)
  {
    j := i;
    ghost var f: nat :| !JumpsOn(code, FinalTarget(code, i, f));
    ghost var h := 0;
    while 0 <= j && j + 1 < |code| && code[j] == IJmp && code[j + 1].Off?
      invariant h <= f && j == FinalTarget(code, i, h) && FinalTarget(code, j, f - h) == FinalTarget(code, i, f)
      decreases f - h
    {
      TargetAdd(code, i, h, 1);
      j := j + code[j + 1].delta;
      h := h + 1;
    }
    TargetReached(code, i);
    if h <= |code| {
      TargetAdd(code, i, h, |code| - h);
      TargetStays(code, j, |code| - h);
    } else {
      TargetAdd(code, i, |code|, h - |code|);
      TargetStays(code, FinalTarget(code, i, |code|), h - |code|);
    }
  }

  // ---------- jumps while calls are being closed ----------

  /** The state of `correctcalls` at offset `j` of a grammar's code. */
  ghost predicate ClosingAt(t: Tree, d: nat, cur: Code, cc: Code, j: nat)
    requires t.Grammar?
  {
    && j <= |cur| && CorrectCalls(cur, t, d, j) == cc && Parses(cur, j) && CallsKnown(cur, t, j)
    && cc == CorrectCalls(RawGrammar(t, d), t, d, 4) && Midway(RawGrammar(t, d), cur, j)
  }

  lemma GrammarReady(t: Tree, d: nat)
    requires t.Grammar? && WellFormed([], d, t)
    ensures ClosingAt(t, d, RawGrammar(t, d), CorrectCalls(RawGrammar(t, d), t, d, 4), 4)
  {
    GoodRules(t, d, 0);
    ParsesShift(GrammarHead(t, d), GenRules(t, d, 0), 0);
  }

  /** Behind the open call at `j` the chain of jumps comes to rest inside the grammar's code; this holds of every
      grammar, so `correctcalls` always returns. */
  lemma ClosingLands(t: Tree, d: nat, cur: Code, cc: Code, j: nat, u: Code)
    requires t.Grammar? && WellFormed([], d, t) && ClosingAt(t, d, cur, cc, j) && j < |cur| && cur[j].IOpenCall?
    ensures j + 1 < |cur| && Ends(u + cur, |u| + (j + 2))
    ensures LandsOn(u + cur, |u| + (j + 2), IRet) <==> LandsOn(cur, j + 2, IRet)
  {
    GrammarRests(t, d);
    var raw := RawGrammar(t, d);
    assert CallRests(raw, j);
    var z :| Leads(raw, j + 2, z) && Rests(raw, j, z);
    RestLands(raw, cur, j, z);
    RestBehind(raw, cur, j, z, u);
  }

  lemma RestBehind(raw: Code, cur: Code, j: nat, z: int, u: Code)
    requires Midway(raw, cur, j) && Leads(raw, j + 2, z) && Rests(raw, j, z)
    ensures Ends(u + cur, |u| + (j + 2))
    ensures LandsOn(u + cur, |u| + (j + 2), IRet) <==> raw[z].IRet?
  {
    var w := u + cur;
    assert forall x :: 0 <= x < |cur| ==> w[|u| + x] == cur[x];
    LeadsEmbeds(w, |u|, raw, j + 2, z);
    assert w[|u| + z] == cur[z] == raw[z];
    LeadsEnds(w, |u| + (j + 2), |u| + z);
  }

  lemma ClosingStep(t: Tree, d: nat, cur: Code, cc: Code, j: nat)
    requires t.Grammar? && ClosingAt(t, d, cur, cc, j) && j < |cur|
    ensures cur[j].IOpenCall? ==> j + 1 < |cur| && cur[j].key < |t.rules|
                                  && ClosingAt(t, d, CloseCall(cur, j, RulePos(t, d, cur[j].key)), cc, j + 2)
    ensures !cur[j].IOpenCall? ==> ClosingAt(t, d, cur, cc, j + SizeI(cur[j]))
  {
    if cur[j].IOpenCall? { NextClosing(RawGrammar(t, d), cur, t, j, RulePos(t, d, cur[j].key)); }
  }

  /** The words `done` are the code of the first `k` rules. */
  ghost predicate RulesCoded(t: Tree, d: nat, done: Code, k: nat)
    requires t.Grammar? && k <= |t.rules|
  {
    && 4 + |done| == RulePos(t, d, k) && done + GenRules(t, d, k) == GenRules(t, d, 0)
    && (k == |t.rules| ==> done == GenRules(t, d, 0))
  }

  lemma NextRule(t: Tree, d: nat, done: Code, k: nat)
    requires t.Grammar? && k < |t.rules| && RulesCoded(t, d, done, k)
    ensures RulesCoded(t, d, done + (RuleCode(t, d, k) + [IRet]), k + 1)
  {
    AppendIn(done, RuleCode(t, d, k) + [IRet], GenRules(t, d, k + 1));
    if k + 1 == |t.rules| {
      var next := done + (RuleCode(t, d, k) + [IRet]);
      assert GenRules(t, d, k + 1) == [] && next + [] == next;
    }
  }

  class CompileState {
    var code: Code
    const d: nat

    constructor (d: nat)
      ensures code == [] && this.d == d
    {
      code, this.d := [], d;
    }

    method AddInstruction(w: Word) returns (i: nat)
      modifies this
      ensures code == old(code) + [w] && i == |old(code)|
    {
      i := |code|;
      code := code + [w];
    }

    /** `addoffsetinst`: an instruction and room for its label. */
    method AddOffsetInst(w: Word) returns (i: nat)
      modifies this
      ensures code == old(code) + [w, if w.IOpenCall? then Hole else Off(0)] && i == |old(code)|
    {
      i := |code|;
      code := code + [w];
      code := code + [if w.IOpenCall? then Hole else Off(0)];
    }

    /** `jumptothere` */
    method JumpToThere(i: int, target: int)
      requires 0 <= i ==> i + 1 < |code|
      modifies this
      ensures code == if i >= 0 then old(code)[i + 1 := Off(target - i)] else old(code)
    {
      if i >= 0 {
        code := code[i + 1 := Off(target - i)];
      }
    }

    method JumpToHere(i: int)
      requires 0 <= i ==> i + 1 < |code|
      modifies this
      ensures code == if i >= 0 then old(code)[i + 1 := Off(|old(code)| - i)] else old(code)
    {
      JumpToThere(i, |code|);
    }

    /** `jumptohere` for the instruction at offset `k` of the words `w` written since `u`. */
    method JumpFrom(i: int, ghost u: Code, ghost w: Code, ghost k: int)
      requires code == u + w && (if i >= 0 then i == |u| + k && 0 <= k && k + 1 < |w| else k < 0)
      modifies this
      ensures code == u + if k >= 0 then w[k + 1 := Off(|w| - k)] else w
    {
      if i >= 0 { PatchIn(u, w, k + 1, Off(|w| - k)); }
      JumpToHere(i);
    }

    method AddCharset(cs: Charset)
      modifies this
      ensures code == old(code) + Buffer(cs)
    {
      code := code + Buffer(cs);
    }

    method CodeCharAt(c: Byte, tt: int)
      requires TestIn(code, tt)
      modifies this
      ensures code == old(code) + CodeChar(c, TestAt(old(code), tt))
    {
      var _ := AddInstruction(if tt >= 0 && code[tt] == ITestChar(c) then IAny else IChar(c));
    }

    method CodeCharsetAt(cs: Charset, tt: int)
      requires TestIn(code, tt)
      modifies this
      ensures code == old(code) + CodeCharset(cs, TestAt(old(code), tt))
    {
      match CharsetType(cs) {
        case OneChar(c) => CodeCharAt(c, tt);
        case PlainSet =>
          if tt >= 0 && code[tt] == ITestSet && code[tt + 2].cs == cs {
            var _ := AddInstruction(IAny);
          } else {
            ghost var was := code;
            var _ := AddInstruction(ISet);
            AddCharset(cs);
            assert code == was + ([ISet] + Buffer(cs));
          }
        case EmptySet => var _ := AddInstruction(IFail);
        case FullSet => var _ := AddInstruction(IAny);
      }
    }

    /** `codetestset` */
    method CodeTestSet(cs: Charset, e: bool) returns (i: int)
      modifies this
      ensures code == old(code) + TestCode(TestFor(cs, e), 0)
      ensures i == if e then NOINST else |old(code)|
      ensures TestIn(code, i) && TestAt(code, i) == TestFor(cs, e)
    {
      if e {
        i := NOINST;
      } else {
        ghost var was := code;
        match CharsetType(cs) {
          case EmptySet => i := AddOffsetInst(IJmp);
          case FullSet => i := AddOffsetInst(ITestAny);
          case OneChar(c) => i := AddOffsetInst(ITestChar(c));
          case PlainSet =>
            i := AddOffsetInst(ITestSet);
            AddCharset(cs);
            assert code == was + ([ITestSet, Off(0)] + Buffer(cs));
        }
        assert code == was + TestCode(TestFor(cs, e), 0) + [];
        TestThere(was, TestFor(cs, e), 0, []);
      }
    }

    // ---------- code generation ----------

    ghost predicate Fit(g: seq<Tree>, t: Tree, tt: int)
      reads this
    {
      WellFormed(g, d, t) && TestIn(code, tt)
    }

    /** `codegen` */
    method CodeGen(g: seq<Tree>, t: Tree, opt: bool, tt: int, fl: Charset)
      requires Fit(g, t, tt)
      modifies this
      ensures code == old(code) + Gen(g, d, t, opt, TestAt(old(code), tt), fl)
      decreases t, 1
    {
      match t {
        case Char(c) => CodeCharAt(c, tt);
        case Any => var _ := AddInstruction(IAny);
        case Set(cs) => CodeCharsetAt(cs, tt);
        case True =>
        case False => var _ := AddInstruction(IFail);
        case Choice(_, _) => CodeChoice(g, t, opt, tt, fl);
        case Rep(_) => CodeRep(g, t, opt, tt, fl);
        case Behind(_, _) => CodeBehind(g, t, opt, tt, fl);
        case Not(_) => CodeNot(g, t, opt, tt, fl);
        case And(_) => CodeAnd(g, t, opt, tt, fl);
        case Capture(_) => CodeCapture(g, t, opt, tt, fl);
        case Grammar(_) => CodeGrammar(g, t, opt, tt, fl);
        case Call(r) => var _ := AddOffsetInst(IOpenCall(r));
        case Seq(_, _) => CodeSeq(g, t, opt, tt, fl);
      }
    }

    /** `codebehind` */
    method CodeBehind(g: seq<Tree>, t: Tree, opt: bool, ghost tt: int, ghost fl: Charset)
      requires t.Behind? && Fit(g, t, tt)
      modifies this
      ensures code == old(code) + Gen(g, d, t, opt, TestAt(old(code), tt), fl)
      decreases t, 0
    {
      ghost var u := code;
      if t.n > 0 { var _ := AddInstruction(IBehind(t.n)); }
      CodeGen(g, t.body, false, NOINST, FULL);
      AppendIn(u, BehindCode(t.n), Gen(g, d, t.body, false, NoTest, FULL));
    }

    method CodeSeq(g: seq<Tree>, t: Tree, opt: bool, tt: int, fl: Charset)
      requires t.Seq? && Fit(g, t, tt)
      modifies this
      ensures code == old(code) + Gen(g, d, t, opt, TestAt(old(code), tt), fl)
      decreases t, 0
    {
      ghost var u := code;
      var tt2 := CodeSeq1(g, t.p1, t.p2, tt, fl);
      CodeGen(g, t.p2, opt, tt2, fl);
      AppendIn(u, Gen(g, d, t.p1, false, TestAt(u, tt), FollowOfFirst(g, d, t.p1, t.p2, fl)),
               Gen(g, d, t.p2, opt, TestAfter(g, d, t.p1, TestAt(u, tt)), fl));
    }

    /** `codeseq1` */
    method CodeSeq1(g: seq<Tree>, p: Tree, q: Tree, tt: int, fl: Charset) returns (tt2: int)
      requires Fit(g, p, tt)
      modifies this
      ensures code == old(code) + Gen(g, d, p, false, TestAt(old(code), tt), FollowOfFirst(g, d, p, q, fl))
      ensures TestIn(code, tt2) && TestAt(code, tt2) == TestAfter(g, d, p, TestAt(old(code), tt))
      decreases p, 2
    {
      ghost var u := code;
      if NeedFollow(p) {
        CodeGen(g, p, false, tt, GetFirst(g, q, fl, d).cs);
      } else {
        CodeGen(g, p, false, tt, FULL);
      }
      TestKept(u, Gen(g, d, p, false, TestAt(u, tt), FollowOfFirst(g, d, p, q, fl)), tt);
      tt2 := if FixedLen(g, p, d) != 0 then NOINST else tt;
    }

    /** `codechoice` */
    method CodeChoice(g: seq<Tree>, t: Tree, opt: bool, ghost tt: int, fl: Charset)
      requires t.Choice? && Fit(g, t, tt)
      modifies this
      ensures code == old(code) + Gen(g, d, t, opt, TestAt(old(code), tt), fl)
      decreases t, 0
    {
      var p, q := t.p1, t.p2;
      var f1 := GetFirst(g, p, FULL, d);
      if HeadFail(g, p, d) || (!f1.e && f1.cs !! GetFirst(g, q, fl, d).cs) {
        CodeTestedChoice(g, p, q, opt, fl);
      } else if opt && q.True? {
        CodeOptional(g, p);
      } else {
        CodeFullChoice(g, p, q, opt, fl);
      }
    }

    method CodeOptional(g: seq<Tree>, p: Tree)
      requires Fit(g, p, NOINST)
      modifies this
      ensures code == old(code) + ([IPartialCommit, Off(2)] + Gen(g, d, p, true, NoTest, FULL))
      decreases p, 3
    {
      ghost var u := code;
      var i := AddOffsetInst(IPartialCommit);
      PatchIn(u, [IPartialCommit, Off(0)], 1, Off(2));
      JumpToHere(i);
      assert [IPartialCommit, Off(0)][1 := Off(2)] == [IPartialCommit, Off(2)];
      CodeGen(g, p, true, NOINST, FULL);
      AppendIn(u, [IPartialCommit, Off(2)], Gen(g, d, p, true, NoTest, FULL));
    }

    /** First branch of `codechoice`. */
    method CodeTestedChoice(g: seq<Tree>, p: Tree, q: Tree, opt: bool, fl: Charset)
      requires Fit(g, p, NOINST) && Fit(g, q, NOINST)
      modifies this
      ensures code == old(code) + TestedChoice(HardGuard(g, d, p), Gen(g, d, p, false, HardGuard(g, d, p), fl), Gen(g, d, q, opt, NoTest, fl), q.True?)
      decreases Choice(p, q), 0, 0
    {
      ghost var u := code;
      ghost var tw := HardGuard(g, d, p);
      ghost var c1 := Gen(g, d, p, false, tw, fl);
      ghost var c2 := Gen(g, d, q, opt, NoTest, fl);
      var test, jmp := CodeTested(g, p, q.True?, fl);
      ghost var w := TestedOpen(tw, c1, if q.True? then [] else [IJmp, Off(0)]);
      CodeGen(g, q, opt, NOINST, fl);
      AppendIn(u, w, c2);
      PatchTested(jmp, u, tw, c1, c2, q.True?);
    }

    /** The jump behind the first alternative, if any, goes to the end. */
    method PatchTested(jmp: int, ghost u: Code, ghost tw: Test, ghost c1: Code, ghost c2: Code, ghost empty2: bool)
      requires code == u + (TestedOpen(tw, c1, if empty2 then [] else [IJmp, Off(0)]) + c2)
      requires jmp == if empty2 then NOINST else |u| + TestSize(tw) + |c1|
      modifies this
      ensures code == u + TestedChoice(tw, c1, c2, empty2)
    {
      ghost var w := TestedOpen(tw, c1, if empty2 then [] else [IJmp, Off(0)]);
      JumpFrom(jmp, u, w + c2, if empty2 then -1 else TestSize(tw) + |c1|);
      BuildTestedChoice(tw, c1, c2, empty2);
    }

    /** A test that replaces a backtrack entry, the code it protects and, unless nothing
        follows, a jump over what follows. */
    method CodeTested(g: seq<Tree>, p: Tree, last: bool, fl: Charset) returns (test: int, jmp: int)
      requires Fit(g, p, NOINST)
      modifies this
      ensures var tw := HardGuard(g, d, p);
        var c1 := Gen(g, d, p, false, tw, fl);
        && code == old(code) + TestedOpen(tw, c1, if last then [] else [IJmp, Off(0)])
        && test == |old(code)| && jmp == (if last then NOINST else |old(code)| + TestSize(tw) + |c1|)
      decreases p, 2
    {
      ghost var u := code;
      ghost var tw := HardGuard(g, d, p);
      test := CodeTestSet(GetFirst(g, p, FULL, d).cs, false);
      ghost var w := TestCode(tw, 0);
      CodeGen(g, p, false, test, fl);
      ghost var c1 := Gen(g, d, p, false, tw, fl);
      AppendIn(u, w, c1);
      w := w + c1;
      jmp := NOINST;
      ghost var j0: Code := [];
      if !last {
        jmp := AddOffsetInst(IJmp);
        j0 := [IJmp, Off(0)];
      }
      AppendIn(u, w, j0);
      JumpFrom(test, u, w + j0, 0);
      BuildTested(tw, c1, j0);
    }

    /** Last branch of `codechoice`. */
    method CodeFullChoice(g: seq<Tree>, p: Tree, q: Tree, opt: bool, fl: Charset)
      requires Fit(g, p, NOINST) && Fit(g, q, NOINST)
      modifies this
      ensures code == old(code) + FullChoice(Guard(g, d, p), Gen(g, d, p, q.True?, Guard(g, d, p), FULL), Gen(g, d, q, opt, NoTest, fl))
      decreases Choice(p, q), 0, 0
    {
      ghost var u := code;
      ghost var tw := Guard(g, d, p);
      ghost var c1 := Gen(g, d, p, q.True?, tw, FULL);
      ghost var c2 := Gen(g, d, q, opt, NoTest, fl);
      var pcommit := CodeGuarded(g, p, q.True?);
      CodeGen(g, q, opt, NOINST, fl);
      AppendIn(u, GuardedOpen(tw, c1), c2);
      PatchFull(pcommit, u, tw, c1, c2);
    }

    /** The commit behind the first alternative goes to the end. */
    method PatchFull(pcommit: int, ghost u: Code, ghost tw: Test, ghost c1: Code, ghost c2: Code)
      requires code == u + (GuardedOpen(tw, c1) + c2) && pcommit == |u| + TestSize(tw) + 2 + |c1|
      modifies this
      ensures code == u + FullChoice(tw, c1, c2)
    {
      JumpFrom(pcommit, u, GuardedOpen(tw, c1) + c2, TestSize(tw) + 2 + |c1|);
      BuildFullChoice(tw, c1, c2);
    }

    /** Test, choice, guarded code and commit. */
    method CodeGuarded(g: seq<Tree>, p: Tree, opt: bool) returns (pcommit: int)
      requires Fit(g, p, NOINST)
      modifies this
      ensures var tw := Guard(g, d, p);
        var c1 := Gen(g, d, p, opt, tw, FULL);
        code == old(code) + GuardedOpen(tw, c1) && pcommit == |old(code)| + TestSize(tw) + 2 + |c1|
      decreases p, 3
    {
      ghost var u := code;
      ghost var tw := Guard(g, d, p);
      ghost var c1 := Gen(g, d, p, opt, tw, FULL);
      var test, pchoice;
      test, pchoice, pcommit := CodeUnlabelled(g, p, opt);
      ghost var w := TestCode(tw, 0) + [IChoice, Off(0)] + c1 + [ICommit, Off(0)];
      JumpFrom(pchoice, u, w, TestSize(tw));
      JumpFrom(test, u, w[TestSize(tw) + 1 := Off(2 + |c1| + 2)], if tw.NoTest? then -1 else 0);
      BuildGuarded(tw, c1);
    }

    /** The same, all labels still open. */
    method CodeUnlabelled(g: seq<Tree>, p: Tree, opt: bool) returns (test: int, pchoice: int, pcommit: int)
      requires Fit(g, p, NOINST)
      modifies this
      ensures var tw := Guard(g, d, p);
        var c1 := Gen(g, d, p, opt, tw, FULL);
        && code == old(code) + (TestCode(tw, 0) + [IChoice, Off(0)] + c1 + [ICommit, Off(0)])
        && test == (if tw.NoTest? then NOINST else |old(code)|)
        && pchoice == |old(code)| + TestSize(tw) && pcommit == pchoice + 2 + |c1|
      decreases p, 2
    {
      ghost var u := code;
      var f := GetFirst(g, p, FULL, d);
      test := CodeTestSet(f.cs, f.e);
      ghost var tw := Guard(g, d, p);
      ghost var c1 := Gen(g, d, p, opt, tw, FULL);
      ghost var w := TestCode(tw, 0);
      TestKept(code, [IChoice, Off(0)], test);
      pchoice := AddOffsetInst(IChoice);
      AppendIn(u, w, [IChoice, Off(0)]);
      w := w + [IChoice, Off(0)];
      CodeGen(g, p, opt, test, FULL);
      AppendIn(u, w, c1);
      w := w + c1;
      pcommit := AddOffsetInst(ICommit);
      AppendIn(u, w, [ICommit, Off(0)]);
    }

    /** `coderep` */
    method CodeRep(g: seq<Tree>, t: Tree, opt: bool, ghost tt: int, fl: Charset)
      requires t.Rep? && Fit(g, t, tt)
      modifies this
      ensures code == old(code) + Gen(g, d, t, opt, TestAt(old(code), tt), fl)
      decreases t, 0
    {
      ghost var u := code;
      var p := t.body;
      var (one, cs) := ToCharset(p);
      var f := GetFirst(g, p, FULL, d);
      if one {
        var _ := AddInstruction(ISpan);
        AddCharset(cs);
        AppendIn(u, [ISpan], Buffer(cs));
      } else if HeadFail(g, p, d) || (!f.e && f.cs !! fl) {
        CodeTestedLoop(g, p);
      } else {
        CodeFullLoop(g, p, opt);
      }
    }

    method CodeTestedLoop(g: seq<Tree>, p: Tree)
      requires Fit(g, p, NOINST)
      modifies this
      ensures code == old(code) + TestedLoop(HardGuard(g, d, p), Gen(g, d, p, false, HardGuard(g, d, p), FULL))
      decreases p, 3
    {
      ghost var u := code;
      ghost var tw := HardGuard(g, d, p);
      ghost var c := Gen(g, d, p, false, tw, FULL);
      var test, jmp := CodeTested(g, p, false, FULL);
      ghost var l := TestSize(tw) + |c|;
      PatchIn(u, TestedOpen(tw, c, [IJmp, Off(0)]), l + 1, Off(-l));
      JumpToThere(jmp, test);
      BuildTestedLoop(tw, c);
    }

    method CodeFullLoop(g: seq<Tree>, p: Tree, opt: bool)
      requires Fit(g, p, NOINST)
      modifies this
      ensures code == old(code) + FullLoop(Guard(g, d, p), Gen(g, d, p, false, NoTest, FULL), opt)
      decreases p, 4
    {
      ghost var u := code;
      var f := GetFirst(g, p, FULL, d);
      ghost var tw := Guard(g, d, p);
      ghost var c := Gen(g, d, p, false, NoTest, FULL);
      var test := CodeTestSet(f.cs, f.e);
      CodeLoop(g, p, opt);
      ghost var w := LoopWords(c, if opt then [IPartialCommit, Off(2)] else [IChoice, Off(2 + |c| + 2)]);
      AppendIn(u, TestCode(tw, 0), w);
      JumpFrom(test, u, TestCode(tw, 0) + w, if tw.NoTest? then -1 else 0);
      BuildFullLoop(tw, c, opt);
    }

    /** The loop of `coderep` with its entry. */
    method CodeLoop(g: seq<Tree>, p: Tree, opt: bool)
      requires Fit(g, p, NOINST)
      modifies this
      ensures var c := Gen(g, d, p, false, NoTest, FULL);
        code == old(code) + LoopWords(c, if opt then [IPartialCommit, Off(2)] else [IChoice, Off(2 + |c| + 2)])
      decreases p, 3
    {
      ghost var u := code;
      ghost var c := Gen(g, d, p, false, NoTest, FULL);
      if opt {
        var i := AddOffsetInst(IPartialCommit);
        JumpFrom(i, u, [IPartialCommit, Off(0)], 0);
        OptionalLabel();
        CodeLoopBody(g, p, u, [IPartialCommit, Off(2)]);
      } else {
        var pchoice := AddOffsetInst(IChoice);
        CodeLoopBody(g, p, u, [IChoice, Off(0)]);
        JumpFrom(pchoice, u, LoopWords(c, [IChoice, Off(0)]), 0);
        EnterLabel(c);
      }
    }

    method CodeLoopBody(g: seq<Tree>, p: Tree, ghost u: Code, ghost enter: Code)
      requires Fit(g, p, NOINST) && code == u + enter && |enter| == 2
      modifies this
      ensures code == u + LoopWords(Gen(g, d, p, false, NoTest, FULL), enter)
      decreases p, 2
    {
      var l2 := |code|;
      ghost var c := Gen(g, d, p, false, NoTest, FULL);
      CodeGen(g, p, false, NOINST, FULL);
      AppendIn(u, enter, c);
      var commit := AddOffsetInst(IPartialCommit);
      AppendIn(u, enter + c, [IPartialCommit, Off(0)]);
      PatchIn(u, enter + c + [IPartialCommit, Off(0)], 2 + |c| + 1, Off(-|c|));
      JumpToThere(commit, l2);
      BuildLoop(c, enter);
    }

    /** `codenot` */
    method CodeNot(g: seq<Tree>, t: Tree, opt: bool, ghost tt: int, ghost fl: Charset)
      requires t.Not? && Fit(g, t, tt)
      modifies this
      ensures code == old(code) + Gen(g, d, t, opt, TestAt(old(code), tt), fl)
      decreases t, 0
    {
      ghost var u := code;
      var p := t.body;
      var f := GetFirst(g, p, FULL, d);
      var test := CodeTestSet(f.cs, f.e);
      ghost var tw := Guard(g, d, p);
      ghost var w := TestCode(tw, 0);
      if HeadFail(g, p, d) {
        var _ := AddInstruction(IFail);
        AppendIn(u, w, [IFail]);
        w := w + [IFail];
        BuildTestedNot(tw);
      } else {
        ghost var c := Gen(g, d, p, false, NoTest, FULL);
        CodeNotBody(g, p);
        AppendIn(u, w, [IChoice, Off(2 + |c| + 1)] + c + [IFailTwice]);
        w := w + ([IChoice, Off(2 + |c| + 1)] + c + [IFailTwice]);
        BuildFullNot(tw, c);
      }
      JumpFrom(test, u, w, if tw.NoTest? then -1 else 0);
    }

    method CodeNotBody(g: seq<Tree>, p: Tree)
      requires Fit(g, p, NOINST)
      modifies this
      ensures var c := Gen(g, d, p, false, NoTest, FULL);
        code == old(code) + ([IChoice, Off(2 + |c| + 1)] + c + [IFailTwice])
      decreases p, 2
    {
      ghost var u := code;
      var pchoice := AddOffsetInst(IChoice);
      CodeGen(g, p, false, NOINST, FULL);
      ghost var c := Gen(g, d, p, false, NoTest, FULL);
      AppendIn(u, [IChoice, Off(0)], c);
      var _ := AddInstruction(IFailTwice);
      ghost var w := [IChoice, Off(0)] + c + [IFailTwice];
      AppendIn(u, [IChoice, Off(0)] + c, [IFailTwice]);
      PatchIn(u, w, 1, Off(|w|));
      JumpToHere(pchoice);
      assert w[1 := Off(|w|)] == [IChoice, Off(2 + |c| + 1)] + c + [IFailTwice];
    }

    /** `codeand` */
    method CodeAnd(g: seq<Tree>, t: Tree, opt: bool, tt: int, ghost fl: Charset)
      requires t.And? && Fit(g, t, tt)
      modifies this
      ensures code == old(code) + Gen(g, d, t, opt, TestAt(old(code), tt), fl)
      decreases t, 0
    {
      ghost var u := code;
      var p := t.body;
      var n := FixedLen(g, p, d);
      if 0 <= n <= MAXBEHIND && !HasCaptures(g, p, d) {
        CodeGen(g, p, false, tt, FULL);
        if n > 0 { var _ := AddInstruction(IBehind(n)); }
        AppendIn(u, Gen(g, d, p, false, TestAt(u, tt), FULL), BehindCode(n));
      } else {
        CodeFullAnd(g, p, tt);
      }
    }

    method CodeFullAnd(g: seq<Tree>, p: Tree, tt: int)
      requires Fit(g, p, tt)
      modifies this
      ensures code == old(code) + FullAnd(Gen(g, d, p, false, TestAt(old(code), tt), FULL))
      decreases p, 2
    {
      ghost var u := code;
      ghost var c := Gen(g, d, p, false, TestAt(u, tt), FULL);
      TestKept(u, [IChoice, Off(0)], tt);
      var pchoice := AddOffsetInst(IChoice);
      CodeGen(g, p, false, tt, FULL);
      AppendIn(u, [IChoice, Off(0)], c);
      var pcommit := AddOffsetInst(IBackCommit);
      ghost var w := [IChoice, Off(0)] + c + [IBackCommit, Off(0)];
      AppendIn(u, [IChoice, Off(0)] + c, [IBackCommit, Off(0)]);
      PatchIn(u, w, 1, Off(|w|));
      JumpToHere(pchoice);
      w := w[1 := Off(|w|)];
      var _ := AddInstruction(IFail);
      AppendIn(u, w, [IFail]);
      w := w + [IFail];
      PatchIn(u, w, 2 + |c| + 1, Off(3));
      JumpToHere(pcommit);
      BuildFullAnd(c);
    }

    /** `codecapture` */
    method CodeCapture(g: seq<Tree>, t: Tree, opt: bool, tt: int, fl: Charset)
      requires t.Capture? && Fit(g, t, tt)
      modifies this
      ensures code == old(code) + Gen(g, d, t, opt, TestAt(old(code), tt), fl)
      decreases t, 0
    {
      ghost var u := code;
      var p := t.body;
      var len := FixedLen(g, p, d);
      ghost var c := Gen(g, d, p, false, TestAt(u, tt), fl);
      if 0 <= len <= MAXOFF && !HasCaptures(g, p, d) {
        CodeGen(g, p, false, tt, fl);
        var _ := AddInstruction(IFullCapture(len));
        AppendIn(u, c, [IFullCapture(len)]);
      } else {
        TestKept(u, [IOpenCapture], tt);
        var _ := AddInstruction(IOpenCapture);
        CodeGen(g, p, false, tt, fl);
        AppendIn(u, [IOpenCapture], c);
        var _ := AddInstruction(ICloseCapture);
        AppendIn(u, [IOpenCapture] + c, [ICloseCapture]);
      }
    }

    /** `codegrammar` */
    method CodeGrammar(g: seq<Tree>, t: Tree, opt: bool, ghost tt: int, ghost fl: Charset)
      requires t.Grammar? && Fit(g, t, tt)
      modifies this
      ensures code == old(code) + Gen(g, d, t, opt, TestAt(old(code), tt), fl)
      decreases t, 0
    {
      ghost var u := code;
      var jumptoend := CodeGrammarHead();
      ghost var head0 := [ICall, Off(4), IJmp, Off(0)];
      var start := |code|;
      var positions := CodeRules(t);
      AppendIn(u, head0, GenRules(t, d, 0));
      JumpFrom(jumptoend, u, head0 + GenRules(t, d, 0), 2);
      assert (head0 + GenRules(t, d, 0))[3 := Off(2 + |GenRules(t, d, 0)|)] == RawGrammar(t, d);
      assert WellFormed([], d, t);
      CloseCalls(t, positions, start, u);
    }

    /** `call L1; jmp L2; L1:`, the second label still open. */
    method CodeGrammarHead() returns (jumptoend: int)
      modifies this
      ensures code == old(code) + [ICall, Off(4), IJmp, Off(0)] && jumptoend == |old(code)| + 2
    {
      ghost var u := code;
      var firstcall := AddOffsetInst(ICall);
      jumptoend := AddOffsetInst(IJmp);
      AppendIn(u, [ICall, Off(0)], [IJmp, Off(0)]);
      JumpFrom(firstcall, u, [ICall, Off(0)] + [IJmp, Off(0)], 0);
      assert ([ICall, Off(0)] + [IJmp, Off(0)])[1 := Off(4)] == [ICall, Off(4), IJmp, Off(0)];
    }

    /** The loop of `codegrammar` over the rules. */
    method CodeRules(t: Tree) returns (positions: seq<int>)
      requires t.Grammar? && Fit([], t, NOINST) && |code| >= 4
      modifies this
      ensures code == old(code) + GenRules(t, d, 0)
      ensures |positions| == |t.rules|
      ensures forall r :: 0 <= r < |t.rules| ==> positions[r] == |old(code)| - 4 + RulePos(t, d, r)
      decreases t, 0, 1
    {
      ghost var u, done := code, [];
      positions := [];
      var k := 0;
      while k < |t.rules|
        invariant 0 <= k <= |t.rules| && |positions| == k
        invariant code == u + done && RulesCoded(t, d, done, k)
        invariant forall r :: 0 <= r < k ==> positions[r] == |u| - 4 + RulePos(t, d, r)
      {
        positions := positions + [|code|];
        CodeRule(t, k, u, done);
        done := done + (RuleCode(t, d, k) + [IRet]);
        k := k + 1;
      }
    }

    method CodeRule(t: Tree, k: nat, ghost u: Code, ghost done: Code)
      requires t.Grammar? && Fit([], t, NOINST) && k < |t.rules| && code == u + done && RulesCoded(t, d, done, k)
      modifies this
      ensures code == u + (done + (RuleCode(t, d, k) + [IRet])) && RulesCoded(t, d, done + (RuleCode(t, d, k) + [IRet]), k + 1)
      decreases t, 0, 0
    {
      CodeGen(t.rules, t.rules[k], false, NOINST, FULL);
      var _ := AddInstruction(IRet);
      AppendIn(u + done, RuleCode(t, d, k), [IRet]);
      AppendIn(u, done, RuleCode(t, d, k) + [IRet]);
      NextRule(t, d, done, k);
    }

    /** `correctcalls` */
    method CloseCalls(t: Tree, positions: seq<int>, from: int, ghost u: Code)
      requires t.Grammar? && WellFormed([], d, t)
      requires code == u + RawGrammar(t, d) && from == |u| + 4
      requires |positions| == |t.rules| && forall r :: 0 <= r < |t.rules| ==> positions[r] == |u| + RulePos(t, d, r)
      modifies this
      ensures code == u + CorrectCalls(RawGrammar(t, d), t, d, 4)
    {
      ghost var cur := RawGrammar(t, d);
      ghost var cc := CorrectCalls(cur, t, d, 4);
      GrammarReady(t, d);
      var i := from;
      while i < |code|
        invariant |u| + 4 <= i && code == u + cur
        invariant ClosingAt(t, d, cur, cc, i - |u|)
        decreases |code| - i
      {
        i, cur := CloseNext(t, positions, i, u, cur, cc);
      }
    }

    /** The instruction at `i` of the loop over the open calls. */
    method CloseNext(t: Tree, positions: seq<int>, i: nat, ghost u: Code, ghost cur: Code, ghost cc: Code)
      returns (next: nat, ghost cur': Code)
      requires t.Grammar? && WellFormed([], d, t)
      requires |positions| == |t.rules| && forall r :: 0 <= r < |t.rules| ==> positions[r] == |u| + RulePos(t, d, r)
      requires |u| + 4 <= i < |code| && code == u + cur && ClosingAt(t, d, cur, cc, i - |u|)
      modifies this
      ensures |code| == old(|code|) && code == u + cur' && i < next && ClosingAt(t, d, cur', cc, next - |u|)
    {
      ghost var j := i - |u|;
      assert code[i] == cur[j];
      cur' := cur;
      if code[i].IOpenCall? {
        CloseOne(t, positions, i, u, cur, cc);
        cur' := CloseCall(cur, j, RulePos(t, d, cur[j].key));
        next := i + 2;
      } else {
        next := i + SizeI(code[i]);
        ClosingStep(t, d, cur, cc, j);
      }
    }

    /** Closing one open call, as a tail call if a return follows. */
    method CloseOne(t: Tree, positions: seq<int>, i: nat, ghost u: Code, ghost cur: Code, ghost cc: Code)
      requires t.Grammar? && WellFormed([], d, t)
      requires |positions| == |t.rules| && forall r :: 0 <= r < |t.rules| ==> positions[r] == |u| + RulePos(t, d, r)
      requires |u| <= i < |code| && code == u + cur && ClosingAt(t, d, cur, cc, i - |u|) && code[i].IOpenCall?
      modifies this
      ensures var j := i - |u|;
        && j + 1 < |cur| && cur[j].IOpenCall? && cur[j].key < |t.rules|
        && code == u + CloseCall(cur, j, RulePos(t, d, cur[j].key))
        && ClosingAt(t, d, CloseCall(cur, j, RulePos(t, d, cur[j].key)), cc, j + 2)
    {
      ghost var j := i - |u|;
      ClosingStep(t, d, cur, cc, j);
      var rule := positions[code[i].key];
      ClosingLands(t, d, cur, cc, j, u);
      var ft := FollowJumps(code, i + 2);
      var w := if 0 <= ft < |code| && code[ft] == IRet then IJmp else ICall;
      WriteCall(i, w, rule, u, cur);
    }

    /** The instruction at `i` and its label. */
    method WriteCall(i: nat, w: Word, rule: int, ghost u: Code, ghost cur: Code)
      requires |u| <= i && i + 1 < |code| && code == u + cur
      modifies this
      ensures code == u + cur[i - |u| := w][i - |u| + 1 := Off(rule - i)]
    {
      PatchIn(u, cur, i - |u|, w);
      PatchIn(u, cur[i - |u| := w], i - |u| + 1, Off(rule - i));
      code := code[i := w];
      JumpToThere(i, rule);
    }

    // ---------- peephole ----------

    /** One visit of `peephole` to the instruction at `i`. */
    method PeepVisit(i: nat)
      requires i < |code| && AllEnd(code)
      modifies this
      ensures code == PeepFirst(old(code), i) && AllEnd(code)
    {
      ghost var was := code;
      PeepFirstRewrites(code, i);
      if PeepFirst(code, i) != code { RewriteAllEnd(code, PeepFirst(code, i), i); }
      if HasLabel(code, i) {
        if Labelled(code[i]) {
          assert Ends(code, Label(code, i));
          var l := FollowJumps(code, Label(code, i));
          JumpToThere(i, l);
        } else if code[i] == IJmp {
          assert Ends(code, i);
          var ft := FollowJumps(code, i);
          if 0 <= ft < |code| && Final(code[ft]) {
            code := code[i := code[ft]][i + 1 := IAny];
          } else if 0 <= ft < |code| && Leaving(code[ft]) && HasLabel(code, ft) {
            assert Ends(code, Label(code, ft));
            var fft := FollowJumps(code, Label(code, ft));
            code := code[i := code[ft]];
            JumpToThere(i, fft);
          } else {
            JumpToThere(i, ft);
          }
        }
      }
    }

    /** `peephole` */
    method PeepholePass()
      requires AllEnd(code)
      modifies this
      ensures code == Peephole(old(code)) && AllEnd(code)
    {
      var i: nat := 0;
      ghost var final := Peephole(code);
      while i < |code|
        invariant AllEnd(code) && PeepFrom(code, i) == final
        decreases |code| - i
      {
        i := PeepNext(i, final);
      }
    }

    method PeepNext(i: nat, ghost final: Code) returns (next: nat)
      requires i < |code| && AllEnd(code) && PeepFrom(code, i) == final
      modifies this
      ensures AllEnd(code) && |code| == old(|code|) && i < next && PeepFrom(code, next) == final
    {
      PeepFromStep(code, i);
      PeepInstruction(i);
      next := i + SizeI(code[i]);
    }

    method PeepInstruction(i: nat)
      requires i < |code| && AllEnd(code)
      modifies this
      ensures code == PeepAt(old(code), i) && AllEnd(code)
    {
      var jump := code[i] == IJmp;
      PeepVisit(i);
      if jump && Leaving(code[i]) {
        PeepVisit(i);
      }
    }

    /** `compile`, for the patterns for which it returns. */
    method CompilePattern(t: Tree)
      requires WellFormed([], d, t) && CompileReturns(t, d)
      modifies this
      ensures code == Compile(t, d)
    {
      code := [];
      CodeGen([], t, false, NOINST, FULL);
      var _ := AddInstruction(IEnd);
      assert code == CompileRaw(t, d);
      CompiledParses(t, d);
      PassReturnsIff(code);
      PeepholePass();
    }
  }

  /** `initposition`: positions count from 1, negative ones from the end; cropped to the
      subject. */
  function InitPosition(len: nat, init: int): (i: nat)
    ensures i <= len
    ensures 1 <= init <= len ==> i == init - 1
    ensures init <= 0 <= len + init ==> i == len + init
  {
    if init > 0 then (if init <= len then init - 1 else len)
    else if -init <= len then len + init else 0
  }

  /** `lp_match`: compile, run, answer; for every pattern for which compilation returns and the semantics has an
      answer. */
  method MatchPattern(t: Tree, d: nat, s: Subject, init: int) returns (r: Result)
    requires WellFormed([], d, t) && CompileReturns(t, d) && exists m :: Means([], t, s, InitPosition(|s|, init), m)
    ensures Means([], t, s, InitPosition(|s|, init), r)
  {
    var compst := new CompileState(d);
    compst.CompilePattern(t);
    var i := InitPosition(|s|, init);
    ghost var m :| Means([], t, s, i, m);
    CompileAgrees(t, d, s, i, m, AnswerOf(m));
    var a := RunMachine(compst.code, s, i);
    CompileAgrees(t, d, s, i, m, a);
    r := if a.Matched? then Ok(a.pos) else Fail;
  }
}
