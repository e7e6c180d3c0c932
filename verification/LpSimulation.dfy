/** Correctness of code generation: the machine, run on the generated code, computes the
    PEG semantics.

    A block of code is never judged alone.  Its lemma speaks about the whole machine run:
    if the run that goes on behind the block after a match, or the run that fails on
    entering the block after a failure, stops with answer `ans`, then so does the run that
    enters the block.  The follow set is the promise that failing gives `ans`, too, when
    the match ends before a character outside that set.
 */
module LpSimulation {
  import opened Peg
  import opened LpAnalysis
  import opened LpVm
  import opened LpCodegen
  import opened LpLayout

  // ---------- machine runs ----------

  datatype Ctx = Ctx(code: Code, s: Subject, g: seq<Tree>, d: nat, pos: seq<int>) {
    ghost predicate Stops(st: State, a: Answer) { Halts(code, s, st, a) }

    function Words(t: Tree, opt: bool, tt: Test, fl: Charset): Code { Gen(g, d, t, opt, tt, fl) }

    ghost predicate Here(a: int, w: Code) { a >= 0 && At(code, a, w, pos) }

    function Sem(t: Tree, i: nat, n: nat): Result { Match(g, t, s, i, n) }
  }

  lemma Back1(c: Ctx, st: State, a: Answer)
    requires c.Stops(Step(c.code, c.s, st), a)
    ensures c.Stops(st, a)
  {
    HaltsBack(c.code, c.s, st, a);
  }

  lemma {:induction false} JumpOn(c: Ctx, x: int, i: nat, k: Stack, f: nat, a: Answer)
    requires c.Stops(Run(x, i, k), a)
    ensures c.Stops(Run(FinalTarget(c.code, x, f), i, k), a)
    decreases f
  {
    if f > 0 && 0 <= x < |c.code| && c.code[x] == IJmp && HasLabel(c.code, x) {
      HaltsOn(c.code, c.s, Run(x, i, k), a);
      JumpOn(c, Label(c.code, x), i, k, f - 1, a);
    }
  }

  /** Failing on a fresh backtrack entry resumes there. */
  lemma FailBack(c: Ctx, p: int, i: nat, k: Stack, a: Answer)
    requires c.Stops(Run(p, i, k), a)
    ensures c.Stops(Failing(Push(Back(p, i), k)), a)
  {
    Back1(c, Failing(Push(Back(p, i), k)), a);
  }

  lemma FailReturn(c: Ctx, p: int, k: Stack, a: Answer)
    requires c.Stops(Failing(k), a)
    ensures c.Stops(Failing(Push(Return(p), k)), a)
  {
    Back1(c, Failing(Push(Return(p), k)), a);
  }

  lemma DoJmp(c: Ctx, a: int, delta: int, i: nat, k: Stack, ans: Answer)
    requires c.Here(a, [IJmp, Off(delta)]) && c.Stops(Run(a + delta, i, k), ans)
    ensures c.Stops(Run(a, i, k), ans)
  {
    AtLabel(c.code, a, IJmp, delta, c.pos);
    Back1(c, Run(a, i, k), ans);
  }

  ghost predicate JumpAt(c: Ctx, a: int, l: int) {
    0 <= a < |c.code| && c.code[a] == IJmp && HasLabel(c.code, a) && Label(c.code, a) == l
  }

  lemma RunJump(c: Ctx, a: int, l: int, i: nat, k: Stack, ans: Answer)
    requires JumpAt(c, a, l) && c.Stops(Run(l, i, k), ans)
    ensures c.Stops(Run(a, i, k), ans)
  {
    Back1(c, Run(a, i, k), ans);
  }

  lemma DoChoice(c: Ctx, a: int, delta: int, i: nat, k: Stack, ans: Answer)
    requires c.Here(a, [IChoice, Off(delta)]) && c.Stops(Run(a + 2, i, Push(Back(a + delta, i), k)), ans)
    ensures c.Stops(Run(a, i, k), ans)
  {
    AtLabel(c.code, a, IChoice, delta, c.pos);
    Back1(c, Run(a, i, k), ans);
  }

  lemma DoCommit(c: Ctx, a: int, delta: int, i: nat, p: int, x: nat, k: Stack, ans: Answer)
    requires c.Here(a, [ICommit, Off(delta)]) && c.Stops(Run(a + delta, i, k), ans)
    ensures c.Stops(Run(a, i, Push(Back(p, x), k)), ans)
  {
    AtLabel(c.code, a, ICommit, delta, c.pos);
    Back1(c, Run(a, i, Push(Back(p, x), k)), ans);
  }

  lemma DoPartialCommit(c: Ctx, a: int, delta: int, i: nat, p: int, x: nat, k: Stack, ans: Answer)
    requires c.Here(a, [IPartialCommit, Off(delta)]) && c.Stops(Run(a + delta, i, Push(Back(p, i), k)), ans)
    ensures c.Stops(Run(a, i, Push(Back(p, x), k)), ans)
  {
    AtLabel(c.code, a, IPartialCommit, delta, c.pos);
    Back1(c, Run(a, i, Push(Back(p, x), k)), ans);
  }

  lemma DoBackCommit(c: Ctx, a: int, delta: int, i: nat, p: int, x: nat, k: Stack, ans: Answer)
    requires c.Here(a, [IBackCommit, Off(delta)]) && c.Stops(Run(a + delta, x, k), ans)
    ensures c.Stops(Run(a, i, Push(Back(p, x), k)), ans)
  {
    AtLabel(c.code, a, IBackCommit, delta, c.pos);
    Back1(c, Run(a, i, Push(Back(p, x), k)), ans);
  }

  lemma DoFail(c: Ctx, a: int, i: nat, k: Stack, ans: Answer)
    requires c.Here(a, [IFail]) && c.Stops(Failing(k), ans)
    ensures c.Stops(Run(a, i, k), ans)
  {
    AtWord(c.code, a, IFail, c.pos);
    Back1(c, Run(a, i, k), ans);
  }

  /** A test instruction goes on if it passes and takes its label otherwise. */
  lemma TestRun(c: Ctx, test: Test, offset: int, a: int, i: nat, k: Stack, ans: Answer)
    requires c.Here(a, TestCode(test, offset))
    requires c.Stops(Run(if Passes(test, c.s, i) then a + TestSize(test) else a + offset, i, k), ans)
    ensures c.Stops(Run(a, i, k), ans)
  {
    match test
    case NoTest =>
    case TestSet(cs) =>
      AtAppend(c.code, a, [ITestSet, Off(offset)], Buffer(cs), c.pos);
      AtLabel(c.code, a, ITestSet, offset, c.pos);
      AtBuffer(c.code, a + 2, cs, c.pos);
      Back1(c, Run(a, i, k), ans);
    case TestJmp =>
      AtLabel(c.code, a, IJmp, offset, c.pos);
      Back1(c, Run(a, i, k), ans);
    case TestAny =>
      AtLabel(c.code, a, ITestAny, offset, c.pos);
      Back1(c, Run(a, i, k), ans);
    case TestChar(ch) =>
      AtLabel(c.code, a, ITestChar(ch), offset, c.pos);
      Back1(c, Run(a, i, k), ans);
  }

  lemma TestForPasses(cs: Charset, s: Subject, i: nat)
    ensures Passes(TestFor(cs, false), s, i) <==> Has(s, i, cs)
  {
    if i < |s| { assert s[i] in FULL; }
  }

  // ---------- the statement ----------

  /** Every rule of the grammar in scope stands at its position, closed by a return. */
  ghost predicate Loaded(c: Ctx) {
    && |c.pos| == |c.g|
    && forall r :: 0 <= r < |c.g| ==>
      && WellFormed(c.g, c.d, c.g[r])
      && c.Here(c.pos[r], c.Words(c.g[r], false, NoTest, FULL) + [IRet])
  }

  /** The run behind a block that matched up to `j` answers `ans`.  In an optional context
      the innermost backtrack entry leads to the same answer, whatever position it saved. */
  ghost predicate Exits(c: Ctx, b: int, j: nat, k: Stack, opt: bool, ans: Answer) {
    && c.Stops(Run(b, j, k), ans)
    && (opt ==>
      && k.Push? && k.top.Back?
      && c.Stops(Run(k.top.p, j, k.rest), ans)
      && forall x: nat :: c.Stops(Run(b, j, Push(Back(k.top.p, x), k.rest)), ans))
  }

  /** What surrounds one execution of the block for `t` placed at `a`. */
  ghost predicate Around(c: Ctx, t: Tree, opt: bool, tt: Test, fl: Charset, a: int, i: nat, k: Stack, n: nat, ans: Answer) {
    && Loaded(c) && WellFormed(c.g, c.d, t)
    && c.Here(a, c.Words(t, opt, tt, fl))
    && i <= |c.s| && Passes(tt, c.s, i)
    && c.Sem(t, i, n) != Out
    && Answers(c, a + |c.Words(t, opt, tt, fl)|, c.Sem(t, i, n), opt, fl, k, ans)
  }

  ghost predicate Answers(c: Ctx, b: int, r: Result, opt: bool, fl: Charset, k: Stack, ans: Answer) {
    && (r.Fail? ==> c.Stops(Failing(k), ans))
    && (r.Ok? ==>
      && Exits(c, b, r.pos, k, opt, ans)
      && (r.pos < |c.s| && c.s[r.pos] !in fl ==> c.Stops(Failing(k), ans)))
  }

  /** The block for `t` behaves as the semantics says. */
  lemma {:induction false} Sim(c: Ctx, t: Tree, opt: bool, tt: Test, fl: Charset, a: int, i: nat, k: Stack, n: nat, ans: Answer)
    requires Around(c, t, opt, tt, fl, a, i, k, n, ans)
    ensures c.Stops(Run(a, i, k), ans)
    decreases n, 2
  {
    match t
    case Char(ch) => SimChar(c, ch, tt, a, i, k, ans);
    case Set(cs) => SimCharset(c, cs, tt, a, i, k, ans);
    case Any =>
      AtWord(c.code, a, IAny, c.pos);
      Back1(c, Run(a, i, k), ans);
    case True =>
    case False =>
      AtWord(c.code, a, IFail, c.pos);
      Back1(c, Run(a, i, k), ans);
    case Seq(p, q) => SimSeq(c, t, opt, tt, fl, a, i, k, n, ans);
    case Choice(p, q) =>
      if SkipsChoice(c.g, c.d, p, GetFirst(c.g, q, fl, c.d).cs) {
        SimChoiceTest(c, t, opt, tt, fl, a, i, k, n, ans);
      } else if opt && q.True? {
        SimOptional(c, t, tt, fl, a, i, k, n, ans);
      } else {
        SimChoiceFull(c, t, opt, tt, fl, a, i, k, n, ans);
      }
    case Rep(p) =>
      if ToCharset(p).0 {
        GenCase(c.g, c.d, t, opt, tt, fl);
        SimSpan(c, p, a, i, k, n, ans);
      } else if SkipsChoice(c.g, c.d, p, fl) {
        SimRepTest(c, t, opt, tt, fl, a, i, k, n, ans);
      } else {
        SimRepChoice(c, t, opt, tt, fl, a, i, k, n, ans);
      }
    case Not(p) => SimNot(c, t, opt, tt, fl, a, i, k, n, ans);
    case And(p) => SimAnd(c, t, opt, tt, fl, a, i, k, n, ans);
    case Behind(m, p) => SimBehind(c, t, opt, tt, fl, a, i, k, n, ans);
    case Capture(p) => SimCapture(c, t, opt, tt, fl, a, i, k, n, ans);
    case Call(r) => SimCall(c, t, opt, tt, fl, a, i, k, n, ans);
    case Grammar(rs) => SimGrammar(c, t, opt, tt, fl, a, i, k, n, ans);
  }

  lemma SimChar(c: Ctx, ch: Byte, tt: Test, a: int, i: nat, k: Stack, ans: Answer)
    requires c.Here(a, CodeChar(ch, tt)) && Passes(tt, c.s, i)
    requires if Has(c.s, i, {ch}) then c.Stops(Run(a + 1, i + 1, k), ans) else c.Stops(Failing(k), ans)
    ensures c.Stops(Run(a, i, k), ans)
  {
    AtWord(c.code, a, CodeChar(ch, tt)[0], c.pos);
    Back1(c, Run(a, i, k), ans);
  }

  lemma SimCharset(c: Ctx, cs: Charset, tt: Test, a: int, i: nat, k: Stack, ans: Answer)
    requires c.Here(a, CodeCharset(cs, tt)) && Passes(tt, c.s, i)
    requires if Has(c.s, i, cs) then c.Stops(Run(a + |CodeCharset(cs, tt)|, i + 1, k), ans)
             else c.Stops(Failing(k), ans)
    ensures c.Stops(Run(a, i, k), ans)
  {
    match CharsetType(cs)
    case OneChar(ch) => SimChar(c, ch, tt, a, i, k, ans);
    case PlainSet =>
      if tt == TestSet(cs) {
        AtWord(c.code, a, IAny, c.pos);
      } else {
        AtAppend(c.code, a, [ISet], Buffer(cs), c.pos);
        AtWord(c.code, a, ISet, c.pos);
        AtBuffer(c.code, a + 1, cs, c.pos);
      }
      Back1(c, Run(a, i, k), ans);
    case EmptySet =>
      AtWord(c.code, a, IFail, c.pos);
      Back1(c, Run(a, i, k), ans);
    case FullSet =>
      AtWord(c.code, a, IAny, c.pos);
      if i < |c.s| { assert c.s[i] in FULL; }
      Back1(c, Run(a, i, k), ans);
  }

  lemma {:induction false} SimSeq(c: Ctx, t: Tree, opt: bool, tt: Test, fl: Charset, a: int, i: nat, k: Stack, n: nat, ans: Answer)
    requires t.Seq? && n > 0
    requires Around(c, t, opt, tt, fl, a, i, k, n, ans)
    ensures c.Stops(Run(a, i, k), ans)
    decreases n, 0
  {
    GenCase(c.g, c.d, t, opt, tt, fl);
    var p, q := t.p1, t.p2;
    var fl1 := FollowOfFirst(c.g, c.d, p, q, fl);
    var tt2 := TestAfter(c.g, c.d, p, tt);
    var c1 := c.Words(p, false, tt, fl1);
    AtAppend(c.code, a, c1, c.Words(q, opt, tt2, fl), c.pos);
    var r := c.Sem(p, i, n - 1);
    if r.Ok? {
      MatchRange(c.g, p, c.s, i, n - 1);
      if FixedLen(c.g, p, c.d) == 0 { FixedLenSound(c.g, p, c.d, c.s, i, n - 1); }
      SimSecond(c, q, opt, tt2, fl, a + |c1|, r.pos, k, n - 1, ans);
    }
    Sim(c, p, false, tt, fl1, a, i, k, n - 1, ans);
  }

  /** The second part of a sequence; its first set is a follow set for the first part. */
  lemma {:induction false} SimSecond(c: Ctx, q: Tree, opt: bool, tt: Test, fl: Charset, a: int, i: nat, k: Stack, n: nat, ans: Answer)
    requires Around(c, q, opt, tt, fl, a, i, k, n, ans)
    ensures c.Stops(Run(a, i, k), ans)
    ensures i < |c.s| ==> c.s[i] in FULL
    ensures i < |c.s| && c.s[i] !in GetFirst(c.g, q, fl, c.d).cs ==> c.Stops(Failing(k), ans)
    decreases n, 3
  {
    Sim(c, q, opt, tt, fl, a, i, k, n, ans);
    GetFirstSound(c.g, q, fl, c.d, c.s, i, n);
    MatchRange(c.g, q, c.s, i, n);
  }

  // ---------- choice ----------

  lemma LayTestedChoice(c: Ctx, a: int, test: Test, c1: Code, c2: Code, empty2: bool)
    requires c.Here(a, TestedChoice(test, c1, c2, empty2))
    ensures var e := TestSize(test) + |c1|;
      var l := if empty2 then e else e + 2;
      && c.Here(a, TestCode(test, l)) && c.Here(a + TestSize(test), c1) && c.Here(a + l, c2)
      && (!empty2 ==> JumpAt(c, a + e, a + l + |c2|))
      && |TestedChoice(test, c1, c2, empty2)| == l + |c2|
  {
    var jmp := if empty2 then [] else [IJmp, Off(2 + |c2|)];
    var tc := TestCode(test, TestSize(test) + |c1| + |jmp|);
    AtAppend(c.code, a, tc + c1 + jmp, c2, c.pos);
    AtAppend(c.code, a, tc + c1, jmp, c.pos);
    AtAppend(c.code, a, tc, c1, c.pos);
    if !empty2 { AtLabel(c.code, a + TestSize(test) + |c1|, IJmp, 2 + |c2|, c.pos); }
  }

  /** `test L1; p; jmp L2; L1: q; L2:` without a backtrack entry.  If `p` fails after its
      test passed, the semantics would go on with `q`, which then cannot consume; so the
      run would fail anyway. */
  lemma {:induction false} SimChoiceTest(c: Ctx, t: Tree, opt: bool, tt: Test, fl: Charset, a: int, i: nat, k: Stack, n: nat, ans: Answer)
    requires t.Choice? && n > 0 && SkipsChoice(c.g, c.d, t.p1, GetFirst(c.g, t.p2, fl, c.d).cs)
    requires Around(c, t, opt, tt, fl, a, i, k, n, ans)
    ensures c.Stops(Run(a, i, k), ans)
    decreases n, 1
  {
    GenCase(c.g, c.d, t, opt, tt, fl);
    var test := HardGuard(c.g, c.d, t.p1);
    var c1 := c.Words(t.p1, false, test, fl);
    LayTestedChoice(c, a, test, c1, c.Words(t.p2, opt, NoTest, fl), t.p2.True?);
    var e := TestSize(test) + |c1|;
    SimByTest(c, t, opt, fl, a, if t.p2.True? then e else e + 2, i, k, n, ans);
  }

  /** The parts of the tested choice: the second one stands at offset `l`. */
  lemma {:induction false} SimByTest(c: Ctx, t: Tree, opt: bool, fl: Charset, a: int, l: nat, i: nat, k: Stack, n: nat, ans: Answer)
    requires t.Choice? && n > 0 && SkipsChoice(c.g, c.d, t.p1, GetFirst(c.g, t.p2, fl, c.d).cs)
    requires Loaded(c) && WellFormed(c.g, c.d, t) && i <= |c.s| && c.Sem(t, i, n) != Out
    requires var test, c2 := HardGuard(c.g, c.d, t.p1), c.Words(t.p2, opt, NoTest, fl);
      var c1 := c.Words(t.p1, false, test, fl);
      var e := TestSize(test) + |c1|;
      && l == (if t.p2.True? then e else e + 2)
      && c.Here(a, TestCode(test, l)) && c.Here(a + TestSize(test), c1) && c.Here(a + l, c2)
      && (!t.p2.True? ==> JumpAt(c, a + e, a + l + |c2|)) && Answers(c, a + l + |c2|, c.Sem(t, i, n), opt, fl, k, ans)
    ensures c.Stops(Run(a, i, k), ans)
    decreases n, 1, 0
  {
    var p, test := t.p1, HardGuard(c.g, c.d, t.p1);
    if Has(c.s, i, GetFirst(c.g, p, FULL, c.d).cs) {
      SimTested(c, t, fl, a + TestSize(test), i, a + l + |c.Words(t.p2, opt, NoTest, fl)|, k, n, ans);
    } else {
      TestGuards(c, p, i, n - 1);
      SimAlternative(c, t, opt, fl, a + l, i, k, n, ans);
    }
    HardTestRun(c, p, l, a, i, k, ans);
  }

  /** If the first part fails behind its test, failing leads to the answer of the second part. */
  lemma {:induction false} TestedFails(c: Ctx, t: Tree, fl: Charset, i: nat, l2: int, k: Stack, n: nat, ans: Answer)
    requires t.Choice? && n > 0 && SkipsChoice(c.g, c.d, t.p1, GetFirst(c.g, t.p2, fl, c.d).cs)
    requires i <= |c.s| && Has(c.s, i, GetFirst(c.g, t.p1, FULL, c.d).cs) && c.Sem(t.p1, i, n - 1).Fail?
    requires c.Sem(t, i, n) != Out && Answers(c, l2, c.Sem(t, i, n), false, fl, k, ans)
    ensures c.Stops(Failing(k), ans)
  {
    TestGuards(c, t.p1, i, n - 1);
    GetFirstSound(c.g, t.p2, fl, c.d, c.s, i, n - 1);
    MatchRange(c.g, t.p2, c.s, i, n - 1);
  }

  /** `p; jmp L2;` of a tested choice whose test passed. */
  lemma {:induction false} SimTested(c: Ctx, t: Tree, fl: Charset, a: int, i: nat, l2: int, k: Stack, n: nat, ans: Answer)
    requires t.Choice? && n > 0 && SkipsChoice(c.g, c.d, t.p1, GetFirst(c.g, t.p2, fl, c.d).cs)
    requires Loaded(c) && WellFormed(c.g, c.d, t.p1) && i <= |c.s| && Has(c.s, i, GetFirst(c.g, t.p1, FULL, c.d).cs)
    requires var test := HardGuard(c.g, c.d, t.p1);
      var c1 := c.Words(t.p1, false, test, fl);
      && c.Here(a, c1)
      && (if t.p2.True? then l2 == a + |c1| else JumpAt(c, a + |c1|, l2))
    requires c.Sem(t, i, n) != Out && Answers(c, l2, c.Sem(t, i, n), false, fl, k, ans)
    ensures c.Stops(Run(a, i, k), ans)
    decreases n, 0
  {
    var p, q := t.p1, t.p2;
    var test := HardGuard(c.g, c.d, p);
    TestForPasses(GetFirst(c.g, p, FULL, c.d).cs, c.s, i);
    var r := c.Sem(p, i, n - 1);
    if r.Fail? {
      TestedFails(c, t, fl, i, l2, k, n, ans);
    } else if !q.True? {
      RunJump(c, a + |c.Words(p, false, test, fl)|, l2, r.pos, k, ans);
    }
    Sim(c, p, false, test, fl, a, i, k, n - 1, ans);
  }

  /** Running the test that replaces a backtrack entry. */
  lemma HardTestRun(c: Ctx, p: Tree, offset: int, a: int, i: nat, k: Stack, ans: Answer)
    requires c.Here(a, TestCode(HardGuard(c.g, c.d, p), offset))
    requires var e := if Has(c.s, i, GetFirst(c.g, p, FULL, c.d).cs) then TestSize(HardGuard(c.g, c.d, p)) else offset;
      c.Stops(Run(a + e, i, k), ans)
    ensures c.Stops(Run(a, i, k), ans)
  {
    TestForPasses(GetFirst(c.g, p, FULL, c.d).cs, c.s, i);
    TestRun(c, HardGuard(c.g, c.d, p), offset, a, i, k, ans);
  }

  /** A pattern fails where its first set cannot accept; a headfail one only there. */
  lemma TestGuards(c: Ctx, p: Tree, i: nat, n: nat)
    requires i <= |c.s|
    ensures var f := GetFirst(c.g, p, FULL, c.d);
      && (!f.e && !Has(c.s, i, f.cs) ==> !c.Sem(p, i, n).Ok?)
      && (HeadFail(c.g, p, c.d) ==> !f.e && (Has(c.s, i, f.cs) ==> !c.Sem(p, i, n).Fail?))
  {
    GetFirstSound(c.g, p, FULL, c.d, c.s, i, n);
    if i < |c.s| { assert c.s[i] in FULL; }
    if HeadFail(c.g, p, c.d) { HeadFailProgress(c.g, p, FULL, c.d, c.s, i, n); }
  }

  /** Where the test before a pattern does not pass, the pattern does not match. */
  lemma TestMiss(c: Ctx, p: Tree, i: nat, n: nat)
    requires i <= |c.s|
    requires !Passes(Guard(c.g, c.d, p), c.s, i)
    ensures !c.Sem(p, i, n).Ok?
  {
    TestForPasses(GetFirst(c.g, p, FULL, c.d).cs, c.s, i);
    TestGuards(c, p, i, n);
  }

  /** `p?` inside an optional pattern: `partialcommit; p`. */
  lemma {:induction false} SimOptional(c: Ctx, t: Tree, tt: Test, fl: Charset, a: int, i: nat, k: Stack, n: nat, ans: Answer)
    requires t.Choice? && t.p2.True? && n > 0 && !SkipsChoice(c.g, c.d, t.p1, GetFirst(c.g, t.p2, fl, c.d).cs)
    requires Around(c, t, true, tt, fl, a, i, k, n, ans)
    ensures c.Stops(Run(a, i, k), ans)
    decreases n, 0
  {
    GenCase(c.g, c.d, t, true, tt, fl);
    var p := t.p1;
    var c1 := c.Words(p, true, NoTest, FULL);
    AtAppend(c.code, a, [IPartialCommit, Off(2)], c1, c.pos);
    var r := c.Sem(p, i, n - 1);
    if r.Fail? {
      assert c.Sem(t, i, n) == Ok(i) by {
        assert Match(c.g, True, c.s, i, n - 1) == Ok(i);
      }
      FailBack(c, k.top.p, i, k.rest, ans);
    }
    if r.Ok? && r.pos < |c.s| { assert c.s[r.pos] in FULL; }
    assert c.Sem(t, i, n).Ok?;
    Sim(c, p, true, NoTest, FULL, a + 2, i, Push(Back(k.top.p, i), k.rest), n - 1, ans);
    DoPartialCommit(c, a, 2, i, k.top.p, k.top.s, k.rest, ans);
  }

  lemma LayFullChoice(c: Ctx, a: int, test: Test, c1: Code, c2: Code)
    requires c.Here(a, FullChoice(test, c1, c2))
    ensures var l := TestSize(test) + 2 + |c1| + 2;
      && c.Here(a, TestCode(test, l)) && c.Here(a + TestSize(test), [IChoice, Off(2 + |c1| + 2)])
      && c.Here(a + TestSize(test) + 2, c1) && c.Here(a + l - 2, [ICommit, Off(2 + |c2|)]) && c.Here(a + l, c2)
      && |FullChoice(test, c1, c2)| == l + |c2|
  {
    var tc := TestCode(test, TestSize(test) + 2 + |c1| + 2);
    var choice, commit := [IChoice, Off(2 + |c1| + 2)], [ICommit, Off(2 + |c2|)];
    AtAppend(c.code, a, tc + choice + c1 + commit, c2, c.pos);
    AtAppend(c.code, a, tc + choice + c1, commit, c.pos);
    AtAppend(c.code, a, tc + choice, c1, c.pos);
    AtAppend(c.code, a, tc, choice, c.pos);
  }

  /** `test L1; choice L1; p; commit L2; L1: q; L2:` */
  lemma {:induction false} SimChoiceFull(c: Ctx, t: Tree, opt: bool, tt: Test, fl: Charset, a: int, i: nat, k: Stack, n: nat, ans: Answer)
    requires t.Choice? && n > 0 && !SkipsChoice(c.g, c.d, t.p1, GetFirst(c.g, t.p2, fl, c.d).cs)
    requires !(opt && t.p2.True?)
    requires Around(c, t, opt, tt, fl, a, i, k, n, ans)
    ensures c.Stops(Run(a, i, k), ans)
    decreases n, 1
  {
    LayChoiceFull(c, t, opt, tt, fl, a);
    var l1 := EndOfFirst(c, t, a);
    if c.Sem(t.p1, i, n - 1).Fail? { SimAlternative(c, t, opt, fl, l1, i, k, n, ans); }
    SimChoiceFirst(c, t.p1, t.p2.True?, a, i, l1, 2 + |c.Words(t.p2, opt, NoTest, fl)|, k, n - 1, ans);
  }

  /** Where the second alternative of a full choice starts. */
  function EndOfFirst(c: Ctx, t: Tree, a: int): int
    requires t.Choice?
  {
    var test := Guard(c.g, c.d, t.p1);
    a + TestSize(test) + 2 + |c.Words(t.p1, t.p2.True?, test, FULL)| + 2
  }

  lemma LayChoiceFull(c: Ctx, t: Tree, opt: bool, tt: Test, fl: Charset, a: int)
    requires t.Choice? && !SkipsChoice(c.g, c.d, t.p1, GetFirst(c.g, t.p2, fl, c.d).cs) && !(opt && t.p2.True?)
    requires c.Here(a, c.Words(t, opt, tt, fl))
    ensures var test := Guard(c.g, c.d, t.p1);
      var c1, c2 := c.Words(t.p1, t.p2.True?, test, FULL), c.Words(t.p2, opt, NoTest, fl);
      var a1, l1 := a + TestSize(test), EndOfFirst(c, t, a);
      && c.Here(a, TestCode(test, l1 - a)) && c.Here(a1, [IChoice, Off(l1 - a1)])
      && c.Here(a1 + 2, c1) && c.Here(l1 - 2, [ICommit, Off(2 + |c2|)]) && c.Here(l1, c2)
      && a + |c.Words(t, opt, tt, fl)| == l1 + |c2|
  {
    GenCase(c.g, c.d, t, opt, tt, fl);
    var test := Guard(c.g, c.d, t.p1);
    LayFullChoice(c, a, test, c.Words(t.p1, t.p2.True?, test, FULL), c.Words(t.p2, opt, NoTest, fl));
  }

  /** The second alternative, entered because the first one failed. */
  lemma {:induction false} SimAlternative(c: Ctx, t: Tree, opt: bool, fl: Charset, a: int, i: nat, k: Stack, n: nat, ans: Answer)
    requires t.Choice? && n > 0 && c.Sem(t.p1, i, n - 1).Fail?
    requires Loaded(c) && WellFormed(c.g, c.d, t.p2) && i <= |c.s|
    requires c.Here(a, c.Words(t.p2, opt, NoTest, fl)) && c.Sem(t, i, n) != Out
    requires Answers(c, a + |c.Words(t.p2, opt, NoTest, fl)|, c.Sem(t, i, n), opt, fl, k, ans)
    ensures c.Stops(Run(a, i, k), ans)
    decreases n, 0
  {
    Sim(c, t.p2, opt, NoTest, fl, a, i, k, n - 1, ans);
  }

  /** `test L1; choice L1; p; commit L2; L1:` */
  lemma {:induction false} SimChoiceFirst(c: Ctx, p: Tree, opt: bool, a: int, i: nat, l1: int, delta: int, k: Stack, n: nat, ans: Answer)
    requires Loaded(c) && WellFormed(c.g, c.d, p) && i <= |c.s|
    requires var test := Guard(c.g, c.d, p);
      var a1 := a + TestSize(test);
      && c.Here(a, TestCode(test, l1 - a)) && c.Here(a1, [IChoice, Off(l1 - a1)])
      && c.Here(a1 + 2, c.Words(p, opt, test, FULL)) && l1 == a1 + 2 + |c.Words(p, opt, test, FULL)| + 2
    requires c.Here(l1 - 2, [ICommit, Off(delta)]) && (opt ==> delta == 2)
    requires c.Sem(p, i, n) != Out
    requires c.Sem(p, i, n).Ok? ==> c.Stops(Run(l1 - 2 + delta, c.Sem(p, i, n).pos, k), ans)
    requires c.Sem(p, i, n).Fail? ==> c.Stops(Run(l1, i, k), ans)
    ensures c.Stops(Run(a, i, k), ans)
    decreases n, 4
  {
    var test := Guard(c.g, c.d, p);
    if Passes(test, c.s, i) {
      SimGuarded(c, p, opt, test, a + TestSize(test), i, l1, delta, k, n, ans);
    } else {
      TestMiss(c, p, i, n);
    }
    TestRun(c, test, l1 - a, a, i, k, ans);
  }

  /** `choice L1; p; commit L2; L1:`.  In an optional pattern the commit leads to `L1`, too. */
  lemma {:induction false} SimGuarded(c: Ctx, p: Tree, opt: bool, tt: Test, a: int, i: nat, l1: int, delta: int, k: Stack, n: nat, ans: Answer)
    requires Loaded(c) && WellFormed(c.g, c.d, p) && i <= |c.s| && Passes(tt, c.s, i)
    requires c.Here(a, [IChoice, Off(l1 - a)])
    requires c.Here(a + 2, c.Words(p, opt, tt, FULL)) && l1 == a + 2 + |c.Words(p, opt, tt, FULL)| + 2
    requires c.Here(l1 - 2, [ICommit, Off(delta)]) && (opt ==> delta == 2)
    requires c.Sem(p, i, n) != Out
    requires c.Sem(p, i, n).Ok? ==> c.Stops(Run(l1 - 2 + delta, c.Sem(p, i, n).pos, k), ans)
    requires c.Sem(p, i, n).Fail? ==> c.Stops(Run(l1, i, k), ans)
    ensures c.Stops(Run(a, i, k), ans)
    decreases n, 3
  {
    var r := c.Sem(p, i, n);
    if r.Fail? {
      FailBack(c, l1, i, k, ans);
    } else {
      if r.pos < |c.s| { assert c.s[r.pos] in FULL; }
      forall x: nat ensures c.Stops(Run(l1 - 2, r.pos, Push(Back(l1, x), k)), ans) {
        DoCommit(c, l1 - 2, delta, r.pos, l1, x, k, ans);
      }
    }
    Sim(c, p, opt, tt, FULL, a + 2, i, Push(Back(l1, i), k), n, ans);
    DoChoice(c, a, l1 - a, i, k, ans);
  }

  // ---------- repetition ----------

  /** `span`: the machine's loop over a charset is the repetition of that charset. */
  lemma {:induction false} SpanSem(g: seq<Tree>, p: Tree, s: Subject, i: nat, n: nat)
    requires ToCharset(p).0 && i <= |s| && Match(g, Rep(p), s, i, n) != Out
    ensures Match(g, Rep(p), s, i, n) == Ok(SpanEnd(s, i, ToCharset(p).1))
    decreases n
  {
    if i < |s| { assert s[i] in FULL; }
    if Has(s, i, ToCharset(p).1) { SpanSem(g, p, s, i + 1, n - 1); }
  }

  lemma {:induction false} RepNeverFails(g: seq<Tree>, p: Tree, s: Subject, i: nat, n: nat)
    ensures Match(g, Rep(p), s, i, n) != Fail
    decreases n
  {
    if n > 0 {
      var r := Match(g, p, s, i, n - 1);
      if r.Ok? { RepNeverFails(g, p, s, r.pos, n - 1); }
    }
  }

  lemma SimSpan(c: Ctx, p: Tree, a: int, i: nat, k: Stack, n: nat, ans: Answer)
    requires ToCharset(p).0 && i <= |c.s| && c.Sem(Rep(p), i, n) != Out
    requires c.Here(a, [ISpan] + Buffer(ToCharset(p).1))
    requires c.Sem(Rep(p), i, n).Ok? ==> c.Stops(Run(a + CHARSETINSTSIZE, c.Sem(Rep(p), i, n).pos, k), ans)
    ensures c.Stops(Run(a, i, k), ans)
  {
    SpanSem(c.g, p, c.s, i, n);
    AtAppend(c.code, a, [ISpan], Buffer(ToCharset(p).1), c.pos);
    AtWord(c.code, a, ISpan, c.pos);
    AtBuffer(c.code, a + 1, ToCharset(p).1, c.pos);
    Back1(c, Run(a, i, k), ans);
  }

  lemma LayTestedLoop(c: Ctx, a: int, test: Test, body: Code)
    requires c.Here(a, TestedLoop(test, body))
    ensures var e := TestSize(test) + |body|;
      && c.Here(a, TestCode(test, e + 2)) && c.Here(a + TestSize(test), body) && c.Here(a + e, [IJmp, Off(-e)])
      && |TestedLoop(test, body)| == e + 2
  {
    var tc := TestCode(test, TestSize(test) + |body| + 2);
    AtAppend(c.code, a, tc + body, [IJmp, Off(-(TestSize(test) + |body|))], c.pos);
    AtAppend(c.code, a, tc, body, c.pos);
  }

  /** `L1: test L2; p; jmp L1; L2:` without a backtrack entry. */
  lemma {:induction false} SimRepTest(c: Ctx, t: Tree, opt: bool, tt: Test, fl: Charset, a: int, i: nat, k: Stack, n: nat, ans: Answer)
    requires t.Rep? && n > 0 && !ToCharset(t.body).0 && SkipsChoice(c.g, c.d, t.body, fl)
    requires Around(c, t, opt, tt, fl, a, i, k, n, ans)
    ensures c.Stops(Run(a, i, k), ans)
    decreases n, 1
  {
    GenCase(c.g, c.d, t, opt, tt, fl);
    var p := t.body;
    var test := HardGuard(c.g, c.d, p);
    var body := c.Words(p, false, test, FULL);
    LayTestedLoop(c, a, test, body);
    var e := TestSize(test) + |body|;
    TestGuards(c, p, i, n - 1);
    if Has(c.s, i, GetFirst(c.g, p, FULL, c.d).cs) {
      var r := c.Sem(p, i, n - 1);
      if r.Ok? {
        SimRepAgain(c, t, opt, tt, fl, a, i, k, n, ans);
        DoJmp(c, a + e, -e, r.pos, k, ans);
      }
      SimRound(c, p, a + TestSize(test), i, k, n - 1, ans);
    }
    HardTestRun(c, p, e + 2, a, i, k, ans);
  }

  /** After one match of the body, the repetition starts over from there. */
  lemma {:induction false} SimRepAgain(c: Ctx, t: Tree, opt: bool, tt: Test, fl: Charset, a: int, i: nat, k: Stack, n: nat, ans: Answer)
    requires t.Rep? && n > 0 && c.Sem(t.body, i, n - 1).Ok?
    requires Around(c, t, opt, tt, fl, a, i, k, n, ans)
    ensures c.Stops(Run(a, c.Sem(t.body, i, n - 1).pos, k), ans)
    decreases n, 0
  {
    var j := c.Sem(t.body, i, n - 1).pos;
    MatchRange(c.g, t.body, c.s, i, n - 1);
    assert c.Words(t, opt, NoTest, fl) == c.Words(t, opt, tt, fl);
    assert c.Sem(t, i, n) == c.Sem(t, j, n - 1);
    Sim(c, t, opt, NoTest, fl, a, j, k, n - 1, ans);
  }

  /** One round of a tested repetition. */
  lemma {:induction false} SimRound(c: Ctx, p: Tree, a: int, i: nat, k: Stack, n: nat, ans: Answer)
    requires Loaded(c) && WellFormed(c.g, c.d, p) && i <= |c.s| && Has(c.s, i, GetFirst(c.g, p, FULL, c.d).cs)
    requires var body := c.Words(p, false, HardGuard(c.g, c.d, p), FULL);
      && c.Here(a, body) && c.Sem(p, i, n) != Out
      && (if c.Sem(p, i, n).Ok? then c.Stops(Run(a + |body|, c.Sem(p, i, n).pos, k), ans) else c.Stops(Failing(k), ans))
    ensures c.Stops(Run(a, i, k), ans)
    decreases n, 3
  {
    TestForPasses(GetFirst(c.g, p, FULL, c.d).cs, c.s, i);
    var r := c.Sem(p, i, n);
    if r.Ok? && r.pos < |c.s| { assert c.s[r.pos] in FULL; }
    Sim(c, p, false, HardGuard(c.g, c.d, p), FULL, a, i, k, n, ans);
  }

  lemma LayFullLoop(c: Ctx, a: int, test: Test, body: Code, opt: bool)
    requires c.Here(a, FullLoop(test, body, opt))
    ensures var l := TestSize(test) + 2 + |body| + 2;
      && c.Here(a, TestCode(test, l))
      && c.Here(a + TestSize(test), if opt then [IPartialCommit, Off(2)] else [IChoice, Off(2 + |body| + 2)])
      && c.Here(a + TestSize(test) + 2, body) && c.Here(a + TestSize(test) + 2 + |body|, [IPartialCommit, Off(-|body|)])
      && |FullLoop(test, body, opt)| == l
  {
    var tc := TestCode(test, TestSize(test) + 2 + |body| + 2);
    var enter := if opt then [IPartialCommit, Off(2)] else [IChoice, Off(2 + |body| + 2)];
    var again := [IPartialCommit, Off(-|body|)];
    AtAppend(c.code, a, tc + enter + body, again, c.pos);
    AtAppend(c.code, a, tc + enter, body, c.pos);
    AtAppend(c.code, a, tc, enter, c.pos);
  }

  /** `test L2; choice L2; L1: p; partialcommit L1; L2:`, or the same with the backtrack
      entry of the enclosing optional pattern. */
  lemma {:induction false} SimRepChoice(c: Ctx, t: Tree, opt: bool, tt: Test, fl: Charset, a: int, i: nat, k: Stack, n: nat, ans: Answer)
    requires t.Rep? && n > 0 && !ToCharset(t.body).0 && !SkipsChoice(c.g, c.d, t.body, fl)
    requires Around(c, t, opt, tt, fl, a, i, k, n, ans)
    ensures c.Stops(Run(a, i, k), ans)
    decreases n, 1
  {
    GenCase(c.g, c.d, t, opt, tt, fl);
    var p := t.body;
    var test := Guard(c.g, c.d, p);
    var body := c.Words(p, false, NoTest, FULL);
    LayFullLoop(c, a, test, body, opt);
    var a1 := a + TestSize(test);
    var l2 := a1 + 2 + |body| + 2;
    RepNeverFails(c.g, p, c.s, i, n);
    if Passes(test, c.s, i) {
      SimRepEnter(c, p, opt, a1, i, l2, k, n, ans);
    } else {
      TestMiss(c, p, i, n - 1);
    }
    TestRun(c, test, l2 - a, a, i, k, ans);
  }

  /** Entering the loop with a backtrack entry of its own or the enclosing one. */
  lemma {:induction false} SimRepEnter(c: Ctx, p: Tree, opt: bool, a: int, i: nat, l2: int, k: Stack, n: nat, ans: Answer)
    requires n > 0 && LoopAt(c, p, a + 2) && i <= |c.s| && l2 == a + 2 + |c.Words(p, false, NoTest, FULL)| + 2
    requires c.Here(a, if opt then [IPartialCommit, Off(2)] else [IChoice, Off(l2 - a)])
    requires c.Sem(Rep(p), i, n).Ok? && Exits(c, l2, c.Sem(Rep(p), i, n).pos, k, opt, ans)
    ensures c.Stops(Run(a, i, k), ans)
    decreases n, 0, 1
  {
    if opt {
      SimRepLoop(c, p, a + 2, i, k.top.p, k.rest, n, ans);
      DoPartialCommit(c, a, 2, i, k.top.p, k.top.s, k.rest, ans);
    } else {
      SimRepLoop(c, p, a + 2, i, l2, k, n, ans);
      DoChoice(c, a, l2 - a, i, k, ans);
    }
  }

  ghost predicate LoopAt(c: Ctx, p: Tree, a: int) {
    var body := c.Words(p, false, NoTest, FULL);
    Loaded(c) && WellFormed(c.g, c.d, p) && c.Here(a, body) && c.Here(a + |body|, [IPartialCommit, Off(-|body|)])
  }

  /** The loop `L1: p; partialcommit L1` under a backtrack entry leading to `l2`. */
  lemma {:induction false} SimRepLoop(c: Ctx, p: Tree, a: int, i: nat, l2: int, k: Stack, n: nat, ans: Answer)
    requires n > 0 && LoopAt(c, p, a) && i <= |c.s|
    requires c.Sem(Rep(p), i, n).Ok? && c.Stops(Run(l2, c.Sem(Rep(p), i, n).pos, k), ans)
    ensures c.Stops(Run(a, i, Push(Back(l2, i), k)), ans)
    decreases n, 0, 0
  {
    var r := c.Sem(p, i, n - 1);
    var e := a + |c.Words(p, false, NoTest, FULL)|;
    if r.Ok? {
      MatchRange(c.g, p, c.s, i, n - 1);
      if r.pos < |c.s| { assert c.s[r.pos] in FULL; }
      SimRepLoop(c, p, a, r.pos, l2, k, n - 1, ans);
      DoPartialCommit(c, e, -|c.Words(p, false, NoTest, FULL)|, r.pos, l2, i, k, ans);
    } else {
      FailBack(c, l2, i, k, ans);
    }
    Sim(c, p, false, NoTest, FULL, a, i, Push(Back(l2, i), k), n - 1, ans);
  }

  // ---------- predicates and captures ----------

  lemma LayFullNot(c: Ctx, a: int, test: Test, body: Code)
    requires c.Here(a, FullNot(test, body))
    ensures var a1 := TestSize(test);
      && c.Here(a, TestCode(test, a1 + 2 + |body| + 1)) && c.Here(a + a1, [IChoice, Off(2 + |body| + 1)])
      && c.Here(a + a1 + 2, body) && c.Here(a + a1 + 2 + |body|, [IFailTwice])
      && |FullNot(test, body)| == a1 + 2 + |body| + 1
  {
    var tc := TestCode(test, TestSize(test) + 2 + |body| + 1);
    var choice := [IChoice, Off(2 + |body| + 1)];
    AtAppend(c.code, a, tc + choice + body, [IFailTwice], c.pos);
    AtAppend(c.code, a, tc + choice, body, c.pos);
    AtAppend(c.code, a, tc, choice, c.pos);
  }

  lemma {:induction false} SimNot(c: Ctx, t: Tree, opt: bool, tt: Test, fl: Charset, a: int, i: nat, k: Stack, n: nat, ans: Answer)
    requires t.Not? && n > 0
    requires Around(c, t, opt, tt, fl, a, i, k, n, ans)
    ensures c.Stops(Run(a, i, k), ans)
    decreases n, 0
  {
    if HeadFail(c.g, t.body, c.d) {
      SimNotByTest(c, t, opt, tt, fl, a, i, k, n, ans);
    } else {
      SimNotByChoice(c, t, opt, tt, fl, a, i, k, n, ans);
    }
  }

  lemma {:induction false} SimNotByTest(c: Ctx, t: Tree, opt: bool, tt: Test, fl: Charset, a: int, i: nat, k: Stack, n: nat, ans: Answer)
    requires t.Not? && n > 0 && HeadFail(c.g, t.body, c.d)
    requires Around(c, t, opt, tt, fl, a, i, k, n, ans)
    ensures c.Stops(Run(a, i, k), ans)
  {
    GenCase(c.g, c.d, t, opt, tt, fl);
    SimTestedNot(c, t.body, a, i, k, n - 1, ans);
  }

  lemma {:induction false} SimNotByChoice(c: Ctx, t: Tree, opt: bool, tt: Test, fl: Charset, a: int, i: nat, k: Stack, n: nat, ans: Answer)
    requires t.Not? && n > 0 && !HeadFail(c.g, t.body, c.d)
    requires Around(c, t, opt, tt, fl, a, i, k, n, ans)
    ensures c.Stops(Run(a, i, k), ans)
    decreases n, -1
  {
    GenCase(c.g, c.d, t, opt, tt, fl);
    SimFullNot(c, t.body, a, i, k, n - 1, ans);
  }

  lemma SimTestedNot(c: Ctx, p: Tree, a: int, i: nat, k: Stack, n: nat, ans: Answer)
    requires HeadFail(c.g, p, c.d) && i <= |c.s| && c.Sem(p, i, n) != Out
    requires c.Here(a, TestedNot(Guard(c.g, c.d, p)))
    requires if c.Sem(p, i, n).Ok? then c.Stops(Failing(k), ans)
             else c.Stops(Run(a + |TestedNot(Guard(c.g, c.d, p))|, i, k), ans)
    ensures c.Stops(Run(a, i, k), ans)
  {
    var test := Guard(c.g, c.d, p);
    AtAppend(c.code, a, TestCode(test, TestSize(test) + 1), [IFail], c.pos);
    HeadFailGuard(c, p, i, n);
    if Passes(test, c.s, i) { DoFail(c, a + TestSize(test), i, k, ans); }
    TestRun(c, test, TestSize(test) + 1, a, i, k, ans);
  }

  lemma {:induction false} SimFullNot(c: Ctx, p: Tree, a: int, i: nat, k: Stack, n: nat, ans: Answer)
    requires Loaded(c) && WellFormed(c.g, c.d, p) && i <= |c.s| && c.Sem(p, i, n) != Out
    requires var w := FullNot(Guard(c.g, c.d, p), c.Words(p, false, NoTest, FULL));
      && c.Here(a, w)
      && (if c.Sem(p, i, n).Ok? then c.Stops(Failing(k), ans) else c.Stops(Run(a + |w|, i, k), ans))
    ensures c.Stops(Run(a, i, k), ans)
    decreases n, 4
  {
    var test := Guard(c.g, c.d, p);
    var body := c.Words(p, false, NoTest, FULL);
    LayFullNot(c, a, test, body);
    if Passes(test, c.s, i) {
      SimNotBody(c, p, a + TestSize(test) + 2, i, k, n, ans);
      DoChoice(c, a + TestSize(test), 2 + |body| + 1, i, k, ans);
    } else {
      TestMiss(c, p, i, n);
    }
    TestRun(c, test, TestSize(test) + 2 + |body| + 1, a, i, k, ans);
  }

  /** The test before a headfail pattern decides whether it matches. */
  lemma HeadFailGuard(c: Ctx, p: Tree, i: nat, n: nat)
    requires i <= |c.s| && HeadFail(c.g, p, c.d) && c.Sem(p, i, n) != Out
    ensures Passes(Guard(c.g, c.d, p), c.s, i) <==> c.Sem(p, i, n).Ok?
  {
    TestForPasses(GetFirst(c.g, p, FULL, c.d).cs, c.s, i);
    TestGuards(c, p, i, n);
  }

  /** `p; failtwice; L1:` under a backtrack entry leading to `L1`. */
  lemma {:induction false} SimNotBody(c: Ctx, p: Tree, a: int, i: nat, k: Stack, n: nat, ans: Answer)
    requires Loaded(c) && WellFormed(c.g, c.d, p) && i <= |c.s| && c.Here(a, c.Words(p, false, NoTest, FULL))
    requires c.Here(a + |c.Words(p, false, NoTest, FULL)|, [IFailTwice])
    requires c.Sem(p, i, n) != Out
    requires c.Sem(p, i, n).Ok? ==> c.Stops(Failing(k), ans)
    requires c.Sem(p, i, n).Fail? ==> c.Stops(Run(a + |c.Words(p, false, NoTest, FULL)| + 1, i, k), ans)
    ensures c.Stops(Run(a, i, Push(Back(a + |c.Words(p, false, NoTest, FULL)| + 1, i), k)), ans)
    decreases n, 3
  {
    var e := a + |c.Words(p, false, NoTest, FULL)|;
    var r := c.Sem(p, i, n);
    AtWord(c.code, e, IFailTwice, c.pos);
    if r.Ok? {
      Back1(c, Run(e, r.pos, Push(Back(e + 1, i), k)), ans);
      if r.pos < |c.s| { assert c.s[r.pos] in FULL; }
    } else {
      FailBack(c, e + 1, i, k, ans);
    }
    Sim(c, p, false, NoTest, FULL, a, i, Push(Back(e + 1, i), k), n, ans);
  }

  lemma LayFullAnd(c: Ctx, a: int, body: Code)
    requires c.Here(a, FullAnd(body))
    ensures c.Here(a, [IChoice, Off(2 + |body| + 2)]) && c.Here(a + 2, body)
    ensures c.Here(a + 2 + |body|, [IBackCommit, Off(3)]) && c.Here(a + 2 + |body| + 2, [IFail])
    ensures |FullAnd(body)| == 2 + |body| + 3
  {
    var choice, back := [IChoice, Off(2 + |body| + 2)], [IBackCommit, Off(3)];
    AtAppend(c.code, a, choice + body + back, [IFail], c.pos);
    AtAppend(c.code, a, choice + body, back, c.pos);
    AtAppend(c.code, a, choice, body, c.pos);
  }

  lemma {:induction false} SimAnd(c: Ctx, t: Tree, opt: bool, tt: Test, fl: Charset, a: int, i: nat, k: Stack, n: nat, ans: Answer)
    requires t.And? && n > 0
    requires Around(c, t, opt, tt, fl, a, i, k, n, ans)
    ensures c.Stops(Run(a, i, k), ans)
    decreases n, 0
  {
    GenCase(c.g, c.d, t, opt, tt, fl);
    var p := t.body;
    var body := c.Words(p, false, tt, FULL);
    if ShortBody(c.g, c.d, p, MAXBEHIND) {
      AtAppend(c.code, a, body, BehindCode(FixedLen(c.g, p, c.d)), c.pos);
      SimAndShort(c, p, tt, a, i, k, n - 1, ans);
    } else {
      LayFullAnd(c, a, body);
      SimAndBody(c, p, tt, a + 2, i, k, n - 1, ans);
      DoChoice(c, a, 2 + |body| + 2, i, k, ans);
    }
  }

  /** `p; behind n` for a body of fixed length `n`. */
  lemma {:induction false} SimAndShort(c: Ctx, p: Tree, tt: Test, a: int, i: nat, k: Stack, n: nat, ans: Answer)
    requires Loaded(c) && WellFormed(c.g, c.d, p) && i <= |c.s| && Passes(tt, c.s, i)
    requires var len, e := FixedLen(c.g, p, c.d), a + |c.Words(p, false, tt, FULL)|;
      && len >= 0 && c.Here(a, c.Words(p, false, tt, FULL)) && c.Here(e, BehindCode(len))
      && c.Sem(p, i, n) != Out
      && (if c.Sem(p, i, n).Ok? then c.Stops(Run(e + |BehindCode(len)|, i, k), ans) else c.Stops(Failing(k), ans))
    ensures c.Stops(Run(a, i, k), ans)
    decreases n, 3
  {
    var e := a + |c.Words(p, false, tt, FULL)|;
    var r := c.Sem(p, i, n);
    if r.Ok? {
      FixedLenSound(c.g, p, c.d, c.s, i, n);
      if r.pos < |c.s| { assert c.s[r.pos] in FULL; }
      DoBehind(c, FixedLen(c.g, p, c.d), e, r.pos, k, ans);
    }
    Sim(c, p, false, tt, FULL, a, i, k, n, ans);
  }

  lemma DoBehind(c: Ctx, len: nat, a: int, i: nat, k: Stack, ans: Answer)
    requires c.Here(a, BehindCode(len))
    requires if len <= i then c.Stops(Run(a + |BehindCode(len)|, i - len, k), ans) else c.Stops(Failing(k), ans)
    ensures c.Stops(Run(a, i, k), ans)
  {
    if len > 0 {
      AtWord(c.code, a, IBehind(len), c.pos);
      Back1(c, Run(a, i, k), ans);
    }
  }

  /** `p; backcommit L2; L1: fail; L2:` under a backtrack entry leading to `L1`. */
  lemma {:induction false} SimAndBody(c: Ctx, p: Tree, tt: Test, a: int, i: nat, k: Stack, n: nat, ans: Answer)
    requires Loaded(c) && WellFormed(c.g, c.d, p) && i <= |c.s| && Passes(tt, c.s, i)
    requires var e := a + |c.Words(p, false, tt, FULL)|;
      && c.Here(a, c.Words(p, false, tt, FULL)) && c.Here(e, [IBackCommit, Off(3)]) && c.Here(e + 2, [IFail])
      && c.Sem(p, i, n) != Out
      && (if c.Sem(p, i, n).Ok? then c.Stops(Run(e + 3, i, k), ans) else c.Stops(Failing(k), ans))
    ensures c.Stops(Run(a, i, Push(Back(a + |c.Words(p, false, tt, FULL)| + 2, i), k)), ans)
    decreases n, 3
  {
    var e := a + |c.Words(p, false, tt, FULL)|;
    var r := c.Sem(p, i, n);
    if r.Ok? {
      if r.pos < |c.s| { assert c.s[r.pos] in FULL; }
      DoBackCommit(c, e, 3, r.pos, e + 2, i, k, ans);
    } else {
      DoFail(c, e + 2, i, k, ans);
      FailBack(c, e + 2, i, k, ans);
    }
    Sim(c, p, false, tt, FULL, a, i, Push(Back(e + 2, i), k), n, ans);
  }

  lemma {:induction false} SimBehind(c: Ctx, t: Tree, opt: bool, tt: Test, fl: Charset, a: int, i: nat, k: Stack, n: nat, ans: Answer)
    requires t.Behind? && n > 0
    requires Around(c, t, opt, tt, fl, a, i, k, n, ans)
    ensures c.Stops(Run(a, i, k), ans)
    decreases n, 0
  {
    var p, m := t.body, t.n;
    var body := c.Words(p, false, NoTest, FULL);
    AtAppend(c.code, a, BehindCode(m), body, c.pos);
    if m <= i {
      var r := c.Sem(p, i - m, n - 1);
      if r.Ok? && r.pos < |c.s| { assert c.s[r.pos] in FULL; }
      FixedLenSound(c.g, p, c.d, c.s, i - m, n - 1);
      Sim(c, p, false, NoTest, FULL, a + |BehindCode(m)|, i - m, k, n - 1, ans);
    }
    DoBehind(c, m, a, i, k, ans);
  }

  lemma DoCapture(c: Ctx, a: int, w: Word, i: nat, k: Stack, ans: Answer)
    requires w.IFullCapture? || w.IOpenCapture? || w.ICloseCapture?
    requires c.Here(a, [w]) && c.Stops(Run(a + 1, i, k), ans)
    ensures c.Stops(Run(a, i, k), ans)
  {
    AtWord(c.code, a, w, c.pos);
    Back1(c, Run(a, i, k), ans);
  }

  lemma {:induction false} SimCapture(c: Ctx, t: Tree, opt: bool, tt: Test, fl: Charset, a: int, i: nat, k: Stack, n: nat, ans: Answer)
    requires t.Capture? && n > 0
    requires Around(c, t, opt, tt, fl, a, i, k, n, ans)
    ensures c.Stops(Run(a, i, k), ans)
    decreases n, 0
  {
    GenCase(c.g, c.d, t, opt, tt, fl);
    var p := t.body;
    var body := c.Words(p, false, tt, fl);
    var r := c.Sem(p, i, n - 1);
    if ShortBody(c.g, c.d, p, MAXOFF) {
      AtAppend(c.code, a, body, [IFullCapture(FixedLen(c.g, p, c.d))], c.pos);
      if r.Ok? { DoCapture(c, a + |body|, IFullCapture(FixedLen(c.g, p, c.d)), r.pos, k, ans); }
      Sim(c, p, false, tt, fl, a, i, k, n - 1, ans);
    } else {
      AtAppend(c.code, a, [IOpenCapture] + body, [ICloseCapture], c.pos);
      AtAppend(c.code, a, [IOpenCapture], body, c.pos);
      if r.Ok? { DoCapture(c, a + 1 + |body|, ICloseCapture, r.pos, k, ans); }
      Sim(c, p, false, tt, fl, a + 1, i, k, n - 1, ans);
      DoCapture(c, a, IOpenCapture, i, k, ans);
    }
  }

  // ---------- calls and grammars ----------

  /** A rule, entered with a stack on which its return leads to `ans`. */
  lemma {:induction false} SimRule(c: Ctx, r: nat, i: nat, k: Stack, n: nat, ans: Answer)
    requires Loaded(c) && r < |c.g| && i <= |c.s|
    requires var m := c.Sem(c.g[r], i, n);
      m != Out
      && (m.Fail? ==> c.Stops(Failing(k), ans))
      && (m.Ok? ==> k.Push? && k.top.Return? && c.Stops(Run(k.top.p, m.pos, k.rest), ans))
    ensures c.Stops(Run(c.pos[r], i, k), ans)
    decreases n, 3
  {
    var body := c.Words(c.g[r], false, NoTest, FULL);
    AtAppend(c.code, c.pos[r], body, [IRet], c.pos);
    AtWord(c.code, c.pos[r] + |body|, IRet, c.pos);
    var m := c.Sem(c.g[r], i, n);
    if m.Ok? {
      Back1(c, Run(c.pos[r] + |body|, m.pos, k), ans);
      if m.pos < |c.s| { assert c.s[m.pos] in FULL; }
    }
    Sim(c, c.g[r], false, NoTest, FULL, c.pos[r], i, k, n, ans);
  }

  /** A call pushes a return address; a tail call reuses the caller's. */
  lemma {:induction false} SimCall(c: Ctx, t: Tree, opt: bool, tt: Test, fl: Charset, a: int, i: nat, k: Stack, n: nat, ans: Answer)
    requires t.Call? && n > 0
    requires Around(c, t, opt, tt, fl, a, i, k, n, ans)
    ensures c.Stops(Run(a, i, k), ans)
    decreases n, 0
  {
    assert FitsAt(c.code, a, [IOpenCall(t.rule), Hole], 0, c.pos);
    var m := c.Sem(c.g[t.rule], i, n - 1);
    if c.code[a] == ICall {
      SimOpenCall(c, t.rule, m, a, i, k, n - 1, ans);
    } else {
      SimTailCall(c, t.rule, m, a, i, k, n - 1, ans);
    }
  }

  lemma {:induction false} SimOpenCall(c: Ctx, r: nat, m: Result, a: int, i: nat, k: Stack, n: nat, ans: Answer)
    requires Loaded(c) && i <= |c.s| && r < |c.g| && m == c.Sem(c.g[r], i, n) && m != Out
    requires 0 <= a < |c.code| && c.code[a] == ICall && HasLabel(c.code, a) && Label(c.code, a) == c.pos[r]
    requires (m.Fail? ==> c.Stops(Failing(k), ans)) && (m.Ok? ==> c.Stops(Run(a + 2, m.pos, k), ans))
    ensures c.Stops(Run(a, i, k), ans)
    decreases n, 4
  {
    FailReturnIf(c, m.Fail?, a + 2, k, ans);
    SimRule(c, r, i, Push(Return(a + 2), k), n, ans);
    Back1(c, Run(a, i, k), ans);
  }

  lemma {:induction false} SimTailCall(c: Ctx, r: nat, m: Result, a: int, i: nat, k: Stack, n: nat, ans: Answer)
    requires Loaded(c) && i <= |c.s| && r < |c.g| && m == c.Sem(c.g[r], i, n) && m != Out
    requires 0 <= a < |c.code| && c.code[a] == IJmp && HasLabel(c.code, a) && Label(c.code, a) == c.pos[r] && ReachesRet(c.code, a + 2)
    requires (m.Fail? ==> c.Stops(Failing(k), ans)) && (m.Ok? ==> c.Stops(Run(a + 2, m.pos, k), ans))
    ensures c.Stops(Run(a, i, k), ans)
    decreases n, 4
  {
    if m.Ok? { ReturnsFrom(c, a + 2, m.pos, k, ans); }
    SimRule(c, r, i, k, n, ans);
    Back1(c, Run(a, i, k), ans);
  }

  /** Code from which jumps lead to a return runs on at the return address. */
  lemma ReturnsFrom(c: Ctx, x: int, i: nat, k: Stack, ans: Answer)
    requires ReachesRet(c.code, x) && c.Stops(Run(x, i, k), ans)
    ensures k.Push? && k.top.Return? && c.Stops(Run(k.top.p, i, k.rest), ans)
  {
    var f: nat :| var y := FinalTarget(c.code, x, f); 0 <= y < |c.code| && c.code[y] == IRet;
    JumpOn(c, x, i, k, f, ans);
    HaltsOn(c.code, c.s, Run(FinalTarget(c.code, x, f), i, k), ans);
    StuckNeverStops(c, ans);
  }

  lemma FailReturnIf(c: Ctx, fails: bool, p: int, k: Stack, ans: Answer)
    requires fails ==> c.Stops(Failing(k), ans)
    ensures fails ==> c.Stops(Failing(Push(Return(p), k)), ans)
  {
    if fails { FailReturn(c, p, k, ans); }
  }

  lemma StuckNeverStops(c: Ctx, ans: Answer)
    ensures !c.Stops(Stuck, ans)
  {
    if c.Stops(Stuck, ans) {
      var n: nat :| RunFor(c.code, c.s, Stuck, n) == Done(ans);
      StuckStays(c, n);
    }
  }

  lemma {:induction false} StuckStays(c: Ctx, n: nat)
    ensures RunFor(c.code, c.s, Stuck, n) == Stuck
    decreases n
  {
    if n > 0 { StuckStays(c, n - 1); }
  }

  /** The grammar's own scope: its rules, at their addresses. */
  function Inner(c: Ctx, t: Tree, a: int): Ctx
    requires t.Grammar?
  {
    c.(g := t.rules, pos := seq(|t.rules|, r requires 0 <= r < |t.rules| => a + RulePos(t, c.d, r)))
  }

  lemma InnerLoaded(c: Ctx, t: Tree, a: int)
    requires t.Grammar? && WellFormed(c.g, c.d, t) && c.Here(a, c.Words(t, false, NoTest, FULL))
    ensures Loaded(Inner(c, t, a))
  {
    var c' := Inner(c, t, a);
    assert WellFormed([], c.d, t);
    forall r | 0 <= r < |t.rules|
      ensures WellFormed(c'.g, c'.d, c'.g[r])
      ensures c'.Here(c'.pos[r], c'.Words(c'.g[r], false, NoTest, FULL) + [IRet])
    {
      RulesAt(c.code, a, t, c.d, c.pos, c'.pos, r);
    }
  }

  /** `call L1; jmp L2; L1: rules; L2:` */
  lemma {:induction false} SimGrammar(c: Ctx, t: Tree, opt: bool, tt: Test, fl: Charset, a: int, i: nat, k: Stack, n: nat, ans: Answer)
    requires t.Grammar? && n > 0
    requires Around(c, t, opt, tt, fl, a, i, k, n, ans)
    ensures c.Stops(Run(a, i, k), ans)
    decreases n, 0
  {
    var c' := Inner(c, t, a);
    assert c.Words(t, opt, tt, fl) == c.Words(t, false, NoTest, FULL);
    InnerLoaded(c, t, a);
    GrammarEntry(c, t, a);
    var len := |c.Words(t, opt, tt, fl)|;
    var m := c'.Sem(t.rules[0], i, n - 1);
    if m.Ok? {
      DoJmp(c, a + 2, len - 2, m.pos, k, ans);
    }
    FailReturnIf(c, m.Fail?, a + 2, k, ans);
    SimRule(c', 0, i, Push(Return(a + 2), k), n - 1, ans);
    AtLabel(c.code, a, ICall, 4, c.pos);
    Back1(c, Run(a, i, k), ans);
  }

  lemma GrammarEntry(c: Ctx, t: Tree, a: int)
    requires t.Grammar? && WellFormed(c.g, c.d, t) && c.Here(a, c.Words(t, false, NoTest, FULL))
    ensures c.Here(a, [ICall, Off(4)])
    ensures c.Here(a + 2, [IJmp, Off(|c.Words(t, false, NoTest, FULL)| - 2)])
  {
    assert WellFormed([], c.d, t);
    GrammarClosed(t, c.d);
    var w := c.Words(t, false, NoTest, FULL);
    assert w == w[..4] + w[4..];
    AtAppend(c.code, a, w[..4], w[4..], c.pos);
    assert w[..4] == [ICall, Off(4)] + [IJmp, Off(|w| - 2)];
    AtAppend(c.code, a, [ICall, Off(4)], [IJmp, Off(|w| - 2)], c.pos);
  }

  // ---------- the theorem ----------

  /** Generated code is correct: run from the start on any subject and position, it stops
      with the answer of the PEG semantics. */
  lemma CompileRawCorrect(t: Tree, d: nat, s: Subject, i: nat, n: nat)
    requires WellFormed([], d, t) && i <= |s| && Match([], t, s, i, n) != Out
    ensures Halts(CompileRaw(t, d), s, Start(i), AnswerOf(Match([], t, s, i, n)))
  {
    var c := Ctx(CompileRaw(t, d), s, [], d, []);
    var r := c.Sem(t, i, n);
    var w := c.Words(t, false, NoTest, FULL);
    var k := Push(Back(GIVEUP, i), Base);
    GenGood([], d, t, false, NoTest, FULL);
    assert c.Here(0, w) by {
      forall x: nat | x < |w| ensures FitsAt(c.code, 0, w, x, []) {
        assert c.code[x] == w[x];
        assert !w[x].IOpenCall?;
      }
    }
    if r.Ok? {
      assert c.code[|w|] == IEnd;
      RunForDone(c.code, s, Matched(r.pos), 0);
      assert RunFor(c.code, s, Done(Matched(r.pos)), 0) == Done(Matched(r.pos));
      Back1(c, Run(|w|, r.pos, k), Matched(r.pos));
      if r.pos < |s| { assert s[r.pos] in FULL; }
    } else {
      assert RunFor(c.code, s, Done(GaveUp), 0) == Done(GaveUp);
      Back1(c, Run(GIVEUP, i, Base), GaveUp);
      FailBack(c, GIVEUP, i, Base, GaveUp);
    }
    Sim(c, t, false, NoTest, FULL, 0, i, k, n, AnswerOf(r));
  }

  function AnswerOf(r: Result): Answer {
    if r.Ok? then Matched(r.pos) else GaveUp
  }
}
