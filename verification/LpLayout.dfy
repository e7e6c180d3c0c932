/** Where generated code stands: instruction boundaries, the effect of `correctcalls`, and
    the placement of a grammar's rules. */
module LpLayout {
  import opened Peg
  import opened LpAnalysis
  import opened LpVm
  import opened LpCodegen

  /** Structural well-formedness: calls name rules of their grammar, grammars have rules,
      and a look-behind goes back by the fixed length of its body. */
  ghost predicate WellFormed(g: seq<Tree>, d: nat, t: Tree)
    decreases t, d
  {
    match t
    case Rep(p) => WellFormed(g, d, p)
    case Not(p) => WellFormed(g, d, p)
    case And(p) => WellFormed(g, d, p)
    case Capture(p) => WellFormed(g, d, p)
    case Behind(n, p) => FixedLen(g, p, d) == n && WellFormed(g, d, p)
    case Seq(p, q) => WellFormed(g, d, p) && WellFormed(g, d, q)
    case Choice(p, q) => WellFormed(g, d, p) && WellFormed(g, d, q)
    case Call(r) => r < |g|
    case Grammar(rs) => rs != [] && forall k :: 0 <= k < |rs| ==> WellFormed(rs, d, rs[k])
    case _ => true
  }

  // ---------- placement of code ----------

  /** Following jumps from `x` reaches a return. */
  ghost predicate ReachesRet(code: Code, x: int) {
    exists f: nat :: var y := FinalTarget(code, x, f); 0 <= y < |code| && code[y] == IRet
  }

  /** Word `w` of generated code stands at address `x`; an open call has become a call of,
      or a tail jump to, its rule. */
  ghost predicate Fits(code: Code, x: int, w: Word, pos: seq<int>) {
    0 <= x < |code| &&
    match w
    case IOpenCall(r) =>
      && r < |pos| && x + 1 < |code| && code[x + 1] == Off(pos[r] - x)
      && (code[x] == ICall || (code[x] == IJmp && ReachesRet(code, x + 2)))
    case Hole => true
    case _ => code[x] == w
  }

  ghost predicate At(code: Code, a: int, w: Code, pos: seq<int>) {
    forall k: nat {:trigger FitsAt(code, a, w, k, pos)} :: k < |w| ==> FitsAt(code, a, w, k, pos)
  }

  /** The `k`-th word of a block placed at `a`. */
  ghost predicate FitsAt(code: Code, a: int, w: Code, k: nat, pos: seq<int>)
    requires k < |w|
  {
    Fits(code, a + k, w[k], pos)
  }

  lemma AtAppend(code: Code, a: int, u: Code, v: Code, pos: seq<int>)
    requires At(code, a, u + v, pos)
    ensures At(code, a, u, pos) && At(code, a + |u|, v, pos)
  {
    forall k: nat | k < |u| ensures FitsAt(code, a, u, k, pos) {
      assert FitsAt(code, a, u + v, k, pos);
      assert (u + v)[k] == u[k];
    }
    var b := a + |u|;
    forall k: nat | k < |v| ensures FitsAt(code, b, v, k, pos) {
      assert FitsAt(code, a, u + v, |u| + k, pos);
      assert (u + v)[|u| + k] == v[k];
    }
  }

  lemma AtLabel(code: Code, a: int, w: Word, delta: int, pos: seq<int>)
    requires At(code, a, [w, Off(delta)], pos)
    requires !w.IOpenCall? && !w.Hole?
    ensures 0 <= a < |code| && code[a] == w && HasLabel(code, a) && Label(code, a) == a + delta
  {
    assert FitsAt(code, a, [w, Off(delta)], 0, pos);
    assert FitsAt(code, a, [w, Off(delta)], 1, pos);
  }

  lemma AtWord(code: Code, a: int, w: Word, pos: seq<int>)
    requires At(code, a, [w], pos)
    requires !w.IOpenCall? && !w.Hole?
    ensures 0 <= a < |code| && code[a] == w
  {
    assert FitsAt(code, a, [w], 0, pos);
  }

  lemma AtBuffer(code: Code, a: int, cs: Charset, pos: seq<int>)
    requires At(code, a, Buffer(cs), pos)
    ensures HasSet(code, a) && code[a].cs == cs
  {
    assert FitsAt(code, a, Buffer(cs), 0, pos);
  }


  // ---------- instruction boundaries ----------

  /** Stepping by instruction sizes from `i` ends exactly behind the code; jumps and open calls only
      stand on boundaries, and an open call is followed by a hole. */
  ghost predicate Parses(code: Code, i: nat)
    decreases |code| - i
  {
    i == |code| ||
    (i < |code| && !code[i].Hole? &&
     var n := SizeI(code[i]);
     && i + n <= |code|
     && (forall z :: i < z < i + n ==> !code[z].IOpenCall? && !code[z].IJmp? && (code[z].Hole? ==> code[i].IOpenCall?))
     && (code[i].IOpenCall? ==> code[i + 1].Hole?)
     && Parses(code, i + n))
  }

  ghost predicate Good(code: Code, m: nat) {
    Parses(code, 0) && forall x :: 0 <= x < |code| && code[x].IOpenCall? ==> code[x].key < m
  }

  lemma {:induction false} ParsesAppend(u: Code, v: Code, i: nat)
    requires Parses(u, i) && Parses(v, 0)
    ensures Parses(u + v, i)
    decreases |u| - i
  {
    if i == |u| {
      ParsesShift(u, v, 0);
    } else {
      ParsesAppend(u, v, i + SizeI(u[i]));
    }
  }

  lemma {:induction false} ParsesShift(u: Code, v: Code, i: nat)
    requires Parses(v, i)
    ensures Parses(u + v, |u| + i)
    decreases |v| - i
  {
    if i < |v| { ParsesShift(u, v, i + SizeI(v[i])); }
  }

  lemma GoodAppend(u: Code, v: Code, m: nat)
    requires Good(u, m) && Good(v, m)
    ensures Good(u + v, m)
  {
    ParsesAppend(u, v, 0);
  }

  lemma GoodOne(w: Word, m: nat)
    requires SizeI(w) == 1 && !w.Hole?
    ensures Good([w], m)
  {
    assert Parses([w], 1);
  }

  lemma GoodLabel(w: Word, delta: int, m: nat)
    requires SizeI(w) == 2 && !w.IOpenCall?
    ensures Good([w, Off(delta)], m)
  {
    assert Parses([w, Off(delta)], 2);
  }

  lemma GoodSet(w: Word, cs: Charset, m: nat)
    requires w.ISet? || w.ISpan?
    ensures Good([w] + Buffer(cs), m)
  {
    assert Parses([w] + Buffer(cs), 9);
  }

  lemma GoodTest(test: Test, offset: int, m: nat)
    ensures Good(TestCode(test, offset), m)
  {
    var w := TestCode(test, offset);
    assert Parses(w, |w|);
    match test
    case TestSet(cs) => assert w[0] == ITestSet;
    case _ =>
  }

  lemma GoodBehind(n: int, m: nat)
    ensures Good(BehindCode(n), m)
  {
    if n > 0 { GoodOne(IBehind(n), m); }
  }

  // ---------- closing calls ----------

  /** Outside open calls and their holes, `code` repeats `w` from address `a` on. */
  ghost predicate Embeds(code: Code, a: int, w: Code) {
    forall z :: 0 <= z < |w| && !w[z].IOpenCall? && !w[z].Hole? ==> 0 <= a + z < |code| && code[a + z] == w[z]
  }

  lemma {:induction false} ChainEmbeds(code: Code, a: int, w: Code, x: int, f: nat)
    requires Embeds(code, a, w) && a >= 0
    requires var y := FinalTarget(w, x, f); 0 <= y < |w| && w[y] == IRet
    ensures FinalTarget(code, a + x, f) == a + FinalTarget(w, x, f)
    decreases f
  {
    if f > 0 && 0 <= x < |w| && w[x] == IJmp && HasLabel(w, x) {
      ChainEmbeds(code, a, w, Label(w, x), f - 1);
    }
  }

  lemma ReachesRetEmbeds(code: Code, a: int, w: Code, x: int)
    requires Embeds(code, a, w) && a >= 0 && ReachesRet(w, x)
    ensures ReachesRet(code, a + x)
  {
    var f: nat :| var y := FinalTarget(w, x, f); 0 <= y < |w| && w[y] == IRet;
    ChainEmbeds(code, a, w, x, f);
  }

  function RelPos(t: Tree, d: nat): (pos: seq<int>)
    requires t.Grammar?
    ensures |pos| == |t.rules|
  {
    seq(|t.rules|, r requires 0 <= r < |t.rules| => RulePos(t, d, r))
  }

  /** What `correctcalls` from `i` on makes of `code`: every open call is closed, and
      nothing else changes. */
  ghost predicate Closed(code: Code, cc: Code, pos: seq<int>, i: nat) {
    && |cc| == |code|
    && (forall x :: 0 <= x < i && x < |code| ==> cc[x] == code[x])
    && (forall x :: i <= x < |code| ==> Fits(cc, x, code[x], pos) && !cc[x].IOpenCall?)
  }

  lemma {:induction false} CorrectFits(code: Code, t: Tree, d: nat, i: nat)
    requires t.Grammar? && i <= |code| && Parses(code, i)
    requires forall x :: i <= x < |code| && code[x].IOpenCall? ==> code[x].key < |t.rules|
    ensures Closed(code, CorrectCalls(code, t, d, i), RelPos(t, d), i)
    decreases |code| - i
  {
    if i < |code| {
      var cc := CorrectCalls(code, t, d, i);
      if code[i].IOpenCall? {
        var code' := CloseCall(code, i, RulePos(t, d, code[i].key));
        ParsesUpdate(code, code', i + 2);
        CorrectFits(code', t, d, i + 2);
        ClosedHere(code, code', cc, RelPos(t, d), i);
      } else {
        CorrectFits(code, t, d, i + SizeI(code[i]));
        ClosedSkip(code, cc, RelPos(t, d), i, SizeI(code[i]));
      }
    }
  }

  /** Closing calls keeps the instruction boundaries. */
  lemma {:induction false} ParsesClosed(code: Code, cc: Code, pos: seq<int>, i: nat, j: nat)
    requires Closed(code, cc, pos, i) && i <= j && Parses(code, j)
    ensures Parses(cc, j)
    decreases |code| - j
  {
    if j < |code| {
      assert Fits(cc, j, code[j], pos);
      ParsesClosed(code, cc, pos, i, j + SizeI(code[j]));
    }
  }

  lemma ClosedHere(code: Code, code': Code, cc: Code, pos: seq<int>, i: nat)
    requires i + 1 < |code| && code[i].IOpenCall? && code[i + 1].Hole? && code[i].key < |pos|
    requires code' == CloseCall(code, i, pos[code[i].key])
    requires Closed(code', cc, pos, i + 2)
    ensures Closed(code, cc, pos, i)
  {
    assert cc[i] == code'[i] && cc[i + 1] == code'[i + 1];
    forall x | i + 2 <= x < |code| ensures Fits(cc, x, code[x], pos) && !cc[x].IOpenCall? {
      assert code'[x] == code[x];
    }
    CallFits(code, code', cc, pos, i);
  }

  /** The closed call itself. */
  lemma CallFits(code: Code, code': Code, cc: Code, pos: seq<int>, i: nat)
    requires i + 1 < |code| == |cc| && code[i].IOpenCall? && code[i + 1].Hole? && code[i].key < |pos|
    requires code' == CloseCall(code, i, pos[code[i].key])
    requires cc[i] == code'[i] && cc[i + 1] == code'[i + 1]
    requires forall x :: i + 2 <= x < |code| ==> Fits(cc, x, code[x], pos)
    requires forall x :: 0 <= x < i ==> cc[x] == code[x]
    ensures Fits(cc, i, code[i], pos) && !cc[i].IOpenCall? && !cc[i + 1].IOpenCall?
  {
    if code'[i] == IJmp {
      assert Embeds(cc, 0, code);
      ReachesRetEmbeds(cc, 0, code, i + 2);
    }
  }

  lemma ClosedSkip(code: Code, cc: Code, pos: seq<int>, i: nat, n: nat)
    requires i + n <= |code| && Closed(code, cc, pos, i + n)
    requires forall z :: i <= z < i + n ==> !code[z].IOpenCall?
    ensures Closed(code, cc, pos, i)
  {
    forall x | i <= x < |code| ensures Fits(cc, x, code[x], pos) && !cc[x].IOpenCall? {
      if x < i + n { assert cc[x] == code[x]; }
    }
  }

  lemma {:induction false} ParsesUpdate(code: Code, code': Code, i: nat)
    requires |code'| == |code| && i <= |code| && code'[i..] == code[i..] && Parses(code, i)
    ensures Parses(code', i)
    decreases |code| - i
  {
    if i < |code| {
      var n := SizeI(code[i]);
      assert forall z :: i <= z < |code| ==> code'[z] == code'[i..][z - i] == code[i..][z - i];
      assert code'[i + n..] == code'[i..][n..] == code[i..][n..] == code[i + n..];
      ParsesUpdate(code, code', i + n);
    }
  }

  // ---------- generated code parses ----------

  lemma {:induction false} GenGood(g: seq<Tree>, d: nat, t: Tree, opt: bool, tt: Test, fl: Charset)
    requires WellFormed(g, d, t)
    ensures Good(Gen(g, d, t, opt, tt, fl), |g|)
    decreases t, 1
  {
    var m := |g|;
    match t
    case Char(c) => GoodOne(CodeChar(c, tt)[0], m);
    case Set(cs) => GoodCharset(cs, tt, m);
    case Any => GoodOne(IAny, m);
    case False => GoodOne(IFail, m);
    case True =>
    case Choice(p, q) =>
      GenGood(g, d, q, opt, NoTest, fl);
      var c2 := Gen(g, d, q, opt, NoTest, fl);
      if SkipsChoice(g, d, p, GetFirst(g, q, fl, d).cs) {
        GenGood(g, d, p, false, HardGuard(g, d, p), fl);
        GoodTestedChoice(HardGuard(g, d, p), Gen(g, d, p, false, HardGuard(g, d, p), fl), c2, q.True?, m);
      } else if opt && q.True? {
        GenGood(g, d, p, true, NoTest, FULL);
        GoodLabel(IPartialCommit, 2, m);
        GoodAppend([IPartialCommit, Off(2)], Gen(g, d, p, true, NoTest, FULL), m);
      } else {
        GenGood(g, d, p, q.True?, Guard(g, d, p), FULL);
        GoodFullChoice(Guard(g, d, p), Gen(g, d, p, q.True?, Guard(g, d, p), FULL), c2, m);
      }
    case Rep(p) =>
      if ToCharset(p).0 {
        GoodSet(ISpan, ToCharset(p).1, m);
      } else if SkipsChoice(g, d, p, fl) {
        GenGood(g, d, p, false, HardGuard(g, d, p), FULL);
        GoodTestedLoop(HardGuard(g, d, p), Gen(g, d, p, false, HardGuard(g, d, p), FULL), m);
      } else {
        GenGood(g, d, p, false, NoTest, FULL);
        GoodFullLoop(Guard(g, d, p), Gen(g, d, p, false, NoTest, FULL), opt, m);
      }
    case Not(p) =>
      GenGood(g, d, p, false, NoTest, FULL);
      GoodNot(Guard(g, d, p), Gen(g, d, p, false, NoTest, FULL), m);
    case And(p) =>
      GenGood(g, d, p, false, tt, FULL);
      GoodAnd(Gen(g, d, p, false, tt, FULL), FixedLen(g, p, d), m);
    case Behind(n, p) =>
      GenGood(g, d, p, false, NoTest, FULL);
      GoodBehind(n, m);
      GoodAppend(BehindCode(n), Gen(g, d, p, false, NoTest, FULL), m);
    case Capture(p) =>
      GenGood(g, d, p, false, tt, fl);
      GoodCapture(Gen(g, d, p, false, tt, fl), FixedLen(g, p, d), m);
    case Seq(p, q) =>
      GenGood(g, d, p, false, tt, FollowOfFirst(g, d, p, q, fl));
      GenGood(g, d, q, opt, TestAfter(g, d, p, tt), fl);
      GoodAppend(Gen(g, d, p, false, tt, FollowOfFirst(g, d, p, q, fl)), Gen(g, d, q, opt, TestAfter(g, d, p, tt), fl), m);
    case Call(r) => assert Parses([IOpenCall(r), Hole], 2);
    case Grammar(rs) => GoodGrammar(t, d, m);
  }

  lemma GoodCharset(cs: Charset, tt: Test, m: nat)
    ensures Good(CodeCharset(cs, tt), m)
  {
    if |CodeCharset(cs, tt)| == 1 {
      GoodOne(CodeCharset(cs, tt)[0], m);
    } else {
      GoodSet(ISet, cs, m);
    }
  }

  lemma GoodTestedChoice(test: Test, c1: Code, c2: Code, empty2: bool, m: nat)
    requires Good(c1, m) && Good(c2, m)
    ensures Good(TestedChoice(test, c1, c2, empty2), m)
  {
    if empty2 { GoodTestedLast(test, c1, c2, m); } else { GoodTestedBoth(test, c1, c2, m); }
  }

  lemma GoodTestedLast(test: Test, c1: Code, c2: Code, m: nat)
    requires Good(c1, m) && Good(c2, m)
    ensures Good(TestedChoice(test, c1, c2, true), m)
  {
    var l := TestSize(test) + |c1|;
    Good4(TestCode(test, l), c1, [], c2, test, l, m);
  }

  lemma GoodTestedBoth(test: Test, c1: Code, c2: Code, m: nat)
    requires Good(c1, m) && Good(c2, m)
    ensures Good(TestedChoice(test, c1, c2, false), m)
  {
    var l := TestSize(test) + |c1| + 2;
    GoodLabel(IJmp, 2 + |c2|, m);
    Good4(TestCode(test, l), c1, [IJmp, Off(2 + |c2|)], c2, test, l, m);
  }

  lemma GoodFullChoice(test: Test, c1: Code, c2: Code, m: nat)
    requires Good(c1, m) && Good(c2, m)
    ensures Good(FullChoice(test, c1, c2), m)
  {
    var offset := TestSize(test) + 2 + |c1| + 2;
    var choice, commit := [IChoice, Off(2 + |c1| + 2)], [ICommit, Off(2 + |c2|)];
    GoodLabel(IChoice, 2 + |c1| + 2, m);
    GoodLabel(ICommit, 2 + |c2|, m);
    Good4(TestCode(test, offset), choice, c1, commit, test, offset, m);
    GoodAppend(TestCode(test, offset) + choice + c1 + commit, c2, m);
  }

  lemma Good4(tc: Code, u: Code, v: Code, w: Code, test: Test, offset: int, m: nat)
    requires tc == TestCode(test, offset) && Good(u, m) && Good(v, m) && Good(w, m)
    ensures Good(tc + u + v + w, m)
  {
    GoodTest(test, offset, m);
    GoodAppend(tc, u, m);
    GoodAppend(tc + u, v, m);
    GoodAppend(tc + u + v, w, m);
  }

  lemma GoodTestedLoop(test: Test, c: Code, m: nat)
    requires Good(c, m)
    ensures Good(TestedLoop(test, c), m)
  {
    var offset := TestSize(test) + |c| + 2;
    GoodLabel(IJmp, -(TestSize(test) + |c|), m);
    GoodTest(test, offset, m);
    GoodAppend(TestCode(test, offset), c, m);
    GoodAppend(TestCode(test, offset) + c, [IJmp, Off(-(TestSize(test) + |c|))], m);
  }

  lemma GoodFullLoop(test: Test, c: Code, opt: bool, m: nat)
    requires Good(c, m)
    ensures Good(FullLoop(test, c, opt), m)
  {
    var offset := TestSize(test) + 2 + |c| + 2;
    var enter := if opt then [IPartialCommit, Off(2)] else [IChoice, Off(2 + |c| + 2)];
    GoodLabel(IPartialCommit, 2, m);
    GoodLabel(IChoice, 2 + |c| + 2, m);
    GoodLabel(IPartialCommit, -|c|, m);
    Good4(TestCode(test, offset), enter, c, [IPartialCommit, Off(-|c|)], test, offset, m);
  }

  lemma GoodNot(test: Test, c: Code, m: nat)
    requires Good(c, m)
    ensures Good(TestedNot(test), m) && Good(FullNot(test, c), m)
  {
    GoodTestedNot(test, m);
    GoodFullNot(test, c, m);
  }

  lemma GoodTestedNot(test: Test, m: nat)
    ensures Good(TestedNot(test), m)
  {
    GoodOne(IFail, m);
    GoodTest(test, TestSize(test) + 1, m);
    GoodAppend(TestCode(test, TestSize(test) + 1), [IFail], m);
  }

  lemma GoodFullNot(test: Test, c: Code, m: nat)
    requires Good(c, m)
    ensures Good(FullNot(test, c), m)
  {
    var offset := TestSize(test) + 2 + |c| + 1;
    GoodOne(IFailTwice, m);
    GoodLabel(IChoice, 2 + |c| + 1, m);
    Good4(TestCode(test, offset), [IChoice, Off(2 + |c| + 1)], c, [IFailTwice], test, offset, m);
  }

  lemma GoodAnd(c: Code, len: int, m: nat)
    requires Good(c, m)
    ensures Good(c + BehindCode(len), m) && Good(FullAnd(c), m)
  {
    GoodBehind(len, m);
    GoodAppend(c, BehindCode(len), m);
    var choice, back := [IChoice, Off(2 + |c| + 2)], [IBackCommit, Off(3)];
    GoodLabel(IChoice, 2 + |c| + 2, m);
    GoodLabel(IBackCommit, 3, m);
    GoodOne(IFail, m);
    GoodAppend(choice, c, m);
    GoodAppend(choice + c, back, m);
    GoodAppend(choice + c + back, [IFail], m);
  }

  lemma GoodCapture(c: Code, len: int, m: nat)
    requires Good(c, m)
    ensures len >= 0 ==> Good(c + [IFullCapture(len)], m)
    ensures Good([IOpenCapture] + c + [ICloseCapture], m)
  {
    if len >= 0 {
      GoodOne(IFullCapture(len), m);
      GoodAppend(c, [IFullCapture(len)], m);
    }
    GoodOne(IOpenCapture, m);
    GoodOne(ICloseCapture, m);
    GoodAppend([IOpenCapture], c, m);
    GoodAppend([IOpenCapture] + c, [ICloseCapture], m);
  }

  // ---------- grammars ----------

  lemma {:induction false} GoodRules(t: Tree, d: nat, k: nat)
    requires t.Grammar? && WellFormed([], d, t) && k <= |t.rules|
    ensures Good(GenRules(t, d, k), |t.rules|)
    decreases t, 0, |t.rules| - k
  {
    if k < |t.rules| {
      var m := |t.rules|;
      GenGood(t.rules, d, t.rules[k], false, NoTest, FULL);
      GoodRules(t, d, k + 1);
      GoodOne(IRet, m);
      GoodAppend(RuleCode(t, d, k), [IRet], m);
      GoodAppend(RuleCode(t, d, k) + [IRet], GenRules(t, d, k + 1), m);
    }
  }

  /** The grammar's code before and after `correctcalls`. */
  lemma {:induction false} GrammarClosed(t: Tree, d: nat)
    requires t.Grammar? && WellFormed([], d, t)
    ensures var raw := RawGrammar(t, d);
      var cc := CorrectCalls(raw, t, d, 4);
      && Closed(raw, cc, RelPos(t, d), 4) && Parses(cc, 4)
      && cc[..4] == GrammarHead(t, d)
    decreases t, 0, |t.rules| + 1
  {
    var raw := RawGrammar(t, d);
    GoodRules(t, d, 0);
    ParsesShift(GrammarHead(t, d), GenRules(t, d, 0), 0);
    CorrectFits(raw, t, d, 4);
    ParsesClosed(raw, CorrectCalls(raw, t, d, 4), RelPos(t, d), 4, 4);
  }

  lemma {:induction false} GoodGrammar(t: Tree, d: nat, m: nat)
    requires t.Grammar? && WellFormed([], d, t)
    ensures Good(CorrectCalls(RawGrammar(t, d), t, d, 4), m)
    decreases t, 0, |t.rules| + 2
  {
    GrammarClosed(t, d);
    var cc := CorrectCalls(RawGrammar(t, d), t, d, 4);
    FirstWords(cc);
    HeadParses(cc);
    assert forall x :: 0 <= x < |cc| ==> !cc[x].IOpenCall?;
  }

  /** A call and a jump before code that parses. */
  lemma {:induction false} HeadParses(w: Code)
    requires |w| >= 4 && w[0] == ICall && w[2] == IJmp && w[1].Off? && w[3].Off? && Parses(w, 4)
    ensures Parses(w, 0)
  {
    assert Parses(w, 2);
  }

  lemma FirstWords(w: Code)
    requires |w| >= 4
    ensures w[0] == w[..4][0] && w[1] == w[..4][1] && w[2] == w[..4][2] && w[3] == w[..4][3]
  {
  }

  /** The rules from `k` on stand at the end of the grammar's code. */
  lemma {:induction false} RulesPlaced(t: Tree, d: nat, k: nat)
    requires t.Grammar? && k <= |t.rules|
    ensures RulePos(t, d, k) <= |RawGrammar(t, d)| && RawGrammar(t, d)[RulePos(t, d, k)..] == GenRules(t, d, k)
    decreases k
  {
    if k > 0 {
      RulesPlaced(t, d, k - 1);
      var raw, at := RawGrammar(t, d), RulePos(t, d, k - 1);
      var c := RuleCode(t, d, k - 1);
      assert GenRules(t, d, k - 1) == c + [IRet] + GenRules(t, d, k);
      assert raw[at + |c| + 1..] == raw[at..][|c| + 1..] == GenRules(t, d, k);
    }
  }

  /** A piece of a grammar's open code, found again where the closed code is embedded. */
  lemma PieceAt(code: Code, a: nat, raw: Code, cc: Code, rel: seq<int>, pos: seq<int>, at: nat, w: Code)
    requires Embeds(code, a, cc) && a + |cc| <= |code| && Closed(raw, cc, rel, 4)
    requires 4 <= at && at + |w| <= |raw| && forall z :: 0 <= z < |w| ==> raw[at + z] == w[z]
    requires |pos| == |rel| && forall q :: 0 <= q < |pos| ==> pos[q] == a + rel[q]
    ensures At(code, a + at, w, pos)
  {
    var b := a + at;
    forall z: nat | z < |w| ensures FitsAt(code, b, w, z, pos) {
      assert Fits(cc, at + z, raw[at + z], rel);
      FitsShift(code, a, cc, at + z, w[z], rel, pos);
    }
  }

  /** In code that holds a grammar at `a`, every rule stands at its position. */
  lemma {:induction false} RulesAt(code: Code, a: nat, t: Tree, d: nat, opos: seq<int>, pos: seq<int>, r: nat)
    requires t.Grammar? && WellFormed([], d, t) && r < |t.rules|
    requires At(code, a, CorrectCalls(RawGrammar(t, d), t, d, 4), opos)
    requires |pos| == |t.rules| && forall q :: 0 <= q < |pos| ==> pos[q] == a + RulePos(t, d, q)
    ensures At(code, a + RulePos(t, d, r), RuleCode(t, d, r) + [IRet], pos)
  {
    GrammarClosed(t, d);
    RulePosLow(t, d, r);
    RuleSlice(t, d, r);
    EmbeddedPiece(code, a, RawGrammar(t, d), CorrectCalls(RawGrammar(t, d), t, d, 4), RelPos(t, d), opos, pos,
                  RulePos(t, d, r), RuleCode(t, d, r) + [IRet]);
  }

  lemma EmbeddedPiece(code: Code, a: nat, raw: Code, cc: Code, rel: seq<int>, opos: seq<int>, pos: seq<int>, at: nat, w: Code)
    requires At(code, a, cc, opos) && Closed(raw, cc, rel, 4)
    requires 4 <= at && at + |w| <= |raw| && forall z :: 0 <= z < |w| ==> raw[at + z] == w[z]
    requires |pos| == |rel| && forall q :: 0 <= q < |pos| ==> pos[q] == a + rel[q]
    ensures At(code, a + at, w, pos)
  {
    EmbedsWithin(code, a, cc, opos);
    PieceAt(code, a, raw, cc, rel, pos, at, w);
  }

  lemma EmbedsWithin(code: Code, a: nat, w: Code, pos: seq<int>)
    requires At(code, a, w, pos) && w != []
    ensures Embeds(code, a, w) && a + |w| <= |code|
  {
    EmbedsAt(code, a, w, pos);
    assert FitsAt(code, a, w, |w| - 1, pos);
  }

  lemma RuleSlice(t: Tree, d: nat, r: nat)
    requires t.Grammar? && r < |t.rules|
    ensures var w, at := RuleCode(t, d, r) + [IRet], RulePos(t, d, r);
      at + |w| <= |RawGrammar(t, d)| && forall z :: 0 <= z < |w| ==> RawGrammar(t, d)[at + z] == w[z]
  {
    RulesPlaced(t, d, r);
    var w, at := RuleCode(t, d, r) + [IRet], RulePos(t, d, r);
    assert GenRules(t, d, r) == w + GenRules(t, d, r + 1);
    forall z | 0 <= z < |w| ensures RawGrammar(t, d)[at + z] == w[z] {
      assert RawGrammar(t, d)[at..][z] == w[z];
    }
  }

  lemma {:induction false} RulePosLow(t: Tree, d: nat, r: nat)
    requires t.Grammar? && r <= |t.rules|
    ensures RulePos(t, d, r) >= 4
    decreases r
  {
    if r > 0 { RulePosLow(t, d, r - 1); }
  }

  lemma EmbedsAt(code: Code, a: int, w: Code, pos: seq<int>)
    requires At(code, a, w, pos)
    ensures Embeds(code, a, w)
  {
    forall z | 0 <= z < |w| && !w[z].IOpenCall? && !w[z].Hole?
      ensures 0 <= a + z < |code| && code[a + z] == w[z]
    {
      assert FitsAt(code, a, w, z, pos);
    }
  }

  /** What fits in a grammar's code still fits where that code is embedded. */
  lemma FitsShift(code: Code, a: nat, cc: Code, x: nat, w: Word, rel: seq<int>, pos: seq<int>)
    requires Embeds(code, a, cc) && Fits(cc, x, w, rel) && a + |cc| <= |code|
    requires |pos| == |rel| && forall q :: 0 <= q < |pos| ==> pos[q] == a + rel[q]
    ensures Fits(code, a + x, w, pos)
  {
    match w
    case IOpenCall(r) =>
      assert code[a + x] == cc[x] && code[a + (x + 1)] == cc[x + 1];
      if cc[x] == IJmp { ReachesRetEmbeds(code, a, cc, x + 2); }
    case _ =>
  }
}
