/** When every chain of jumps in compiled code ends, so that `peephole` comes to an end. */
module LpJumps {
  import opened Peg
  import opened LpAnalysis
  import opened LpVm
  import opened LpCodegen
  import opened LpLayout
  import opened LpSimulation
  import opened LpVerify
  import opened LpPeephole
  import opened LpChains
  import opened LpFlow
  import opened LpTails

  // ---------- blocks ----------

  /** `ends` is the set of addresses whose chains end. */
  ghost predicate EndSet(code: Code, ends: iset<int>) {
    forall x {:trigger Ends(code, x)} :: Ends(code, x) <==> x in ends
  }

  lemma InHere(code: Code, ends: iset<int>, x: int)
    requires EndSet(code, ends) && !JumpsOn(code, x)
    ensures x in ends
  {
    EndsHere(code, x);
  }

  lemma InBack(code: Code, ends: iset<int>, x: int)
    requires EndSet(code, ends) && JumpsOn(code, x) && Label(code, x) in ends
    ensures x in ends
  {
    assert Ends(code, Label(code, x));
    EndsBack(code, x);
  }

  /** An area of the code: where its jumps may lead, and the addresses whose chains end. */
  datatype Area = Area(lo: int, hi: int, ends: iset<int>)

  ghost predicate Fine(code: Code, ar: Area, x: int) {
    x in ar.ends && (JumpsOn(code, x) ==> ar.lo <= Label(code, x) <= ar.hi)
  }

  ghost predicate AllFine(code: Code, ar: Area, a: int, n: nat) {
    forall x :: a <= x < a + n ==> Fine(code, ar, x)
  }

  lemma Join(code: Code, ar: Area, a: int, m: nat, n: nat)
    requires AllFine(code, ar, a, m) && AllFine(code, ar, a + m, n)
    ensures AllFine(code, ar, a, m + n)
  {
    forall x | a <= x < a + m + n ensures Fine(code, ar, x) {
    }
  }

  lemma FineWord(c: Ctx, ar: Area, a: int, w: Word)
    requires EndSet(c.code, ar.ends) && c.Here(a, [w]) && !w.IJmp? && !w.IOpenCall? && !w.Hole?
    ensures AllFine(c.code, ar, a, 1)
  {
    AtWord(c.code, a, w, c.pos);
    InHere(c.code, ar.ends, a);
  }

  lemma FineLabel(c: Ctx, ar: Area, a: int, w: Word, delta: int)
    requires EndSet(c.code, ar.ends) && c.Here(a, [w, Off(delta)]) && !w.IOpenCall? && !w.Hole?
    requires w.IJmp? ==> a + delta in ar.ends && ar.lo <= a + delta <= ar.hi
    ensures AllFine(c.code, ar, a, 2)
  {
    AtLabel(c.code, a, w, delta, c.pos);
    if w.IJmp? { InBack(c.code, ar.ends, a); } else { InHere(c.code, ar.ends, a); }
    InHere(c.code, ar.ends, a + 1);
  }

  lemma FineSet(c: Ctx, ar: Area, a: int, cs: Charset)
    requires EndSet(c.code, ar.ends) && c.Here(a, Buffer(cs))
    ensures AllFine(c.code, ar, a, CHARSETINSTSIZE - 1)
  {
    forall x | a <= x < a + CHARSETINSTSIZE - 1 ensures Fine(c.code, ar, x) {
      assert FitsAt(c.code, a, Buffer(cs), x - a, c.pos);
      InHere(c.code, ar.ends, x);
    }
  }

  lemma FineTest(c: Ctx, ar: Area, a: int, test: Test, offset: int)
    requires EndSet(c.code, ar.ends) && c.Here(a, TestCode(test, offset)) && a + offset in ar.ends && ar.lo <= a + offset <= ar.hi
    ensures AllFine(c.code, ar, a, TestSize(test))
  {
    match test
    case NoTest =>
    case TestJmp => FineLabel(c, ar, a, IJmp, offset);
    case TestAny => FineLabel(c, ar, a, ITestAny, offset);
    case TestChar(ch) => FineLabel(c, ar, a, ITestChar(ch), offset);
    case TestSet(cs) =>
      AtAppend(c.code, a, [ITestSet, Off(offset)], Buffer(cs), c.pos);
      FineLabel(c, ar, a, ITestSet, offset);
      FineSet(c, ar, a + 2, cs);
  }

  /** The chain from the start of a block that is fine, or empty, ends. */
  lemma StartEnds(code: Code, ar: Area, a: int, n: nat)
    requires AllFine(code, ar, a, n) && a + n in ar.ends
    ensures a in ar.ends
  {
    if n > 0 { assert Fine(code, ar, a); }
  }

  /** What a block needs around it: an exit whose chain ends, and rule entries whose
      chains end, all between `lo` and `hi`. */
  ghost predicate Placed(c: Ctx, t: Tree, w: Code, ar: Area, a: int) {
    && EndSet(c.code, ar.ends) && WellFormed(c.g, c.d, t) && JumpFree(c.g, c.d, t) && |c.pos| == |c.g|
    && c.Here(a, w) && ar.lo <= a && a + |w| <= ar.hi && a + |w| in ar.ends
    && forall r :: r in CallsIn(t, |c.g|) && r < |c.pos| ==> c.pos[r] in ar.ends && ar.lo <= c.pos[r] <= ar.hi
  }

  /** What the parts of the block of `t`, `n` words at `a`, have around them. */
  ghost predicate InArea(c: Ctx, t: Tree, ar: Area, a: int, n: nat) {
    && EndSet(c.code, ar.ends) && WellFormed(c.g, c.d, t) && JumpFree(c.g, c.d, t) && |c.pos| == |c.g|
    && ar.lo <= a && a + n <= ar.hi && a + n in ar.ends
    && forall r :: r in CallsIn(t, |c.g|) && r < |c.pos| ==> c.pos[r] in ar.ends && ar.lo <= c.pos[r] <= ar.hi
  }

  lemma {:induction false} BlockFine(c: Ctx, t: Tree, opt: bool, tt: Test, fl: Charset, ar: Area, a: int)
    requires Placed(c, t, c.Words(t, opt, tt, fl), ar, a)
    ensures AllFine(c.code, ar, a, |c.Words(t, opt, tt, fl)|)
    decreases t, 2
  {
    match t
    case Char(ch) => FineWord(c, ar, a, CodeChar(ch, tt)[0]);
    case Any => FineWord(c, ar, a, IAny);
    case True =>
    case False => FineWord(c, ar, a, IFail);
    case Set(cs) =>
      if |CodeCharset(cs, tt)| == 1 {
        FineWord(c, ar, a, CodeCharset(cs, tt)[0]);
      } else {
        AtAppend(c.code, a, [ISet], Buffer(cs), c.pos);
        FineWord(c, ar, a, ISet);
        FineSet(c, ar, a + 1, cs);
        Join(c.code, ar, a, 1, CHARSETINSTSIZE - 1);
      }
    case Choice(p, q) => FineChoice(c, t, opt, tt, fl, ar, a);
    case Rep(p) => FineRep(c, t, opt, tt, fl, ar, a);
    case Not(p) => FineNot(c, t, opt, tt, fl, ar, a);
    case And(p) => FineAnd(c, t, opt, tt, fl, ar, a);
    case Behind(n, p) =>
      FineBehind(c, t, opt, tt, fl, ar, a);
    case Capture(p) => FineCapture(c, t, opt, tt, fl, ar, a);
    case Seq(p, q) =>
      FineSeq(c, t, opt, tt, fl, ar, a);
    case Call(r) =>
      assert FitsAt(c.code, a, [IOpenCall(r), Hole], 0, c.pos);
      assert r in CallsIn(t, |c.g|);
      if c.code[a] == IJmp { InBack(c.code, ar.ends, a); } else { InHere(c.code, ar.ends, a); }
      InHere(c.code, ar.ends, a + 1);
    case Grammar(rs) =>
      assert c.Words(t, opt, tt, fl) == c.Words(t, false, NoTest, FULL);
      FineGrammar(c, t, ar, a);
  }

  lemma {:induction false} FineSeq(c: Ctx, t: Tree, opt: bool, tt: Test, fl: Charset, ar: Area, a: int)
    requires t.Seq? && Placed(c, t, c.Words(t, opt, tt, fl), ar, a)
    ensures AllFine(c.code, ar, a, |c.Words(t, opt, tt, fl)|)
    decreases t, 1
  {
    GenCase(c.g, c.d, t, opt, tt, fl);
    var p, q := t.p1, t.p2;
    var fl1, tt2 := FollowOfFirst(c.g, c.d, p, q, fl), TestAfter(c.g, c.d, p, tt);
    var c1 := c.Words(p, false, tt, fl1);
    var c2 := c.Words(q, opt, tt2, fl);
    AtAppend(c.code, a, c1, c2, c.pos);
    BlockFine(c, q, opt, tt2, fl, ar, a + |c1|);
    StartEnds(c.code, ar, a + |c1|, |c2|);
    BlockFine(c, p, false, tt, fl1, ar, a);
    Join(c.code, ar, a, |c1|, |c2|);
  }

  lemma {:induction false} FineBehind(c: Ctx, t: Tree, opt: bool, tt: Test, fl: Charset, ar: Area, a: int)
    requires t.Behind? && Placed(c, t, c.Words(t, opt, tt, fl), ar, a)
    ensures AllFine(c.code, ar, a, |c.Words(t, opt, tt, fl)|)
    decreases t, 1
  {
    var body := c.Words(t.body, false, NoTest, FULL);
    AtAppend(c.code, a, BehindCode(t.n), body, c.pos);
    BlockFine(c, t.body, false, NoTest, FULL, ar, a + |BehindCode(t.n)|);
    if t.n > 0 {
      FineWord(c, ar, a, IBehind(t.n));
      Join(c.code, ar, a, 1, |body|);
    }
  }

  lemma {:induction false} FineChoice(c: Ctx, t: Tree, opt: bool, tt: Test, fl: Charset, ar: Area, a: int)
    requires t.Choice? && Placed(c, t, c.Words(t, opt, tt, fl), ar, a)
    ensures AllFine(c.code, ar, a, |c.Words(t, opt, tt, fl)|)
    decreases t, 1
  {
    GenCase(c.g, c.d, t, opt, tt, fl);
    var p, q := t.p1, t.p2;
    if SkipsChoice(c.g, c.d, p, GetFirst(c.g, q, fl, c.d).cs) {
      FineTestedChoice(c, t, opt, tt, fl, HardGuard(c.g, c.d, t.p1), ar, a);
    } else if opt && q.True? {
      var c1 := c.Words(p, true, NoTest, FULL);
      AtAppend(c.code, a, [IPartialCommit, Off(2)], c1, c.pos);
      FineLabel(c, ar, a, IPartialCommit, 2);
      BlockFine(c, p, true, NoTest, FULL, ar, a + 2);
    } else {
      FineFullChoice(c, t, opt, tt, fl, Guard(c.g, c.d, t.p1), ar, a);
    }
  }

  lemma {:induction false} FineTestedChoice(c: Ctx, t: Tree, opt: bool, tt: Test, fl: Charset, test: Test, ar: Area, a: int)
    requires t.Choice? && Placed(c, t, c.Words(t, opt, tt, fl), ar, a)
    requires c.Words(t, opt, tt, fl) == TestedChoice(test, c.Words(t.p1, false, test, fl), c.Words(t.p2, opt, NoTest, fl), t.p2.True?)
    ensures AllFine(c.code, ar, a, |c.Words(t, opt, tt, fl)|)
    decreases t, 0
  {
    LayTestedChoice(c, a, test, c.Words(t.p1, false, test, fl), c.Words(t.p2, opt, NoTest, fl), t.p2.True?);
    if t.p2.True? {
      FineTestedEmpty(c, t, opt, fl, test, ar, a);
    } else {
      FineTestedBoth(c, t, opt, fl, test, ar, a);
    }
  }

  lemma {:induction false} FineTestedEmpty(c: Ctx, t: Tree, opt: bool, fl: Charset, test: Test, ar: Area, a: int)
    requires t.Choice? && t.p2.True?
    requires var c1, c2 := c.Words(t.p1, false, test, fl), c.Words(t.p2, opt, NoTest, fl);
      var l := TestSize(test) + |c1|;
      && Placed(c, t, TestedChoice(test, c1, c2, true), ar, a) && |TestedChoice(test, c1, c2, true)| == l + |c2|
      && c.Here(a, TestCode(test, l)) && c.Here(a + TestSize(test), c1) && c.Here(a + l, c2)
    ensures AllFine(c.code, ar, a, TestSize(test) + |c.Words(t.p1, false, test, fl)| + |c.Words(t.p2, opt, NoTest, fl)|)
    decreases t, -1
  {
    var c1, c2 := c.Words(t.p1, false, test, fl), c.Words(t.p2, opt, NoTest, fl);
    var l := TestSize(test) + |c1|;
    BlockFine(c, t.p2, opt, NoTest, fl, ar, a + l);
    StartEnds(c.code, ar, a + l, |c2|);
    BlockFine(c, t.p1, false, test, fl, ar, a + TestSize(test));
    FineTest(c, ar, a, test, l);
    Join(c.code, ar, a, TestSize(test), |c1|);
    Join(c.code, ar, a, l, |c2|);
  }

  lemma {:induction false} FineTestedBoth(c: Ctx, t: Tree, opt: bool, fl: Charset, test: Test, ar: Area, a: int)
    requires t.Choice? && !t.p2.True?
    requires var c1, c2 := c.Words(t.p1, false, test, fl), c.Words(t.p2, opt, NoTest, fl);
      var e := TestSize(test) + |c1|;
      && Placed(c, t, TestedChoice(test, c1, c2, false), ar, a) && |TestedChoice(test, c1, c2, false)| == e + 2 + |c2|
      && c.Here(a, TestCode(test, e + 2)) && c.Here(a + TestSize(test), c1) && c.Here(a + e + 2, c2)
      && JumpAt(c, a + e, a + e + 2 + |c2|)
    ensures AllFine(c.code, ar, a, TestSize(test) + |c.Words(t.p1, false, test, fl)| + 2 + |c.Words(t.p2, opt, NoTest, fl)|)
    decreases t, -1
  {
    var c1, c2 := c.Words(t.p1, false, test, fl), c.Words(t.p2, opt, NoTest, fl);
    var e := TestSize(test) + |c1|;
    BlockFine(c, t.p2, opt, NoTest, fl, ar, a + e + 2);
    StartEnds(c.code, ar, a + e + 2, |c2|);
    InBack(c.code, ar.ends, a + e);
    InHere(c.code, ar.ends, a + e + 1);
    BlockFine(c, t.p1, false, test, fl, ar, a + TestSize(test));
    FineTest(c, ar, a, test, e + 2);
    JoinFour(c.code, ar, a, TestSize(test), |c1|, 2, |c2|);
  }

  lemma JoinFour(code: Code, ar: Area, a: int, l1: nat, l2: nat, l3: nat, l4: nat)
    requires AllFine(code, ar, a, l1) && AllFine(code, ar, a + l1, l2) && AllFine(code, ar, a + l1 + l2, l3)
    requires AllFine(code, ar, a + l1 + l2 + l3, l4)
    ensures AllFine(code, ar, a, l1 + l2 + l3 + l4)
  {
    Join(code, ar, a, l1, l2);
    Join(code, ar, a, l1 + l2, l3);
    Join(code, ar, a, l1 + l2 + l3, l4);
  }

  lemma {:induction false} FineFullChoice(c: Ctx, t: Tree, opt: bool, tt: Test, fl: Charset, test: Test, ar: Area, a: int)
    requires t.Choice? && Placed(c, t, c.Words(t, opt, tt, fl), ar, a)
    requires c.Words(t, opt, tt, fl) == FullChoice(test, c.Words(t.p1, t.p2.True?, test, FULL), c.Words(t.p2, opt, NoTest, fl))
    ensures AllFine(c.code, ar, a, |c.Words(t, opt, tt, fl)|)
    decreases t, 0
  {
    var c1, c2 := c.Words(t.p1, t.p2.True?, test, FULL), c.Words(t.p2, opt, NoTest, fl);
    LayFullChoice(c, a, test, c1, c2);
    FineFullParts(c, t, opt, fl, test, ar, a, TestSize(test) + 2, TestSize(test) + 2 + |c1| + 2);
  }

  lemma {:induction false} FineFullParts(c: Ctx, t: Tree, opt: bool, fl: Charset, test: Test, ar: Area, a: int, o: nat, l: nat)
    requires t.Choice? && InArea(c, t, ar, a, l + |c.Words(t.p2, opt, NoTest, fl)|)
    requires var c1, c2 := c.Words(t.p1, t.p2.True?, test, FULL), c.Words(t.p2, opt, NoTest, fl);
      && o == TestSize(test) + 2 && l == o + |c1| + 2 && c.Here(a, TestCode(test, l)) && c.Here(a + o - 2, [IChoice, Off(2 + |c1| + 2)])
      && c.Here(a + o, c1) && c.Here(a + l - 2, [ICommit, Off(2 + |c2|)]) && c.Here(a + l, c2)
    ensures AllFine(c.code, ar, a, l + |c.Words(t.p2, opt, NoTest, fl)|)
    decreases t, -1, 1
  {
    var n := |c.Words(t.p2, opt, NoTest, fl)|;
    FineSecondOfFull(c, t, opt, fl, ar, a, l);
    FineFirstOfFull(c, t, test, n, ar, a, l);
    Join(c.code, ar, a, l, n);
  }

  lemma {:induction false} FineSecondOfFull(c: Ctx, t: Tree, opt: bool, fl: Charset, ar: Area, a: int, l: nat)
    requires t.Choice? && InArea(c, t, ar, a, l + |c.Words(t.p2, opt, NoTest, fl)|)
    requires c.Here(a + l, c.Words(t.p2, opt, NoTest, fl))
    ensures AllFine(c.code, ar, a + l, |c.Words(t.p2, opt, NoTest, fl)|) && a + l in ar.ends
    decreases t, -1, 0
  {
    BlockFine(c, t.p2, opt, NoTest, fl, ar, a + l);
    StartEnds(c.code, ar, a + l, |c.Words(t.p2, opt, NoTest, fl)|);
  }

  lemma {:induction false} FineFirstOfFull(c: Ctx, t: Tree, test: Test, n: nat, ar: Area, a: int, l: nat)
    requires t.Choice? && InArea(c, t, ar, a, l + n) && a + l in ar.ends
    requires var o, c1 := TestSize(test) + 2, c.Words(t.p1, t.p2.True?, test, FULL);
      && l == o + |c1| + 2 && c.Here(a, TestCode(test, l)) && c.Here(a + o - 2, [IChoice, Off(2 + |c1| + 2)])
      && c.Here(a + o, c1) && c.Here(a + l - 2, [ICommit, Off(2 + n)])
    ensures AllFine(c.code, ar, a, l)
    decreases t, -1, 0
  {
    var o, c1 := TestSize(test) + 2, c.Words(t.p1, t.p2.True?, test, FULL);
    FineLabel(c, ar, a + l - 2, ICommit, 2 + n);
    assert Fine(c.code, ar, a + l - 2);
    BlockFine(c, t.p1, t.p2.True?, test, FULL, ar, a + o);
    FineLabel(c, ar, a + o - 2, IChoice, 2 + |c1| + 2);
    FineTest(c, ar, a, test, l);
    JoinFour(c.code, ar, a, o - 2, 2, |c1|, 2);
  }

  lemma {:induction false} FineRep(c: Ctx, t: Tree, opt: bool, tt: Test, fl: Charset, ar: Area, a: int)
    requires t.Rep? && Placed(c, t, c.Words(t, opt, tt, fl), ar, a)
    ensures AllFine(c.code, ar, a, |c.Words(t, opt, tt, fl)|)
    decreases t, 1
  {
    GenCase(c.g, c.d, t, opt, tt, fl);
    var p := t.body;
    if ToCharset(p).0 {
      AtAppend(c.code, a, [ISpan], Buffer(ToCharset(p).1), c.pos);
      FineWord(c, ar, a, ISpan);
      FineSet(c, ar, a + 1, ToCharset(p).1);
    } else if SkipsChoice(c.g, c.d, p, fl) {
      FineTestedLoop(c, t, opt, tt, fl, HardGuard(c.g, c.d, p), ar, a);
    } else {
      FineFullLoop(c, t, opt, tt, fl, Guard(c.g, c.d, p), ar, a);
    }
  }

  lemma {:induction false} FineTestedLoop(c: Ctx, t: Tree, opt: bool, tt: Test, fl: Charset, test: Test, ar: Area, a: int)
    requires t.Rep? && Placed(c, t, c.Words(t, opt, tt, fl), ar, a)
    requires test != NoTest && c.Words(t, opt, tt, fl) == TestedLoop(test, c.Words(t.body, false, test, FULL))
    ensures AllFine(c.code, ar, a, |c.Words(t, opt, tt, fl)|)
    decreases t, 0
  {
    var p := t.body;
    var body := c.Words(p, false, test, FULL);
    LayTestedLoop(c, a, test, body);
    var e := TestSize(test) + |body|;
    FineTest(c, ar, a, test, e + 2);
    assert TestSize(test) > 0;
    assert Fine(c.code, ar, a);
    FineLabel(c, ar, a + e, IJmp, -e);
    assert Fine(c.code, ar, a + e);
    BlockFine(c, p, false, test, FULL, ar, a + TestSize(test));
    Join(c.code, ar, a, TestSize(test), |body|);
    Join(c.code, ar, a, e, 2);
  }

  lemma {:induction false} FineFullLoop(c: Ctx, t: Tree, opt: bool, tt: Test, fl: Charset, test: Test, ar: Area, a: int)
    requires t.Rep? && Placed(c, t, c.Words(t, opt, tt, fl), ar, a)
    requires c.Words(t, opt, tt, fl) == FullLoop(test, c.Words(t.body, false, NoTest, FULL), opt)
    ensures AllFine(c.code, ar, a, |c.Words(t, opt, tt, fl)|)
    decreases t, 0
  {
    var p := t.body;
    var body := c.Words(p, false, NoTest, FULL);
    LayFullLoop(c, a, test, body, opt);
    FineTest(c, ar, a, test, TestSize(test) + 2 + |body| + 2);
    var e := a + TestSize(test) + 2 + |body|;
    FineLabel(c, ar, e, IPartialCommit, -|body|);
    assert Fine(c.code, ar, e);
    BlockFine(c, p, false, NoTest, FULL, ar, a + TestSize(test) + 2);
    if opt {
      FineLabel(c, ar, a + TestSize(test), IPartialCommit, 2);
    } else {
      FineLabel(c, ar, a + TestSize(test), IChoice, 2 + |body| + 2);
    }
    Join(c.code, ar, a, TestSize(test), 2);
    Join(c.code, ar, a, TestSize(test) + 2, |body|);
    Join(c.code, ar, a, TestSize(test) + 2 + |body|, 2);
  }

  lemma {:induction false} FineNot(c: Ctx, t: Tree, opt: bool, tt: Test, fl: Charset, ar: Area, a: int)
    requires t.Not? && Placed(c, t, c.Words(t, opt, tt, fl), ar, a)
    ensures AllFine(c.code, ar, a, |c.Words(t, opt, tt, fl)|)
    decreases t, 1
  {
    GenCase(c.g, c.d, t, opt, tt, fl);
    var p := t.body;
    var test := Guard(c.g, c.d, p);
    if HeadFail(c.g, p, c.d) {
      AtAppend(c.code, a, TestCode(test, TestSize(test) + 1), [IFail], c.pos);
      FineTest(c, ar, a, test, TestSize(test) + 1);
      FineWord(c, ar, a + TestSize(test), IFail);
      Join(c.code, ar, a, TestSize(test), 1);
    } else {
      FineFullNot(c, t, opt, tt, fl, test, ar, a);
    }
  }

  lemma {:induction false} FineFullNot(c: Ctx, t: Tree, opt: bool, tt: Test, fl: Charset, test: Test, ar: Area, a: int)
    requires t.Not? && Placed(c, t, c.Words(t, opt, tt, fl), ar, a)
    requires !HeadFail(c.g, t.body, c.d) && c.Words(t, opt, tt, fl) == FullNot(test, c.Words(t.body, false, NoTest, FULL))
    ensures AllFine(c.code, ar, a, |c.Words(t, opt, tt, fl)|)
    decreases t, 0
  {
    var p := t.body;
    var body := c.Words(p, false, NoTest, FULL);
    LayFullNot(c, a, test, body);
    FineTest(c, ar, a, test, TestSize(test) + 2 + |body| + 1);
    var e := a + TestSize(test) + 2 + |body|;
    FineWord(c, ar, e, IFailTwice);
    assert Fine(c.code, ar, e);
    BlockFine(c, p, false, NoTest, FULL, ar, a + TestSize(test) + 2);
    FineLabel(c, ar, a + TestSize(test), IChoice, 2 + |body| + 1);
    Join(c.code, ar, a, TestSize(test), 2);
    Join(c.code, ar, a, TestSize(test) + 2, |body|);
    Join(c.code, ar, a, TestSize(test) + 2 + |body|, 1);
  }

  lemma {:induction false} FineAnd(c: Ctx, t: Tree, opt: bool, tt: Test, fl: Charset, ar: Area, a: int)
    requires t.And? && Placed(c, t, c.Words(t, opt, tt, fl), ar, a)
    ensures AllFine(c.code, ar, a, |c.Words(t, opt, tt, fl)|)
    decreases t, 1
  {
    GenCase(c.g, c.d, t, opt, tt, fl);
    var p := t.body;
    var body := c.Words(p, false, tt, FULL);
    if ShortBody(c.g, c.d, p, MAXBEHIND) {
      var len := FixedLen(c.g, p, c.d);
      AtAppend(c.code, a, body, BehindCode(len), c.pos);
      if len > 0 {
        FineWord(c, ar, a + |body|, IBehind(len));
        assert Fine(c.code, ar, a + |body|);
      }
      BlockFine(c, p, false, tt, FULL, ar, a);
    } else {
      LayFullAnd(c, a, body);
      var e := a + 2 + |body|;
      FineWord(c, ar, e + 2, IFail);
      FineLabel(c, ar, e, IBackCommit, 3);
      assert Fine(c.code, ar, e);
      BlockFine(c, p, false, tt, FULL, ar, a + 2);
      FineLabel(c, ar, a, IChoice, 2 + |body| + 2);
      Join(c.code, ar, a, 2, |body|);
      Join(c.code, ar, a, 2 + |body|, 2);
      Join(c.code, ar, a, 2 + |body| + 2, 1);
    }
  }

  lemma {:induction false} FineCapture(c: Ctx, t: Tree, opt: bool, tt: Test, fl: Charset, ar: Area, a: int)
    requires t.Capture? && Placed(c, t, c.Words(t, opt, tt, fl), ar, a)
    ensures AllFine(c.code, ar, a, |c.Words(t, opt, tt, fl)|)
    decreases t, 1
  {
    GenCase(c.g, c.d, t, opt, tt, fl);
    var p := t.body;
    var body := c.Words(p, false, tt, fl);
    if ShortBody(c.g, c.d, p, MAXOFF) {
      var w := IFullCapture(FixedLen(c.g, p, c.d));
      AtAppend(c.code, a, body, [w], c.pos);
      FineWord(c, ar, a + |body|, w);
      assert Fine(c.code, ar, a + |body|);
      BlockFine(c, p, false, tt, fl, ar, a);
    } else {
      AtAppend(c.code, a, [IOpenCapture] + body, [ICloseCapture], c.pos);
      AtAppend(c.code, a, [IOpenCapture], body, c.pos);
      FineWord(c, ar, a, IOpenCapture);
      FineWord(c, ar, a + 1 + |body|, ICloseCapture);
      assert Fine(c.code, ar, a + 1 + |body|);
      BlockFine(c, p, false, tt, fl, ar, a + 1);
    }
  }

  // ---------- grammars ----------

  lemma {:induction false} FineGrammar(c: Ctx, t: Tree, ar: Area, a: int)
    requires t.Grammar? && Placed(c, t, c.Words(t, false, NoTest, FULL), ar, a)
    ensures AllFine(c.code, ar, a, |c.Words(t, false, NoTest, FULL)|)
    decreases t, 1
  {
    var w := c.Words(t, false, NoTest, FULL);
    var c' := Inner(c, t, a);
    InnerLoaded(c, t, a);
    GrammarEntry(c, t, a);
    FineLabel(c, ar, a, ICall, 4);
    FineLabel(c, ar, a + 2, IJmp, |w| - 2);
    assert WellFormed([], c.d, t);
    GrammarClosed(t, c.d);
    EmbedsAt(c.code, a, w, c.pos);
    RulesEndIff(c.code, a, t, c.d);
    FineRules(c', t, ar, a, 0);
    Join(c.code, ar, a, 2, 2);
    Join(c.code, ar, a, 4, |w| - 4);
  }

  /** Context `c` is the scope of grammar `t` placed at `a`. */
  ghost predicate GrammarHere(c: Ctx, t: Tree, ar: Area, a: int) {
    && t.Grammar? && c.g == t.rules && Loaded(c) && EndSet(c.code, ar.ends)
    && RulesEnd(c.code, a, t, c.d) && (forall k :: 0 <= k < |t.rules| ==> JumpFree(t.rules, c.d, t.rules[k]))
    && (forall q :: 0 <= q < |c.g| ==> c.pos[q] == a + RulePos(t, c.d, q))
    && ar.lo <= a && a + |RawGrammar(t, c.d)| <= ar.hi
  }

  /** The rules called in a rule have entries whose chains end. */
  lemma CalledEntriesEnd(c: Ctx, t: Tree, ar: Area, a: int, r: nat)
    requires t.Grammar? && r < |t.rules| && GrammarHere(c, t, ar, a)
    ensures forall q :: q in CallsIn(t.rules[r], |c.g|) && q < |c.pos| ==> c.pos[q] in ar.ends && ar.lo <= c.pos[q] <= ar.hi
  {
    forall q | q in CallsIn(t.rules[r], |c.g|) && q < |c.pos|
      ensures c.pos[q] in ar.ends && ar.lo <= c.pos[q] <= ar.hi
    {
      assert RuleEnds(c.code, a, t, c.d, q);
      assert Ends(c.code, c.pos[q]);
      RulesPlaced(t, c.d, q);
      RulePosLow(t, c.d, q);
    }
  }

  lemma {:induction false} FineRules(c: Ctx, t: Tree, ar: Area, a: int, r: nat)
    requires t.Grammar? && r <= |t.rules| && GrammarHere(c, t, ar, a)
    ensures AllFine(c.code, ar, a + RulePos(t, c.d, r), |GenRules(t, c.d, r)|)
    decreases t, 0, |t.rules| - r
  {
    if r < |t.rules| {
      FineRules(c, t, ar, a, r + 1);
      FineRule(c, t, ar, a, r);
      JoinRules(c.code, ar, t, c.d, a, r);
    }
  }

  lemma JoinRules(code: Code, ar: Area, t: Tree, d: nat, a: int, r: nat)
    requires t.Grammar? && r < |t.rules|
    requires AllFine(code, ar, a + RulePos(t, d, r), |RuleCode(t, d, r)| + 1)
    requires AllFine(code, ar, a + RulePos(t, d, r + 1), |GenRules(t, d, r + 1)|)
    ensures AllFine(code, ar, a + RulePos(t, d, r), |GenRules(t, d, r)|)
  {
    Join(code, ar, a + RulePos(t, d, r), |RuleCode(t, d, r)| + 1, |GenRules(t, d, r + 1)|);
  }

  lemma {:induction false} FineRule(c: Ctx, t: Tree, ar: Area, a: int, r: nat)
    requires t.Grammar? && r < |t.rules| && GrammarHere(c, t, ar, a)
    ensures AllFine(c.code, ar, a + RulePos(t, c.d, r), |RuleCode(t, c.d, r)| + 1)
    decreases t, 0, 0
  {
    var body := c.Words(t.rules[r], false, NoTest, FULL);
    assert RuleCode(t, c.d, r) == body;
    var at := a + RulePos(t, c.d, r);
    assert c.Here(c.pos[r], body + [IRet]);
    AtAppend(c.code, at, body, [IRet], c.pos);
    FineWord(c, ar, at + |body|, IRet);
    assert Fine(c.code, ar, at + |body|);
    RuleSlice(t, c.d, r);
    CalledEntriesEnd(c, t, ar, a, r);
    BlockFine(c, t.rules[r], false, NoTest, FULL, ar, at);
    Join(c.code, ar, at, |body|, 1);
  }

  // ---------- the condition is necessary ----------

  /** Code in which every chain ends holds no grammar with a rule that comes back to itself. */
  lemma {:induction false} BlockFree(c: Ctx, t: Tree, opt: bool, tt: Test, fl: Charset, a: int)
    requires AllEnd(c.code) && WellFormed(c.g, c.d, t) && c.Here(a, c.Words(t, opt, tt, fl))
    ensures JumpFree(c.g, c.d, t)
    decreases t, 1
  {
    match t
    case Choice(_, _) => FreeChoice(c, t, opt, tt, fl, a);
    case Rep(_) => FreeRep(c, t, opt, tt, fl, a);
    case Not(_) => FreeNot(c, t, opt, tt, fl, a);
    case And(_) => FreeAnd(c, t, opt, tt, fl, a);
    case Behind(n, p) =>
      AtAppend(c.code, a, BehindCode(n), c.Words(p, false, NoTest, FULL), c.pos);
      BlockFree(c, p, false, NoTest, FULL, a + |BehindCode(n)|);
    case Capture(_) => FreeCapture(c, t, opt, tt, fl, a);
    case Seq(p, q) =>
      GenCase(c.g, c.d, t, opt, tt, fl);
      var fl1, tt2 := FollowOfFirst(c.g, c.d, p, q, fl), TestAfter(c.g, c.d, p, tt);
      var c1 := c.Words(p, false, tt, fl1);
      AtAppend(c.code, a, c1, c.Words(q, opt, tt2, fl), c.pos);
      BlockFree(c, p, false, tt, fl1, a);
      BlockFree(c, q, opt, tt2, fl, a + |c1|);
    case Grammar(_) =>
      assert c.Words(t, opt, tt, fl) == c.Words(t, false, NoTest, FULL);
      FreeGrammar(c, t, a);
    case _ =>
  }

  lemma {:induction false} FreeChoice(c: Ctx, t: Tree, opt: bool, tt: Test, fl: Charset, a: int)
    requires t.Choice? && AllEnd(c.code) && WellFormed(c.g, c.d, t) && c.Here(a, c.Words(t, opt, tt, fl))
    ensures JumpFree(c.g, c.d, t)
    decreases t, 0
  {
    GenCase(c.g, c.d, t, opt, tt, fl);
    if SkipsChoice(c.g, c.d, t.p1, GetFirst(c.g, t.p2, fl, c.d).cs) {
      FreeTested(c, t, opt, fl, HardGuard(c.g, c.d, t.p1), a);
    } else if opt && t.p2.True? {
      AtAppend(c.code, a, [IPartialCommit, Off(2)], c.Words(t.p1, true, NoTest, FULL), c.pos);
      BlockFree(c, t.p1, true, NoTest, FULL, a + 2);
    } else {
      FreeFull(c, t, opt, fl, Guard(c.g, c.d, t.p1), a);
    }
  }

  lemma {:induction false} FreeTested(c: Ctx, t: Tree, opt: bool, fl: Charset, test: Test, a: int)
    requires t.Choice? && AllEnd(c.code) && WellFormed(c.g, c.d, t)
    requires c.Here(a, TestedChoice(test, c.Words(t.p1, false, test, fl), c.Words(t.p2, opt, NoTest, fl), t.p2.True?))
    ensures JumpFree(c.g, c.d, t.p1) && JumpFree(c.g, c.d, t.p2)
    decreases t, -1
  {
    var c1, l := c.Words(t.p1, false, test, fl), if t.p2.True? then 0 else 2;
    LayTestedChoice(c, a, test, c1, c.Words(t.p2, opt, NoTest, fl), t.p2.True?);
    BlockFree(c, t.p1, false, test, fl, a + TestSize(test));
    BlockFree(c, t.p2, opt, NoTest, fl, a + (TestSize(test) + |c1| + l));
  }

  lemma {:induction false} FreeFull(c: Ctx, t: Tree, opt: bool, fl: Charset, test: Test, a: int)
    requires t.Choice? && AllEnd(c.code) && WellFormed(c.g, c.d, t)
    requires c.Here(a, FullChoice(test, c.Words(t.p1, t.p2.True?, test, FULL), c.Words(t.p2, opt, NoTest, fl)))
    ensures JumpFree(c.g, c.d, t.p1) && JumpFree(c.g, c.d, t.p2)
    decreases t, -1
  {
    var c1 := c.Words(t.p1, t.p2.True?, test, FULL);
    LayFullChoice(c, a, test, c1, c.Words(t.p2, opt, NoTest, fl));
    BlockFree(c, t.p1, t.p2.True?, test, FULL, a + TestSize(test) + 2);
    BlockFree(c, t.p2, opt, NoTest, fl, a + (TestSize(test) + 2 + |c1| + 2));
  }

  lemma {:induction false} FreeRep(c: Ctx, t: Tree, opt: bool, tt: Test, fl: Charset, a: int)
    requires t.Rep? && AllEnd(c.code) && WellFormed(c.g, c.d, t) && c.Here(a, c.Words(t, opt, tt, fl))
    ensures JumpFree(c.g, c.d, t)
    decreases t, 0
  {
    GenCase(c.g, c.d, t, opt, tt, fl);
    var p := t.body;
    if !ToCharset(p).0 {
      if SkipsChoice(c.g, c.d, p, fl) {
        var test := HardGuard(c.g, c.d, p);
        LayTestedLoop(c, a, test, c.Words(p, false, test, FULL));
        BlockFree(c, p, false, test, FULL, a + TestSize(test));
      } else {
        var test := Guard(c.g, c.d, p);
        LayFullLoop(c, a, test, c.Words(p, false, NoTest, FULL), opt);
        BlockFree(c, p, false, NoTest, FULL, a + TestSize(test) + 2);
      }
    }
  }

  lemma {:induction false} FreeNot(c: Ctx, t: Tree, opt: bool, tt: Test, fl: Charset, a: int)
    requires t.Not? && AllEnd(c.code) && WellFormed(c.g, c.d, t) && c.Here(a, c.Words(t, opt, tt, fl))
    ensures JumpFree(c.g, c.d, t)
    decreases t, 0
  {
    GenCase(c.g, c.d, t, opt, tt, fl);
    var p := t.body;
    if !HeadFail(c.g, p, c.d) {
      var test := Guard(c.g, c.d, p);
      LayFullNot(c, a, test, c.Words(p, false, NoTest, FULL));
      BlockFree(c, p, false, NoTest, FULL, a + TestSize(test) + 2);
    }
  }

  lemma {:induction false} FreeAnd(c: Ctx, t: Tree, opt: bool, tt: Test, fl: Charset, a: int)
    requires t.And? && AllEnd(c.code) && WellFormed(c.g, c.d, t) && c.Here(a, c.Words(t, opt, tt, fl))
    ensures JumpFree(c.g, c.d, t)
    decreases t, 0
  {
    GenCase(c.g, c.d, t, opt, tt, fl);
    var p := t.body;
    var body := c.Words(p, false, tt, FULL);
    if ShortBody(c.g, c.d, p, MAXBEHIND) {
      AtAppend(c.code, a, body, BehindCode(FixedLen(c.g, p, c.d)), c.pos);
      BlockFree(c, p, false, tt, FULL, a);
    } else {
      LayFullAnd(c, a, body);
      BlockFree(c, p, false, tt, FULL, a + 2);
    }
  }

  lemma {:induction false} FreeCapture(c: Ctx, t: Tree, opt: bool, tt: Test, fl: Charset, a: int)
    requires t.Capture? && AllEnd(c.code) && WellFormed(c.g, c.d, t) && c.Here(a, c.Words(t, opt, tt, fl))
    ensures JumpFree(c.g, c.d, t)
    decreases t, 0
  {
    GenCase(c.g, c.d, t, opt, tt, fl);
    var p := t.body;
    var body := c.Words(p, false, tt, fl);
    if ShortBody(c.g, c.d, p, MAXOFF) {
      AtAppend(c.code, a, body, [IFullCapture(FixedLen(c.g, p, c.d))], c.pos);
      BlockFree(c, p, false, tt, fl, a);
    } else {
      AtAppend(c.code, a, [IOpenCapture] + body, [ICloseCapture], c.pos);
      AtAppend(c.code, a, [IOpenCapture], body, c.pos);
      BlockFree(c, p, false, tt, fl, a + 1);
    }
  }

  lemma {:induction false} FreeGrammar(c: Ctx, t: Tree, a: int)
    requires t.Grammar? && AllEnd(c.code) && WellFormed(c.g, c.d, t) && c.Here(a, c.Words(t, false, NoTest, FULL))
    ensures JumpFree(c.g, c.d, t)
    decreases t, 0
  {
    var c' := Inner(c, t, a);
    assert WellFormed([], c.d, t);
    InnerLoaded(c, t, a);
    EmbedsAt(c.code, a, c.Words(t, false, NoTest, FULL), c.pos);
    assert RulesEnd(c.code, a, t, c.d) by {
      forall r: nat | r < |t.rules| ensures RuleEnds(c.code, a, t, c.d, r) {
        assert Ends(c.code, a + RulePos(t, c.d, r));
      }
    }
    RulesEndIff(c.code, a, t, c.d);
    forall k | 0 <= k < |t.rules| ensures JumpFree(t.rules, c.d, t.rules[k]) {
      var body := c'.Words(t.rules[k], false, NoTest, FULL);
      assert c'.Here(c'.pos[k], body + [IRet]);
      AtAppend(c.code, c'.pos[k], body, [IRet], c'.pos);
      BlockFree(c', t.rules[k], false, NoTest, FULL, c'.pos[k]);
    }
  }

  // ---------- whole patterns ----------

  /** The code of a pattern outside any grammar. */
  lemma RawHere(t: Tree, d: nat) returns (c: Ctx)
    requires WellFormed([], d, t)
    ensures c == Ctx(CompileRaw(t, d), [], [], d, [])
    ensures c.Here(0, c.Words(t, false, NoTest, FULL)) && |CompileRaw(t, d)| == |c.Words(t, false, NoTest, FULL)| + 1
    ensures CompileRaw(t, d)[|CompileRaw(t, d)| - 1] == IEnd
  {
    var code := CompileRaw(t, d);
    c := Ctx(code, [], [], d, []);
    var w := c.Words(t, false, NoTest, FULL);
    GenGood([], d, t, false, NoTest, FULL);
    forall x: nat | x < |w| ensures FitsAt(code, 0, w, x, []) {
      assert code[x] == w[x] && !w[x].IOpenCall?;
    }
  }

  lemma CompiledEnds(t: Tree, d: nat)
    requires WellFormed([], d, t) && JumpFree([], d, t)
    ensures AllEnd(CompileRaw(t, d))
  {
    var code := CompileRaw(t, d);
    var c := RawHere(t, d);
    var w := c.Words(t, false, NoTest, FULL);
    var ar := Area(0, |code|, iset x | Ends(code, x));
    EndsHere(code, |w|);
    CallsNone(t, d, 0);
    BlockFine(c, t, false, NoTest, FULL, ar, 0);
    forall x: int ensures Ends(code, x) {
      if 0 <= x < |w| {
        assert Fine(code, ar, x);
      } else {
        EndsHere(code, x);
      }
    }
  }

  /** In the code of a pattern every chain of jumps ends exactly if none of its coded grammars has a rule that comes
      back to itself by jumps. */
  lemma CompiledEndsIff(t: Tree, d: nat)
    requires WellFormed([], d, t)
    ensures AllEnd(CompileRaw(t, d)) <==> JumpFree([], d, t)
  {
    if JumpFree([], d, t) { CompiledEnds(t, d); }
    if AllEnd(CompileRaw(t, d)) {
      var c := RawHere(t, d);
      BlockFree(c, t, false, NoTest, FULL, 0);
    }
  }

  lemma {:induction false} CallsNone(t: Tree, d: nat, n: nat)
    requires WellFormed([], d, t)
    ensures CallsIn(t, n) == {}
    decreases t
  {
    match t
    case Rep(p) => CallsNone(p, d, n);
    case Not(p) => CallsNone(p, d, n);
    case And(p) => CallsNone(p, d, n);
    case Capture(p) => CallsNone(p, d, n);
    case Behind(_, p) => CallsNone(p, d, n);
    case Seq(p, q) =>
      CallsNone(p, d, n);
      CallsNone(q, d, n);
    case Choice(p, q) =>
      CallsNone(p, d, n);
      CallsNone(q, d, n);
    case _ =>
  }

  // ---------- patterns that passed their checks ----------

  /** The chain from the entry of a used rule ends: otherwise matching the rule on the
      empty subject would not end. */
  lemma EntryEnds(c: Ctx, t: Tree, r: nat)
    requires t.Grammar? && c.g == t.rules && Loaded(c) && r < |c.g| && Used(c.g, r) && Clean([], t, c.d)
    ensures Ends(c.code, c.pos[r])
  {
    var c' := c.(s := []);
    assert Loaded(c') by {
      forall q | 0 <= q < |c.g|
        ensures WellFormed(c'.g, c'.d, c'.g[q])
        ensures c'.Here(c'.pos[q], c'.Words(c'.g[q], false, NoTest, FULL) + [IRet])
      {
        assert c.Here(c.pos[q], c.Words(c.g[q], false, NoTest, FULL) + [IRet]);
      }
    }
    RuleCallsUsed(c.g, c.d, r);
    var n := Total(c.g, c.g[r], c.d, [], 0, MAXRULES + 1, false, t);
    var m := c'.Sem(c.g[r], 0, n);
    var k := if m.Ok? then Push(Return(GIVEUP), Base) else Push(Back(GIVEUP, 0), Base);
    var j := if m.Ok? then m.pos else 0;
    assert RunFor(c.code, [], Done(GaveUp), 0) == Done(GaveUp);
    Back1(c', Run(GIVEUP, j, Base), GaveUp);
    if m.Fail? { FailBack(c', GIVEUP, 0, Base, GaveUp); }
    SimRule(c', r, 0, k, n, GaveUp);
    var z: nat :| RunFor(c.code, [], Run(c.pos[r], 0, k), z) == Done(GaveUp);
    HaltsEnds(c.code, [], c.pos[r], 0, k, z, GaveUp);
  }

  /** The rules of a grammar that passed its check never come back to themselves by jumps. */
  lemma CleanSettles(t: Tree, d: nat, r: nat)
    requires t.Grammar? && WellFormed([], d, t) && Clean([], t, d) && r < |t.rules| && Used(t.rules, r)
    ensures Settles(t.rules, d, r, |t.rules|)
  {
    var cc := CorrectCalls(RawGrammar(t, d), t, d, 4);
    var c := Ctx(cc, [], [], d, []);
    GoodGrammar(t, d, 0);
    forall y: nat | y < |cc| ensures FitsAt(cc, 0, cc, y, []) {
      assert !cc[y].IOpenCall?;
    }
    InnerLoaded(c, t, 0);
    EntryEnds(Inner(c, t, 0), t, r);
    EmbedsAt(cc, 0, cc, []);
    EndingSettles(cc, 0, t, d, r);
  }

  lemma {:induction false} CourseCalls(g: seq<Tree>, d: nat, t: Tree)
    requires CourseOf(g, d, t).Enter? && CourseOf(g, d, t).rule < |g|
    ensures CourseOf(g, d, t).rule in CallsIn(t, |g|)
    decreases t
  {
    match t
    case Seq(p, q) => if CourseOf(g, d, p).Enter? { CourseCalls(g, d, p); } else { CourseCalls(g, d, q); }
    case Choice(p, q) => CourseCalls(g, d, q);
    case And(p) => CourseCalls(g, d, p);
    case Capture(p) => CourseCalls(g, d, p);
    case Behind(_, p) => CourseCalls(g, d, p);
    case _ =>
  }

  /** Whatever is called is used, so an unused rule settles, too. */
  lemma CleanNoLoop(t: Tree, d: nat)
    requires t.Grammar? && WellFormed([], d, t) && Clean([], t, d)
    ensures NoLoop(t.rules, d)
  {
    RulesRanged(t, d);
    forall r: nat | r < |t.rules| ensures Settles(t.rules, d, r, |t.rules|) {
      if TurnsInto(t.rules, d, r) {
        var q := CourseOf(t.rules, d, t.rules[r]).rule;
        CourseCalls(t.rules, d, t.rules[r]);
        assert Used(t.rules, q);
        CleanSettles(t, d, q);
        SettlesStep(t.rules, d, r, |t.rules| + 1);
        SettlesSoon(t.rules, d, r, |t.rules| + 1);
      } else {
        SettlesStep(t.rules, d, r, |t.rules|);
      }
    }
  }

  /** So `compile` returns for every pattern whose grammars passed their checks without losing the flag. */
  lemma {:induction false} TidyJumpFree(g: seq<Tree>, t: Tree, d: nat)
    requires WellFormed(g, d, t) && Tidy(t, d)
    ensures JumpFree(g, d, t)
    decreases t
  {
    match t
    case Rep(p) => TidyJumpFree(g, p, d);
    case Not(p) => TidyJumpFree(g, p, d);
    case And(p) => TidyJumpFree(g, p, d);
    case Capture(p) => TidyJumpFree(g, p, d);
    case Behind(_, p) => TidyJumpFree(g, p, d);
    case Seq(p, q) =>
      TidyJumpFree(g, p, d);
      TidyJumpFree(g, q, d);
    case Choice(p, q) =>
      TidyJumpFree(g, p, d);
      TidyJumpFree(g, q, d);
    case Grammar(rs) =>
      assert WellFormed([], d, t);
      CleanNoLoop(t, d);
      forall k | 0 <= k < |rs| ensures JumpFree(rs, d, rs[k]) { TidyJumpFree(rs, rs[k], d); }
    case _ =>
  }
}
