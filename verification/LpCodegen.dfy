/** Code generation of lpcode.c as a function from trees to words. */
module LpCodegen {
  import opened Peg
  import opened LpAnalysis
  import opened LpVm

  const MAXBEHIND := 255
  const MAXOFF := 15
  const MAXRULES := 250

  datatype CharsetKind = EmptySet | OneChar(c: Byte) | FullSet | PlainSet

  /** `charsettype` */
  function CharsetType(cs: Charset): (r: CharsetKind)
    ensures r.EmptySet? <==> cs == {}
    ensures r.OneChar? ==> cs == {r.c}
    ensures r.FullSet? ==> cs == FULL
  {
    if cs == {} then EmptySet
    else if cs == FULL then FullSet
    else if |cs| == 1 then
      OneElement(cs);
      var c :| c in cs && cs == {c};
      OneChar(c)
    else PlainSet
  }

  lemma OneElement(cs: Charset)
    requires |cs| == 1
    ensures exists c :: c in cs && cs == {c}
  {
    var c :| c in cs;
    assert |cs - {c}| == 0;
    assert cs == {c};
  }

  /** The test instruction `codetestset` leaves before some code (`NoTest` is NOINST). */
  datatype Test = NoTest | TestJmp | TestAny | TestChar(c: Byte) | TestSet(cs: Charset)

  function TestFor(cs: Charset, e: bool): Test {
    if e then NoTest else
    match CharsetType(cs)
    case EmptySet => TestJmp
    case FullSet => TestAny
    case OneChar(c) => TestChar(c)
    case PlainSet => TestSet(cs)
  }

  predicate Passes(test: Test, s: Subject, i: nat) {
    match test
    case NoTest => true
    case TestJmp => false
    case TestAny => i < |s|
    case TestChar(c) => Has(s, i, {c})
    case TestSet(cs) => Has(s, i, cs)
  }

  function Buffer(cs: Charset): (r: Code)
    ensures |r| == CHARSETINSTSIZE - 1 && r[0] == Buf(cs)
  {
    [Buf(cs), Pad, Pad, Pad, Pad, Pad, Pad, Pad]
  }

  function TestSize(test: Test): nat {
    match test
    case NoTest => 0
    case TestSet(_) => CHARSETINSTSIZE + 1
    case _ => 2
  }

  function TestCode(test: Test, offset: int): (r: Code)
    ensures |r| == TestSize(test)
  {
    match test
    case NoTest => []
    case TestJmp => [IJmp, Off(offset)]
    case TestAny => [ITestAny, Off(offset)]
    case TestChar(c) => [ITestChar(c), Off(offset)]
    case TestSet(cs) => [ITestSet, Off(offset)] + Buffer(cs)
  }

  /** `codechar` */
  function CodeChar(c: Byte, tt: Test): Code {
    if tt == TestChar(c) then [IAny] else [IChar(c)]
  }

  /** `codecharset` */
  function CodeCharset(cs: Charset, tt: Test): Code {
    match CharsetType(cs)
    case OneChar(c) => CodeChar(c, tt)
    case PlainSet => if tt == TestSet(cs) then [IAny] else [ISet] + Buffer(cs)
    case EmptySet => [IFail]
    case FullSet => [IAny]
  }

  /** Do `codechoice` and `coderep` drop the backtrack entry? */
  predicate SkipsChoice(g: seq<Tree>, d: nat, p: Tree, next: Charset) {
    var f := GetFirst(g, p, FULL, d);
    HeadFail(g, p, d) || (!f.e && f.cs !! next)
  }

  /** Is the fixed length `n` of a body small enough for a single instruction, and the
      body without captures? */
  predicate ShortBody(g: seq<Tree>, d: nat, p: Tree, max: nat) {
    0 <= FixedLen(g, p, d) <= max && !HasCaptures(g, p, d)
  }

  function BehindCode(n: int): Code {
    if n > 0 then [IBehind(n)] else []
  }

  // ---------- code templates ----------

  /** `test L1; p; jmp L2; L1: q; L2:`, without the jump if `q` is empty. */
  function TestedChoice(test: Test, c1: Code, c2: Code, empty2: bool): Code {
    var jmp := if empty2 then [] else [IJmp, Off(2 + |c2|)];
    TestCode(test, TestSize(test) + |c1| + |jmp|) + c1 + jmp + c2
  }

  /** `test L1; choice L1; p; commit L2; L1: q; L2:` */
  function FullChoice(test: Test, c1: Code, c2: Code): Code {
    TestCode(test, TestSize(test) + 2 + |c1| + 2)
    + [IChoice, Off(2 + |c1| + 2)] + c1 + [ICommit, Off(2 + |c2|)] + c2
  }

  /** `partialcommit L1; L1: p` */
  function Optional(c: Code): Code {
    [IPartialCommit, Off(2)] + c
  }

  /** `L1: test L2; p; jmp L1; L2:` */
  function TestedLoop(test: Test, c: Code): Code {
    TestCode(test, TestSize(test) + |c| + 2) + c + [IJmp, Off(-(TestSize(test) + |c|))]
  }

  /** `test L2; choice L2; L1: p; partialcommit L1; L2:`, or, inside an optional pattern,
      with a partial commit instead of the choice. */
  function FullLoop(test: Test, c: Code, opt: bool): Code {
    TestCode(test, TestSize(test) + 2 + |c| + 2)
    + (if opt then [IPartialCommit, Off(2)] else [IChoice, Off(2 + |c| + 2)])
    + c + [IPartialCommit, Off(-|c|)]
  }

  /** `test L1; fail; L1:` */
  function TestedNot(test: Test): Code {
    TestCode(test, TestSize(test) + 1) + [IFail]
  }

  /** `test L1; choice L1; p; failtwice; L1:` */
  function FullNot(test: Test, c: Code): Code {
    TestCode(test, TestSize(test) + 2 + |c| + 1) + [IChoice, Off(2 + |c| + 1)] + c + [IFailTwice]
  }

  /** `choice L1; p; backcommit L2; L1: fail; L2:` */
  function FullAnd(c: Code): Code {
    [IChoice, Off(2 + |c| + 2)] + c + [IBackCommit, Off(3)] + [IFail]
  }

  // ---------- code generation ----------

  /** Follow set `codeseq1` gives to the first part of a sequence. */
  function FollowOfFirst(g: seq<Tree>, d: nat, p: Tree, q: Tree, fl: Charset): Charset {
    if NeedFollow(p) then GetFirst(g, q, fl, d).cs else FULL
  }

  /** Test that still protects the second part of a sequence. */
  function TestAfter(g: seq<Tree>, d: nat, p: Tree, tt: Test): Test {
    if FixedLen(g, p, d) != 0 then NoTest else tt
  }

  /** The test before a pattern that must not be skipped at the end of the subject. */
  function Guard(g: seq<Tree>, d: nat, p: Tree): Test {
    TestFor(GetFirst(g, p, FULL, d).cs, GetFirst(g, p, FULL, d).e)
  }

  /** The test that replaces a backtrack entry. */
  function HardGuard(g: seq<Tree>, d: nat, p: Tree): Test {
    TestFor(GetFirst(g, p, FULL, d).cs, false)
  }

  /** `codegen`: `opt` says the code is the last thing inside an optional pattern, `tt` is
      the test that protects it, `fl` the follow set. */
  function Gen(g: seq<Tree>, d: nat, t: Tree, opt: bool, tt: Test, fl: Charset): Code
    decreases t, d, 5
  {
    match t
    case Char(c) => CodeChar(c, tt)
    case Any => [IAny]
    case Set(cs) => CodeCharset(cs, tt)
    case True => []
    case False => [IFail]
    case Choice(_, _) => GenChoice(g, d, t, opt, fl)
    case Rep(_) => GenRep(g, d, t, opt, fl)
    case Behind(n, p) => BehindCode(n) + Gen(g, d, p, false, NoTest, FULL)
    case Not(_) => GenNot(g, d, t)
    case And(_) => GenAnd(g, d, t, tt)
    case Capture(_) => GenCapture(g, d, t, tt, fl)
    case Grammar(_) => CorrectCalls(RawGrammar(t, d), t, d, 4)
    case Call(r) => [IOpenCall(r), Hole]
    case Seq(_, _) => GenSeq(g, d, t, opt, tt, fl)
  }

  /** `codechoice` */
  function GenChoice(g: seq<Tree>, d: nat, t: Tree, opt: bool, fl: Charset): Code
    requires t.Choice?
    decreases t, d, 4
  {
    var p, q := t.p1, t.p2;
    if SkipsChoice(g, d, p, GetFirst(g, q, fl, d).cs) then
      var test := HardGuard(g, d, p);
      TestedChoice(test, Gen(g, d, p, false, test, fl), Gen(g, d, q, opt, NoTest, fl), q.True?)
    else if opt && q.True? then Optional(Gen(g, d, p, true, NoTest, FULL))
    else
      var test := Guard(g, d, p);
      FullChoice(test, Gen(g, d, p, q.True?, test, FULL), Gen(g, d, q, opt, NoTest, fl))
  }

  /** `coderep` */
  function GenRep(g: seq<Tree>, d: nat, t: Tree, opt: bool, fl: Charset): Code
    requires t.Rep?
    decreases t, d, 4
  {
    var p := t.body;
    if ToCharset(p).0 then [ISpan] + Buffer(ToCharset(p).1)
    else if SkipsChoice(g, d, p, fl) then
      var test := HardGuard(g, d, p);
      TestedLoop(test, Gen(g, d, p, false, test, FULL))
    else FullLoop(Guard(g, d, p), Gen(g, d, p, false, NoTest, FULL), opt)
  }

  /** `codenot` */
  function GenNot(g: seq<Tree>, d: nat, t: Tree): Code
    requires t.Not?
    decreases t, d, 4
  {
    var p := t.body;
    if HeadFail(g, p, d) then TestedNot(Guard(g, d, p))
    else FullNot(Guard(g, d, p), Gen(g, d, p, false, NoTest, FULL))
  }

  /** `codeand` */
  function GenAnd(g: seq<Tree>, d: nat, t: Tree, tt: Test): Code
    requires t.And?
    decreases t, d, 4
  {
    var c := Gen(g, d, t.body, false, tt, FULL);
    if ShortBody(g, d, t.body, MAXBEHIND) then c + BehindCode(FixedLen(g, t.body, d)) else FullAnd(c)
  }

  /** `codecapture` */
  function GenCapture(g: seq<Tree>, d: nat, t: Tree, tt: Test, fl: Charset): Code
    requires t.Capture?
    decreases t, d, 4
  {
    var c := Gen(g, d, t.body, false, tt, fl);
    if ShortBody(g, d, t.body, MAXOFF) then c + [IFullCapture(FixedLen(g, t.body, d))]
    else [IOpenCapture] + c + [ICloseCapture]
  }

  /** `codeseq1` and the second part of a sequence */
  function GenSeq(g: seq<Tree>, d: nat, t: Tree, opt: bool, tt: Test, fl: Charset): Code
    requires t.Seq?
    decreases t, d, 4
  {
    Gen(g, d, t.p1, false, tt, FollowOfFirst(g, d, t.p1, t.p2, fl)) + Gen(g, d, t.p2, opt, TestAfter(g, d, t.p1, tt), fl)
  }

  /** The code of a pattern is that of its case. */
  lemma GenCase(g: seq<Tree>, d: nat, t: Tree, opt: bool, tt: Test, fl: Charset)
    ensures t.Choice? ==> Gen(g, d, t, opt, tt, fl) == GenChoice(g, d, t, opt, fl)
    ensures t.Rep? ==> Gen(g, d, t, opt, tt, fl) == GenRep(g, d, t, opt, fl)
    ensures t.Not? ==> Gen(g, d, t, opt, tt, fl) == GenNot(g, d, t)
    ensures t.And? ==> Gen(g, d, t, opt, tt, fl) == GenAnd(g, d, t, tt)
    ensures t.Capture? ==> Gen(g, d, t, opt, tt, fl) == GenCapture(g, d, t, tt, fl)
    ensures t.Seq? ==> Gen(g, d, t, opt, tt, fl) == GenSeq(g, d, t, opt, tt, fl)
  {
  }

  // ---------- grammars ----------

  /** Code of rule `r` of grammar `t`. */
  function RuleCode(t: Tree, d: nat, r: nat): Code
    requires t.Grammar? && r < |t.rules|
    decreases t, d, 0
  {
    Gen(t.rules, d, t.rules[r], false, NoTest, FULL)
  }

  /** Code of the rules from `k` on, each closed by a return. */
  function GenRules(t: Tree, d: nat, k: nat): Code
    requires t.Grammar? && k <= |t.rules|
    decreases t, d, 1, |t.rules| - k
  {
    if k == |t.rules| then [] else RuleCode(t, d, k) + [IRet] + GenRules(t, d, k + 1)
  }

  /** `call L1; jmp L2; L1:` */
  function GrammarHead(t: Tree, d: nat): (r: Code)
    requires t.Grammar?
    ensures |r| == 4
    decreases t, d, 2
  {
    [ICall, Off(4), IJmp, Off(2 + |GenRules(t, d, 0)|)]
  }

  /** The grammar's code with its calls still open. */
  function RawGrammar(t: Tree, d: nat): (r: Code)
    requires t.Grammar?
    ensures |r| == 4 + |GenRules(t, d, 0)|
    decreases t, d, 3
  {
    GrammarHead(t, d) + GenRules(t, d, 0)
  }

  /** Where the code of rule `r` starts, relative to the grammar's code. */
  function RulePos(t: Tree, d: nat, r: nat): nat
    requires t.Grammar? && r <= |t.rules|
    decreases t, d, 2, r
  {
    if r == 0 then 4 else RulePos(t, d, r - 1) + |RuleCode(t, d, r - 1)| + 1
  }

  /** `finaltarget`, following at most `fuel` jumps. */
  function FinalTarget(code: Code, i: int, fuel: nat): int
    decreases fuel
  {
    if fuel > 0 && 0 <= i < |code| && code[i] == IJmp && HasLabel(code, i)
    then FinalTarget(code, Label(code, i), fuel - 1) else i
  }

  predicate LandsOn(code: Code, i: int, w: Word) {
    var j := FinalTarget(code, i, |code|);
    0 <= j < |code| && code[j] == w
  }

  /** One round of `correctcalls`: close the open call at `i`, as a tail call if a return
      follows. */
  function CloseCall(code: Code, i: nat, target: int): Code
    requires i + 1 < |code|
  {
    code[i := if LandsOn(code, i + 2, IRet) then IJmp else ICall][i + 1 := Off(target - i)]
  }

  /** `correctcalls` from instruction `i` on. */
  function CorrectCalls(code: Code, t: Tree, d: nat, i: nat): (r: Code)
    requires t.Grammar?
    decreases t, d, 3, |code| - i
  {
    if i >= |code| then code
    else if code[i].IOpenCall? && i + 1 < |code| && code[i].key < |t.rules| then
      var code' := CloseCall(code, i, RulePos(t, d, code[i].key));
      CorrectCalls(code', t, d, i + 2)
    else CorrectCalls(code, t, d, i + SizeI(code[i]))
  }

  /** `compile` without the peephole pass. */
  function CompileRaw(t: Tree, d: nat): Code {
    Gen([], d, t, false, NoTest, FULL) + [IEnd]
  }
}
