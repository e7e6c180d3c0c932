/** The peephole pass of lpcode.c and its stuttering simulation: rewriting an instruction
    never changes the answer of a machine run. */
module LpPeephole {
  import opened Peg
  import opened LpVm
  import opened LpCodegen

  predicate Labelled(w: Word) {
    w.IChoice? || w.ICall? || w.ICommit? || w.IPartialCommit? || w.IBackCommit?
    || w.ITestChar? || w.ITestSet? || w.ITestAny?
  }

  /** Instructions with unconditional implicit jumps. */
  predicate Final(w: Word) { w.IRet? || w.IFail? || w.IFailTwice? || w.IEnd? }

  /** Instructions with unconditional explicit jumps. */
  predicate Leaving(w: Word) { w.ICommit? || w.IPartialCommit? || w.IBackCommit? }

  function SetLabel(code: Code, i: nat, l: int): Code
    requires i + 1 < |code|
  {
    code[i + 1 := Off(l - i)]
  }

  /** `finallabel` */
  function FinalLabel(code: Code, i: nat): int
    requires HasLabel(code, i)
  {
    FinalTarget(code, Label(code, i), |code|)
  }

  /** The first visit of `peephole` to the instruction at `i`. */
  function PeepFirst(code: Code, i: nat): (r: Code)
    requires i < |code|
    ensures |r| == |code|
  {
    if !HasLabel(code, i) then code
    else if Labelled(code[i]) then SetLabel(code, i, FinalLabel(code, i))
    else if code[i] == IJmp then
      var ft := FinalTarget(code, i, |code|);
      if !(0 <= ft < |code|) then SetLabel(code, i, ft)
      else if Final(code[ft]) then code[i := code[ft]][i + 1 := IAny]
      else if Leaving(code[ft]) && HasLabel(code, ft) then SetLabel(code[i := code[ft]], i, FinalLabel(code, ft))
      else SetLabel(code, i, ft)
    else code
  }

  /** One round of `peephole` on the instruction at `i`: a jump that became a commit is
      visited again. */
  function PeepAt(code: Code, i: nat): (r: Code)
    requires i < |code|
    ensures |r| == |code|
  {
    var code1 := PeepFirst(code, i);
    if code[i] == IJmp && Leaving(code1[i]) then PeepFirst(code1, i) else code1
  }

  function PeepFrom(code: Code, i: nat): (r: Code)
    ensures |r| == |code|
    decreases |code| - i
  {
    if i >= |code| then code
    else
      var code' := PeepAt(code, i);
      PeepFrom(code', i + SizeI(code'[i]))
  }

  function Peephole(code: Code): Code { PeepFrom(code, 0) }

  lemma {:induction false} PeepFromStep(code: Code, i: nat)
    requires i < |code|
    ensures PeepFrom(code, i) == PeepFrom(PeepAt(code, i), i + SizeI(PeepAt(code, i)[i]))
  {
  }

  // ---------- one rewrite ----------

  /** From `x`, jumps of `code` lead to `y`. */
  ghost predicate Leads(code: Code, x: int, y: int) {
    exists f: nat :: FinalTarget(code, x, f) == y
  }

  /** The jump at `i` becomes the instruction at `ft` that it leads to. */
  ghost predicate Becomes(code: Code, code2: Code, i: nat, ft: int)
    requires i < |code2|
  {
    && 0 <= ft < |code| && Leads(code, i, ft) && code2[i] == code[ft]
    && (Final(code[ft]) ||
        (Leaving(code[ft]) && HasLabel(code, ft) && HasLabel(code2, i) && Leads(code, Label(code, ft), Label(code2, i))))
  }

  /** `code2` is `code` with the instruction at `i` relabelled or replaced. */
  ghost predicate Rewrites(code: Code, code2: Code, i: nat) {
    && |code2| == |code| && HasLabel(code, i)
    && (forall x :: 0 <= x < |code| && x != i && x != i + 1 ==> code2[x] == code[x])
    && (Labelled(code[i]) || code[i] == IJmp) && code2[i + 1] != IJmp
    && (|| (code2[i] == code[i] && HasLabel(code2, i) && Leads(code, Label(code, i), Label(code2, i)))
        || (code[i] == IJmp && exists ft :: Becomes(code, code2, i, ft)))
  }

  /** Stacks that differ only by addresses further along jumps. */
  ghost predicate RelStack(code: Code, k: Stack, k': Stack) {
    match k
    case Base => k'.Base?
    case Push(e, rest) =>
      && k'.Push? && RelStack(code, rest, k'.rest)
      && (match e
          case Back(p, i) => k'.top.Back? && k'.top.s == i && Leads(code, p, k'.top.p)
          case Return(p) => k'.top.Return? && Leads(code, p, k'.top.p))
  }

  ghost predicate RelState(code: Code, st: State, st': State) {
    match st
    case Run(p, i, k) => st'.Run? && st'.s == i && RelStack(code, k, st'.k) && Leads(code, p, st'.p)
    case Failing(k) => st'.Failing? && RelStack(code, k, st'.k)
    case Done(_) => st' == st
    case Stuck => true
  }

  lemma LeadsSelf(code: Code, x: int)
    ensures Leads(code, x, x)
  {
    assert FinalTarget(code, x, 0) == x;
  }

  lemma {:induction false} RelStackSelf(code: Code, k: Stack)
    ensures RelStack(code, k, k)
    decreases k
  {
    if k.Push? {
      RelStackSelf(code, k.rest);
      LeadsSelf(code, k.top.p);
    }
  }

  /** Equal instructions with equal operands make related steps. */
  lemma StepSame(code: Code, code2: Code, s: Subject, p: nat, j: nat, k: Stack, k': Stack)
    requires p < |code| && p < |code2| && code2[p] == code[p] && RelStack(code, k, k')
    requires HasLabel(code, p) ==> HasLabel(code2, p) && Label(code2, p) == Label(code, p)
    requires forall x :: p < x <= p + 2 && HasSet(code, x) ==> HasSet(code2, x) && code2[x].cs == code[x].cs
    ensures RelState(code, Exec(code, s, p, j, k), Exec(code2, s, p, j, k'))
  {
    LeadsSelf(code, p + 1);
    LeadsSelf(code, p + 2);
    LeadsSelf(code, p + CHARSETINSTSIZE);
    LeadsSelf(code, p + 1 + CHARSETINSTSIZE);
    if HasLabel(code, p) { LeadsSelf(code, Label(code, p)); }
    assert HasSet(code, p + 1) ==> HasSet(code2, p + 1);
    assert HasSet(code, p + 2) ==> HasSet(code2, p + 2);
  }

  /** An instruction that is not rewritten, at equal addresses, makes related steps. */
  lemma StepElsewhere(code: Code, code2: Code, i: nat, s: Subject, p: int, j: nat, k: Stack, k': Stack)
    requires Rewrites(code, code2, i) && p != i && RelStack(code, k, k')
    ensures RelState(code, Step(code, s, Run(p, j, k)), Step(code2, s, Run(p, j, k')))
  {
    if p == i + 1 {
      assert code[p].Off?;
      assert Step(code, s, Run(p, j, k)) == Stuck;
    } else if 0 <= p < |code| {
      StepSame(code, code2, s, p, j, k, k');
    }
  }

  /** The rewritten instruction, kept but relabelled, makes a related step. */
  lemma StepRelabelled(code: Code, code2: Code, i: nat, s: Subject, j: nat, k: Stack, k': Stack)
    requires Rewrites(code, code2, i) && RelStack(code, k, k')
    requires code2[i] == code[i] && HasLabel(code2, i) && Leads(code, Label(code, i), Label(code2, i))
    ensures RelState(code, Step(code, s, Run(i, j, k)), Step(code2, s, Run(i, j, k')))
  {
    LeadsSelf(code, i + 2);
    LeadsSelf(code, i + 1 + CHARSETINSTSIZE);
    if HasSet(code, i + 2) { assert code2[i + 2] == code[i + 2]; }
    if HasSet(code2, i + 2) { assert code2[i + 2] == code[i + 2]; }
  }

  /** A jump that became the instruction it leads to makes that instruction's step. */
  lemma StepReplaced(code: Code, code2: Code, i: nat, ft: nat, s: Subject, j: nat, k: Stack, k': Stack)
    requires Rewrites(code, code2, i) && RelStack(code, k, k')
    requires ft < |code| && code2[i] == code[ft]
    requires Final(code[ft]) ||
      (Leaving(code[ft]) && HasLabel(code, ft) && HasLabel(code2, i) && Leads(code, Label(code, ft), Label(code2, i)))
    ensures RelState(code, Step(code, s, Run(ft, j, k)), Step(code2, s, Run(i, j, k')))
  {
  }

  /** The run along a chain of jumps. */
  lemma {:induction false} RunChain(code: Code, s: Subject, p: int, j: nat, k: Stack, f: nat, n: nat, a: Answer) returns (m: nat)
    requires RunFor(code, s, Run(p, j, k), n) == Done(a)
    ensures m <= n && RunFor(code, s, Run(FinalTarget(code, p, f), j, k), m) == Done(a)
    decreases f
  {
    if f > 0 && 0 <= p < |code| && code[p] == IJmp && HasLabel(code, p) {
      m := RunChain(code, s, Label(code, p), j, k, f - 1, n - 1, a);
    } else {
      m := n;
    }
  }

  lemma StuckForever(code: Code, s: Subject, n: nat)
    ensures RunFor(code, s, Stuck, n) == Stuck
    decreases n
  {
    if n > 0 { StuckForever(code, s, n - 1); }
  }

  /** Stuttering simulation: a run of `code` that stops is matched by a run of `code2`. */
  lemma {:induction false} Simulates(code: Code, code2: Code, i: nat, s: Subject, st: State, st': State, n: nat, a: Answer)
    requires Rewrites(code, code2, i) && RelState(code, st, st') && RunFor(code, s, st, n) == Done(a)
    ensures Halts(code2, s, st', a)
    decreases n
  {
    if n == 0 {
      assert RunFor(code2, s, st', 0) == Done(a);
    } else {
      match st
      case Stuck => StuckForever(code, s, n);
      case Done(b) =>
        RunForDone(code, s, b, n);
        assert RunFor(code2, s, st', 0) == Done(a);
      case Failing(k) =>
        Simulates(code, code2, i, s, Step(code, s, st), Step(code2, s, st'), n - 1, a);
        HaltsBack(code2, s, st', a);
      case Run(p, j, k) =>
        if st'.p != p {
          var f: nat :| FinalTarget(code, p, f) == st'.p;
          assert FinalTarget(code, Label(code, p), f - 1) == st'.p;
          Simulates(code, code2, i, s, Step(code, s, st), st', n - 1, a);
        } else {
          SimulatesHere(code, code2, i, s, p, j, k, st'.k, n, a);
        }
    }
  }

  lemma {:induction false} SimulatesHere(code: Code, code2: Code, i: nat, s: Subject, p: int, j: nat, k: Stack, k': Stack, n: nat, a: Answer)
    requires Rewrites(code, code2, i) && RelStack(code, k, k') && n > 0 && RunFor(code, s, Run(p, j, k), n) == Done(a)
    ensures Halts(code2, s, Run(p, j, k'), a)
    decreases n, 0
  {
    var st, st' := Run(p, j, k), Run(p, j, k');
    if p != i {
      StepElsewhere(code, code2, i, s, p, j, k, k');
      Simulates(code, code2, i, s, Step(code, s, st), Step(code2, s, st'), n - 1, a);
    } else if code2[i] == code[i] && HasLabel(code2, i) && Leads(code, Label(code, i), Label(code2, i)) {
      StepRelabelled(code, code2, i, s, j, k, k');
      Simulates(code, code2, i, s, Step(code, s, st), Step(code2, s, st'), n - 1, a);
    } else {
      var ft :| Becomes(code, code2, i, ft);
      var f: nat :| FinalTarget(code, i, f) == ft;
      var m := RunChain(code, s, i, j, k, f, n, a);
      StepReplaced(code, code2, i, ft, s, j, k, k');
      Simulates(code, code2, i, s, Step(code, s, Run(ft, j, k)), Step(code2, s, st'), m - 1, a);
    }
    HaltsBack(code2, s, st', a);
  }

  /** One rewrite keeps the answer of every run. */
  lemma RewriteKeeps(code: Code, code2: Code, i: nat, s: Subject, st: State, a: Answer)
    requires Rewrites(code, code2, i) && Halts(code, s, st, a)
    ensures Halts(code2, s, st, a)
  {
    var n: nat :| RunFor(code, s, st, n) == Done(a);
    match st {
      case Run(p, _, k) =>
        RelStackSelf(code, k);
        LeadsSelf(code, p);
      case Failing(k) => RelStackSelf(code, k);
      case _ =>
    }
    Simulates(code, code2, i, s, st, st, n, a);
  }

  // ---------- the pass ----------

  lemma PeepFirstRewrites(code: Code, i: nat)
    requires i < |code|
    ensures PeepFirst(code, i) == code || Rewrites(code, PeepFirst(code, i), i)
  {
    if HasLabel(code, i) && (Labelled(code[i]) || code[i] == IJmp) {
      var code2 := PeepFirst(code, i);
      var ft := FinalTarget(code, i, |code|);
      if Labelled(code[i]) {
        assert Label(code2, i) == FinalLabel(code, i);
      } else if 0 <= ft < |code| && (Final(code[ft]) || (Leaving(code[ft]) && HasLabel(code, ft))) {
        if Leaving(code[ft]) { assert Label(code2, i) == FinalLabel(code, ft); }
        assert Becomes(code, code2, i, ft);
      } else {
        assert Label(code2, i) == ft;
        assert FinalTarget(code, Label(code, i), |code| - 1) == ft;
      }
    }
  }

  lemma PeepAtKeeps(code: Code, i: nat, s: Subject, st: State, a: Answer)
    requires i < |code| && Halts(code, s, st, a)
    ensures Halts(PeepAt(code, i), s, st, a)
  {
    var code1 := PeepFirst(code, i);
    PeepFirstRewrites(code, i);
    if code1 != code { RewriteKeeps(code, code1, i, s, st, a); }
    if PeepAt(code, i) != code1 {
      PeepFirstRewrites(code1, i);
      RewriteKeeps(code1, PeepAt(code, i), i, s, st, a);
    }
  }

  lemma {:induction false} PeepFromKeeps(code: Code, i: nat, s: Subject, st: State, a: Answer)
    requires Halts(code, s, st, a)
    ensures Halts(PeepFrom(code, i), s, st, a)
    decreases |code| - i
  {
    if i < |code| {
      PeepAtKeeps(code, i, s, st, a);
      var code' := PeepAt(code, i);
      PeepFromKeeps(code', i + SizeI(code'[i]), s, st, a);
    }
  }
}
