/** The opcode interpreter `match` of lpvm.c as a loop over instruction pointer, subject
    position and stack. */
module LpMatch {
  import opened Peg
  import opened LpVm
  import opened LpCodegen
  import opened LpPeephole

  /** A run that stops is not stuck after its next step. */
  lemma NotStuck(code: Code, s: Subject, st: State, n: nat, a: Answer)
    requires RunFor(code, s, st, n) == Done(a) && !st.Done?
    ensures n > 0 && Step(code, s, st) != Stuck && RunFor(code, s, Step(code, s, st), n - 1) == Done(a)
  {
    if Step(code, s, st) == Stuck { StuckForever(code, s, n - 1); }
  }

  /** The loop of `ISpan`. */
  method Span(s: Subject, i: nat, cs: Charset) returns (j: nat)
    ensures j == SpanEnd(s, i, cs)
  {
    j := i;
    while j < |s| && s[j] in cs
      invariant SpanEnd(s, j, cs) == SpanEnd(s, i, cs)
    {
      j := j + 1;
    }
  }

  /** Popping pending calls until a backtrack entry. */
  method Backtrack(code: Code, s: Subject, k0: Stack, ghost n0: nat, ghost a: Answer) returns (p: int, i: nat, k: Stack, ghost n: nat)
    requires RunFor(code, s, Failing(k0), n0) == Done(a)
    ensures n < n0 && RunFor(code, s, Run(p, i, k), n) == Done(a)
  {
    k, n := k0, n0;
    NotStuck(code, s, Failing(k), n, a);
    while k.top.Return?
      invariant k.Push? && 0 < n <= n0 && RunFor(code, s, Failing(k), n) == Done(a)
      decreases n
    {
      k, n := k.rest, n - 1;
      NotStuck(code, s, Failing(k), n, a);
    }
    p, i, k, n := k.top.p, k.top.s, k.rest, n - 1;
  }

  /** `match`: runs the machine on code that stops, and returns its answer. */
  method RunMachine(code: Code, s: Subject, start: nat) returns (a: Answer)
    requires exists b :: Halts(code, s, Start(start), b)
    ensures Halts(code, s, Start(start), a)
  {
    ghost var ans :| Halts(code, s, Start(start), ans);
    ghost var n: nat :| RunFor(code, s, Start(start), n) == Done(ans);
    var p: int, i: nat, k := 0, start, Push(Back(GIVEUP, start), Base);
    while true
      invariant RunFor(code, s, Run(p, i, k), n) == Done(ans)
      decreases n
    {
      NotStuck(code, s, Run(p, i, k), n, ans);
      ghost var next := Step(code, s, Run(p, i, k));
      if p == GIVEUP {
        RunForDone(code, s, GaveUp, n - 1);
        return GaveUp;
      }
      var fail := false;
      match code[p] {
        case IEnd =>
          RunForDone(code, s, Matched(i), n - 1);
          return Matched(i);
        case IRet => p, k := k.top.p, k.rest;
        case IAny => if i < |s| { p, i := p + 1, i + 1; } else { fail := true; }
        case ITestAny => if i < |s| { p := p + 2; } else { p := Label(code, p); }
        case IChar(c) => if i < |s| && s[i] == c { p, i := p + 1, i + 1; } else { fail := true; }
        case ITestChar(c) => if i < |s| && s[i] == c { p := p + 2; } else { p := Label(code, p); }
        case ISet =>
          if i < |s| && s[i] in code[p + 1].cs { p, i := p + CHARSETINSTSIZE, i + 1; } else { fail := true; }
        case ITestSet =>
          if i < |s| && s[i] in code[p + 2].cs { p := p + 1 + CHARSETINSTSIZE; } else { p := Label(code, p); }
        case IBehind(m) => if m > i { fail := true; } else { p, i := p + 1, i - m; }
        case ISpan =>
          i := Span(s, i, code[p + 1].cs);
          p := p + CHARSETINSTSIZE;
        case IJmp => p := Label(code, p);
        case IChoice => p, k := p + 2, Push(Back(Label(code, p), i), k);
        case ICall => p, k := Label(code, p), Push(Return(p + 2), k);
        case ICommit => p, k := Label(code, p), k.rest;
        case IPartialCommit => p, k := Label(code, p), Push(Back(k.top.p, i), k.rest);
        case IBackCommit => p, i, k := Label(code, p), k.top.s, k.rest;
        case IFailTwice => k, fail := k.rest, true;
        case IFail => fail := true;
        case _ => p := p + 1;  // captures
      }
      n := n - 1;
      if fail {
        assert next == Failing(k);
        p, i, k, n := Backtrack(code, s, k, n, ans);
      } else {
        assert next == Run(p, i, k);
      }
    }
  }
}
