/** The instruction words and the backtracking machine of lpvm.c.

    Code is word-addressed: an instruction with a label occupies two words, a charset
    nine (its 32-byte set fills eight words, modelled as one `Buf` and seven `Pad`).
    Labels are relative to the instruction that holds them.  An assertion of the
    machine that would not hold, or a word that is no instruction, leads to `Stuck`.
 */
module LpVm {
  import opened Peg

  datatype Word =
    | IAny
    | IChar(c: Byte)
    | ISet
    | ITestAny
    | ITestChar(c: Byte)
    | ITestSet
    | ISpan
    | IBehind(n: nat)
    | IRet
    | IEnd
    | IChoice
    | IJmp
    | ICall
    | IOpenCall(key: nat)
    | ICommit
    | IPartialCommit
    | IBackCommit
    | IFailTwice
    | IFail
    | IFullCapture(off: nat)
    | IOpenCapture
    | ICloseCapture
    | Off(delta: int)   // label of the preceding instruction
    | Buf(cs: Charset)  // first word of a charset
    | Pad               // the other words of a charset
    | Hole              // label of an open call, not yet known

  type Code = seq<Word>

  const CHARSETINSTSIZE := 9

  /** `sizei`; operand words count as one so that the function is total. */
  function SizeI(w: Word): (n: nat)
    ensures n > 0
  {
    match w
    case ISet => CHARSETINSTSIZE
    case ISpan => CHARSETINSTSIZE
    case ITestSet => CHARSETINSTSIZE + 1
    case ITestChar(_) => 2
    case ITestAny => 2
    case IChoice => 2
    case IJmp => 2
    case ICall => 2
    case IOpenCall(_) => 2
    case ICommit => 2
    case IPartialCommit => 2
    case IBackCommit => 2
    case _ => 1
  }

  datatype Entry =
    | Back(p: int, s: nat)  // backtrack entry: where to go on, from which position
    | Return(p: int)        // pending call (saved position is NULL)

  datatype Stack = Base | Push(top: Entry, rest: Stack)

  datatype Answer = Matched(pos: nat) | GaveUp

  datatype State =
    | Run(p: int, s: nat, k: Stack)
    | Failing(k: Stack)
    | Done(a: Answer)
    | Stuck

  /** Address of the `giveup` instruction, outside any code. */
  const GIVEUP: int := -1

  predicate HasLabel(code: Code, p: int) {
    0 <= p && p + 1 < |code| && code[p + 1].Off?
  }

  function Label(code: Code, p: int): int
    requires HasLabel(code, p)
  {
    p + code[p + 1].delta
  }

  predicate HasSet(code: Code, p: int) {
    0 <= p < |code| && code[p].Buf?
  }

  /** First position from `i` on that is not a character of `cs` (`ISpan`'s loop). */
  function SpanEnd(s: Subject, i: nat, cs: Charset): (j: nat)
    ensures j >= i
    decreases |s| - i
  {
    if Has(s, i, cs) then SpanEnd(s, i + 1, cs) else i
  }

  function TestStep(code: Code, p: int, i: nat, k: Stack, pass: bool, size: nat): State {
    if !HasLabel(code, p) then Stuck
    else Run(if pass then p + size else Label(code, p), i, k)
  }

  function Exec(code: Code, s: Subject, p: nat, i: nat, k: Stack): State
    requires p < |code|
  {
    match code[p]
    case IEnd => if k.Push? && k.rest.Base? then Done(Matched(i)) else Stuck
    case IRet => if k.Push? && k.top.Return? then Run(k.top.p, i, k.rest) else Stuck
    case IAny => if i < |s| then Run(p + 1, i + 1, k) else Failing(k)
    case IChar(c) => if Has(s, i, {c}) then Run(p + 1, i + 1, k) else Failing(k)
    case ISet =>
      if !HasSet(code, p + 1) then Stuck
      else if Has(s, i, code[p + 1].cs) then Run(p + CHARSETINSTSIZE, i + 1, k) else Failing(k)
    case ITestAny => TestStep(code, p, i, k, i < |s|, 2)
    case ITestChar(c) => TestStep(code, p, i, k, Has(s, i, {c}), 2)
    case ITestSet =>
      if !HasSet(code, p + 2) then Stuck
      else TestStep(code, p, i, k, Has(s, i, code[p + 2].cs), 1 + CHARSETINSTSIZE)
    case IBehind(n) => if n > i then Failing(k) else Run(p + 1, i - n, k)
    case ISpan =>
      if !HasSet(code, p + 1) then Stuck
      else Run(p + CHARSETINSTSIZE, SpanEnd(s, i, code[p + 1].cs), k)
    case IJmp => if HasLabel(code, p) then Run(Label(code, p), i, k) else Stuck
    case IChoice =>
      if HasLabel(code, p) then Run(p + 2, i, Push(Back(Label(code, p), i), k)) else Stuck
    case ICall =>
      if HasLabel(code, p) then Run(Label(code, p), i, Push(Return(p + 2), k)) else Stuck
    case ICommit =>
      if HasLabel(code, p) && k.Push? && k.top.Back? then Run(Label(code, p), i, k.rest) else Stuck
    case IPartialCommit =>
      if HasLabel(code, p) && k.Push? && k.top.Back?
      then Run(Label(code, p), i, Push(Back(k.top.p, i), k.rest)) else Stuck
    case IBackCommit =>
      if HasLabel(code, p) && k.Push? && k.top.Back? then Run(Label(code, p), k.top.s, k.rest) else Stuck
    case IFailTwice => if k.Push? then Failing(k.rest) else Stuck
    case IFail => Failing(k)
    case IFullCapture(_) => Run(p + 1, i, k)
    case IOpenCapture => Run(p + 1, i, k)
    case ICloseCapture => Run(p + 1, i, k)
    case _ => Stuck
  }

  /** One step of the machine; popping pending calls while failing is one step each. */
  function Step(code: Code, s: Subject, st: State): State {
    match st
    case Run(p, i, k) =>
      if p == GIVEUP then (if k.Base? then Done(GaveUp) else Stuck)
      else if 0 <= p < |code| then Exec(code, s, p, i, k)
      else Stuck
    case Failing(k) => (
      match k
      case Base => Stuck
      case Push(Return(_), rest) => Failing(rest)
      case Push(Back(p, i), rest) => Run(p, i, rest)
    )
    case _ => st
  }

  function RunFor(code: Code, s: Subject, st: State, n: nat): State
    decreases n
  {
    if n == 0 then st else RunFor(code, s, Step(code, s, st), n - 1)
  }

  /** The machine, started in `st`, stops with answer `a`. */
  ghost predicate Halts(code: Code, s: Subject, st: State, a: Answer) {
    exists n: nat :: RunFor(code, s, st, n) == Done(a)
  }

  function Start(i: nat): State { Run(0, i, Push(Back(GIVEUP, i), Base)) }

  lemma HaltsBack(code: Code, s: Subject, st: State, a: Answer)
    requires Halts(code, s, Step(code, s, st), a)
    ensures Halts(code, s, st, a)
  {
    var n: nat :| RunFor(code, s, Step(code, s, st), n) == Done(a);
    assert RunFor(code, s, st, n + 1) == Done(a);
  }

  lemma HaltsOn(code: Code, s: Subject, st: State, a: Answer)
    requires Halts(code, s, st, a)
    ensures Halts(code, s, Step(code, s, st), a)
  {
    var n: nat :| RunFor(code, s, st, n) == Done(a);
    if n == 0 {
      assert RunFor(code, s, Step(code, s, st), 0) == Done(a);
    } else {
      assert RunFor(code, s, Step(code, s, st), n - 1) == Done(a);
    }
  }

  lemma {:induction false} RunForDone(code: Code, s: Subject, a: Answer, n: nat)
    ensures RunFor(code, s, Done(a), n) == Done(a)
    decreases n
  {
    if n > 0 { RunForDone(code, s, a, n - 1); }
  }

  lemma {:induction false} RunForAdd(code: Code, s: Subject, st: State, m: nat, n: nat)
    ensures RunFor(code, s, st, m + n) == RunFor(code, s, RunFor(code, s, st, m), n)
    decreases m
  {
    if m > 0 { RunForAdd(code, s, Step(code, s, st), m - 1, n); }
  }

  /** The machine is deterministic: it stops with at most one answer. */
  lemma HaltsUnique(code: Code, s: Subject, st: State, a: Answer, b: Answer)
    requires Halts(code, s, st, a) && Halts(code, s, st, b)
    ensures a == b
  {
    var m: nat :| RunFor(code, s, st, m) == Done(a);
    var n: nat :| RunFor(code, s, st, n) == Done(b);
    if m <= n {
      RunForAdd(code, s, st, m, n - m);
      RunForDone(code, s, a, n - m);
    } else {
      RunForAdd(code, s, st, n, m - n);
      RunForDone(code, s, b, m - n);
    }
  }
}
