/** What holds in every run of the threads around a shared snapshot. */
module SnapshotRuns {
  import opened Counting
  import opened Snapshot

  /** A step from `p` to `t` is fine, where all threads together hold `n`. */
  ghost predicate Fine(w: Weight, s: Memory, n: multiset<Key>, p: Thread, t: (Memory, Thread)) {
    Inv(t.0, Change(n, w(p), w(t.1)))
  }

  ghost predicate Among(w: Weight, s: Memory, n: multiset<Key>, p: Thread) { Weighs(w) && Inv(s, n) && w(p) <= n }

  lemma Cancel(n: multiset<Key>, r: multiset<Key>, a: multiset<Key>, b: multiset<Key>)
    requires r + a <= n
    ensures Change(n, r + a, r + b) == Change(n, a, b)
    ensures Change(n, r + a, r) == Change(n, a, multiset{})
  {
  }

  lemma CancelNew(n: multiset<Key>, r: multiset<Key>, b: multiset<Key>)
    requires r <= n
    ensures Change(n, r, r + b) == Change(n, multiset{}, b)
  {
  }

  lemma Same(n: multiset<Key>, a: multiset<Key>)
    requires a <= n
    ensures Change(n, a, a) == n
  {
  }

  // ---------- readers; `l` is what else the thread holds ----------

  lemma SpinStep(s: Memory, n: multiset<Key>, l: multiset<Key>)
    requires Inv(s, n) && l <= n
    ensures Inv(s.(read := s.read + 1), Change(n, l, l + multiset{KRead, KTry}))
  {
    AddKeeps(s, n);
    CancelNew(n, l, multiset{KRead, KTry});
  }

  lemma EnterStep(s: Memory, n: multiset<Key>, l: multiset<Key>)
    requires Inv(s, n) && l + multiset{KRead, KTry} <= n && !s.write
    ensures Inv(s, Change(n, l + multiset{KRead, KTry}, l + multiset{KRead, KIn}))
  {
    EnterKeeps(s, n);
    assert Change(n, multiset{KTry}, multiset{KIn}) == Change(n, l + multiset{KRead, KTry}, l + multiset{KRead, KIn});
  }

  lemma UndoStep(s: Memory, n: multiset<Key>, l: multiset<Key>)
    requires Inv(s, n) && l + multiset{KRead, KTry} <= n
    ensures s.read > 0 && Inv(s.(read := s.read - 1), Change(n, l + multiset{KRead, KTry}, l))
  {
    UndoKeeps(s, n);
    Cancel(n, l, multiset{KRead, KTry}, multiset{});
  }

  lemma SeeStep(s: Memory, n: multiset<Key>, l: multiset<Key>, c: nat)
    requires Inv(s, n) && l + multiset{KRead, KIn} <= n && s.copy == Some(c)
    ensures Inv(s, Change(n, l + multiset{KRead, KIn}, l + multiset{KRead, KSee(c)}))
  {
    SeeKeeps(s, n, c);
    assert Change(n, multiset{KIn}, multiset{KSee(c)}) == Change(n, l + multiset{KRead, KIn}, l + multiset{KRead, KSee(c)});
  }

  lemma IncStep(s: Memory, n: multiset<Key>, l: multiset<Key>, c: nat)
    requires Inv(s, n) && l + multiset{KRead, KSee(c)} <= n
    ensures c in s.refs && s.refs[c] > 0
    ensures Inv(Inc(s, c), Change(n, l + multiset{KRead, KSee(c)}, l + multiset{KHold(c)} + multiset{KRead, KIn}))
  {
    IncKeeps(s, n, c);
    IncKeys(n, l, c);
  }

  lemma IncKeys(n: multiset<Key>, l: multiset<Key>, c: nat)
    requires l + multiset{KRead, KSee(c)} <= n
    ensures Change(n, multiset{KSee(c)}, multiset{KHold(c), KIn})
         == Change(n, l + multiset{KRead, KSee(c)}, l + multiset{KHold(c)} + multiset{KRead, KIn})
  {
  }

  lemma LeaveStep(s: Memory, n: multiset<Key>, l: multiset<Key>)
    requires Inv(s, n) && l + multiset{KRead, KIn} <= n
    ensures s.read > 0 && Inv(s.(read := s.read - 1), Change(n, l + multiset{KRead, KIn}, l))
  {
    LeaveKeeps(s, n);
    Cancel(n, l, multiset{KRead, KIn}, multiset{});
  }

  lemma GiveStep(s: Memory, n: multiset<Key>, c: nat, l: multiset<Key>)
    requires Inv(s, n) && multiset{KHold(c)} + l <= n
    ensures c in s.refs && s.refs[c] > 0
    ensures Inv(Dec(s, c), Change(n, multiset{KHold(c)} + l, if s.refs[c] == 1 then l + multiset{KFree(c)} else l))
  {
    ReleaseKeeps(s, n, c);
    GiveKeys(n, c, l);
  }

  lemma GiveKeys(n: multiset<Key>, c: nat, r: multiset<Key>)
    requires multiset{KHold(c)} + r <= n
    ensures Change(n, multiset{KHold(c)}, multiset{KFree(c)}) == Change(n, multiset{KHold(c)} + r, r + multiset{KFree(c)})
    ensures Change(n, multiset{KHold(c)}, multiset{}) == Change(n, multiset{KHold(c)} + r, r)
  {
  }

  lemma FreeStep(s: Memory, n: multiset<Key>, c: nat, l: multiset<Key>)
    requires Inv(s, n) && l + multiset{KFree(c)} <= n
    ensures c in s.refs && s.refs[c] == 0 && Inv(Free(s, c), Change(n, l + multiset{KFree(c)}, l))
  {
    FreeKeeps(s, n, c);
    Cancel(n, l, multiset{KFree(c)}, multiset{});
  }

  lemma SpinFine(w: Weight, s: Memory, n: multiset<Key>, p: Thread, x: Choice)
    requires Among(w, s, n, p) && (p.RSpin? || p.RAdded? || p.RUndo?)
    ensures Safe(s, p) && Fine(w, s, n, p, Act(s, p, x))
  {
    if p.RUndo? { UndoFine(w, s, n, p, x); } else { EnterFine(w, s, n, p, x); }
  }

  lemma UndoFine(w: Weight, s: Memory, n: multiset<Key>, p: Thread, x: Choice)
    requires Among(w, s, n, p) && p.RUndo?
    ensures Safe(s, p) && Fine(w, s, n, p, Act(s, p, x))
  {
    UndoStep(s, n, Ref(p.last));
  }

  lemma EnterFine(w: Weight, s: Memory, n: multiset<Key>, p: Thread, x: Choice)
    requires Among(w, s, n, p) && (p.RSpin? || p.RAdded?)
    ensures Safe(s, p) && Fine(w, s, n, p, Act(s, p, x))
  {
    if p.RSpin? { SpinningFine(w, s, n, p, x); } else { AddedFine(w, s, n, p, x); }
  }

  lemma SpinningFine(w: Weight, s: Memory, n: multiset<Key>, p: Thread, x: Choice)
    requires Among(w, s, n, p) && p.RSpin?
    ensures Safe(s, p) && Fine(w, s, n, p, Act(s, p, x))
  {
    if s.write { Same(n, w(p)); } else { SpinStep(s, n, Ref(p.last)); }
  }

  lemma AddedFine(w: Weight, s: Memory, n: multiset<Key>, p: Thread, x: Choice)
    requires Among(w, s, n, p) && p.RAdded?
    ensures Safe(s, p) && Fine(w, s, n, p, Act(s, p, x))
  {
    if s.write { Same(n, w(p)); } else { EnterStep(s, n, Ref(p.last)); }
  }

  lemma InFine(w: Weight, s: Memory, n: multiset<Key>, p: Thread, x: Choice)
    requires Among(w, s, n, p) && p.RIn?
    ensures Fine(w, s, n, p, Act(s, p, x))
  {
    if s.copy.Some? {
      SeeStep(s, n, Ref(p.last), s.copy.c);
    } else {
      Same(n, w(p));
      RefNone(Ref(p.last), multiset{KRead, KIn});
    }
  }

  lemma RefNone(l: multiset<Key>, r: multiset<Key>)
    ensures l + Ref(None) + r == l + r
  {
  }

  lemma InsideFine(w: Weight, s: Memory, n: multiset<Key>, p: Thread, x: Choice)
    requires Among(w, s, n, p) && (p.RIn? || p.RGot? || p.RHeld?)
    ensures Safe(s, p) && Fine(w, s, n, p, Act(s, p, x))
  {
    if p.RIn? {
      InFine(w, s, n, p, x);
    } else if p.RGot? {
      GotFine(w, s, n, p, x);
    } else {
      HeldFine(w, s, n, p, x);
    }
  }

  lemma GotFine(w: Weight, s: Memory, n: multiset<Key>, p: Thread, x: Choice)
    requires Among(w, s, n, p) && p.RGot?
    ensures Safe(s, p) && Fine(w, s, n, p, Act(s, p, x))
  {
    IncStep(s, n, Ref(p.last), p.c);
    assert Ref(Some(p.c)) == multiset{KHold(p.c)};
  }

  lemma HeldFine(w: Weight, s: Memory, n: multiset<Key>, p: Thread, x: Choice)
    requires Among(w, s, n, p) && p.RHeld?
    ensures Safe(s, p) && Fine(w, s, n, p, Act(s, p, x))
  {
    LeaveStep(s, n, Ref(p.last) + Ref(p.ret));
  }

  lemma CompareFine(w: Weight, s: Memory, n: multiset<Key>, p: Thread, x: Choice)
    requires Among(w, s, n, p) && p.RCompare?
    ensures Fine(w, s, n, p, Act(s, p, x))
  {
    Same(n, w(p));
    assert Ref(p.ret) + Ref(p.last) == Ref(p.last) + Ref(p.ret);
  }

  lemma ReleaseFine(w: Weight, s: Memory, n: multiset<Key>, p: Thread, x: Choice)
    requires Among(w, s, n, p) && (p.RCompare? || p.RRelease? || p.RFree?)
    ensures Safe(s, p) && Fine(w, s, n, p, Act(s, p, x))
  {
    if p.RCompare? {
      CompareFine(w, s, n, p, x);
    } else if p.RFree? {
      FreeStep(s, n, p.c, Ref(p.keep));
    } else {
      GiveFine(w, s, n, p, x);
    }
  }

  lemma GiveFine(w: Weight, s: Memory, n: multiset<Key>, p: Thread, x: Choice)
    requires Among(w, s, n, p) && p.RRelease?
    ensures Safe(s, p) && Fine(w, s, n, p, Act(s, p, x))
  {
    if p.ret.Some? { GiveSome(w, s, n, p, x); } else { GiveNone(w, s, n, p, x); }
  }

  lemma GiveSome(w: Weight, s: Memory, n: multiset<Key>, p: Thread, x: Choice)
    requires Among(w, s, n, p) && p.RRelease? && p.ret.Some?
    ensures Safe(s, p) && Fine(w, s, n, p, Act(s, p, x))
  {
    GiveStep(s, n, p.ret.c, Ref(p.keep));
  }

  lemma GiveNone(w: Weight, s: Memory, n: multiset<Key>, p: Thread, x: Choice)
    requires Among(w, s, n, p) && p.RRelease? && p.ret.None?
    ensures Safe(s, p) && Fine(w, s, n, p, Act(s, p, x))
  {
    Same(n, w(p));
    assert Ref(None) + Ref(p.keep) == Ref(p.keep);
  }

  /** A writer that updates. */
  lemma UpdateFine(w: Weight, s: Memory, n: multiset<Key>, p: Thread, x: Choice)
    requires Among(w, s, n, p) && (p.WSpin? || p.WDrain? || p.WIn? || p.WOut?)
    ensures Safe(s, p) && Fine(w, s, n, p, Act(s, p, x))
  {
    if p.WSpin? {
      UpdateSpin(w, s, n, p, x);
    } else if p.WDrain? {
      UpdateDrain(w, s, n, p, x);
    } else if p.WIn? {
      UpdateIn(w, s, n, p, x);
    } else {
      UpdateOut(w, s, n, p, x);
    }
  }

  lemma UpdateSpin(w: Weight, s: Memory, n: multiset<Key>, p: Thread, x: Choice)
    requires Among(w, s, n, p) && p.WSpin?
    ensures Safe(s, p) && Fine(w, s, n, p, Act(s, p, x))
  {
    Same(n, w(p));
    if !s.write {
      LockKeeps(s, n);
      CancelNew(n, multiset{KHold(p.c)}, multiset{KDrain});
      assert multiset{KHold(p.c)} + multiset{KDrain} == multiset{KHold(p.c), KDrain};
    }
  }

  lemma UpdateDrain(w: Weight, s: Memory, n: multiset<Key>, p: Thread, x: Choice)
    requires Among(w, s, n, p) && p.WDrain?
    ensures Safe(s, p) && Fine(w, s, n, p, Act(s, p, x))
  {
    Same(n, w(p));
    if s.read == 0 {
      DrainKeeps(s, n);
      DrainKeys(n, p.c);
    }
  }

  lemma UpdateIn(w: Weight, s: Memory, n: multiset<Key>, p: Thread, x: Choice)
    requires Among(w, s, n, p) && p.WIn?
    ensures Safe(s, p) && Fine(w, s, n, p, Act(s, p, x))
  {
    SwapKeeps(s, n, p.c);
    SwapKeys(n, p.c, Ref(s.copy));
  }

  lemma UpdateOut(w: Weight, s: Memory, n: multiset<Key>, p: Thread, x: Choice)
    requires Among(w, s, n, p) && p.WOut?
    ensures Safe(s, p) && Fine(w, s, n, p, Act(s, p, x))
  {
    UnlockKeeps(s, n);
    Cancel(n, Ref(p.prev), multiset{KExcl}, multiset{});
  }

  lemma DrainKeys(n: multiset<Key>, c: nat)
    requires multiset{KHold(c), KDrain} <= n
    ensures Change(n, multiset{KDrain}, multiset{KExcl}) == Change(n, multiset{KHold(c), KDrain}, multiset{KHold(c), KExcl})
  {
  }

  lemma SwapKeys(n: multiset<Key>, c: nat, r: multiset<Key>)
    requires multiset{KHold(c), KExcl} <= n
    ensures Change(n, multiset{KHold(c)}, r) == Change(n, multiset{KHold(c), KExcl}, r + multiset{KExcl})
  {
  }

  lemma WriterFine(w: Weight, s: Memory, n: multiset<Key>, p: Thread, x: Choice)
    requires Among(w, s, n, p) && (p.Reader? || p.Writer? || p.WRelease? || p.WFree? || p.Gone?)
    ensures Safe(s, p) && Fine(w, s, n, p, Act(s, p, x))
  {
    if p.Writer? {
      NewFine(w, s, n, p, x);
    } else if p.WRelease? || p.WFree? {
      OldFine(w, s, n, p, x);
    } else {
      Same(n, w(p));
      if p.Reader? { assert Ref(p.last) + Ref(None) == Ref(p.last); }
    }
  }

  lemma NewFine(w: Weight, s: Memory, n: multiset<Key>, p: Thread, x: Choice)
    requires Among(w, s, n, p) && p.Writer?
    ensures Safe(s, p) && Fine(w, s, n, p, Act(s, p, x))
  {
    Same(n, w(p));
    if x.Update? && x.c !in s.ever { NewKeeps(s, n, x.c); }
  }

  lemma OldFine(w: Weight, s: Memory, n: multiset<Key>, p: Thread, x: Choice)
    requires Among(w, s, n, p) && (p.WRelease? || p.WFree?)
    ensures Safe(s, p) && Fine(w, s, n, p, Act(s, p, x))
  {
    if p.WFree? { OldFreed(w, s, n, p, x); } else { OldReleased(w, s, n, p, x); }
  }

  lemma OldFreed(w: Weight, s: Memory, n: multiset<Key>, p: Thread, x: Choice)
    requires Among(w, s, n, p) && p.WFree?
    ensures Safe(s, p) && Fine(w, s, n, p, Act(s, p, x))
  {
    FreeKeeps(s, n, p.c);
  }

  lemma OldReleased(w: Weight, s: Memory, n: multiset<Key>, p: Thread, x: Choice)
    requires Among(w, s, n, p) && p.WRelease?
    ensures Safe(s, p) && Fine(w, s, n, p, Act(s, p, x))
  {
    if p.prev.Some? { ReleaseKeeps(s, n, p.prev.c); } else { Same(n, w(p)); }
  }

  lemma DeleteFine(w: Weight, s: Memory, n: multiset<Key>, p: Thread, x: Choice)
    requires Among(w, s, n, p) && (p.DSpin? || p.DDrain? || p.DClear? || p.DOut?)
    ensures Safe(s, p) && Fine(w, s, n, p, Act(s, p, x))
  {
    Same(n, w(p));
    match p {
      case DSpin => if !s.write { LockKeeps(s, n); }
      case DDrain => if s.read == 0 { DrainKeeps(s, n); }
      case DClear => ClearKeeps(s, n);
      case DOut => UnlockKeeps(s, n);
    }
  }

  lemma DropFine(w: Weight, s: Memory, n: multiset<Key>, p: Thread, x: Choice)
    requires Among(w, s, n, p) && (p.DIn? || p.DFree?)
    ensures Safe(s, p) && Fine(w, s, n, p, Act(s, p, x))
  {
    if p.DFree? { DropFreed(w, s, n, p, x); } else { DropGiven(w, s, n, p, x); }
  }

  lemma DropFreed(w: Weight, s: Memory, n: multiset<Key>, p: Thread, x: Choice)
    requires Among(w, s, n, p) && p.DFree?
    ensures Safe(s, p) && Fine(w, s, n, p, Act(s, p, x))
  {
    assert multiset{KClear} + multiset{KFree(p.c)} == multiset{KClear, KFree(p.c)};
    FreeStep(s, n, p.c, multiset{KClear});
  }

  lemma DropGiven(w: Weight, s: Memory, n: multiset<Key>, p: Thread, x: Choice)
    requires Among(w, s, n, p) && p.DIn?
    ensures Safe(s, p) && Fine(w, s, n, p, Act(s, p, x))
  {
    if s.copy.Some? { GiveUpKeeps(s, n, s.copy.c); } else { NothingKeeps(s, n); }
  }

  lemma ActFine(w: Weight, s: Memory, n: multiset<Key>, p: Thread, x: Choice)
    requires Among(w, s, n, p)
    ensures Safe(s, p) && Fine(w, s, n, p, Act(s, p, x))
  {
    if p.RSpin? || p.RAdded? || p.RUndo? {
      SpinFine(w, s, n, p, x);
    } else if p.RIn? || p.RGot? || p.RHeld? {
      InsideFine(w, s, n, p, x);
    } else if p.RCompare? || p.RRelease? || p.RFree? {
      ReleaseFine(w, s, n, p, x);
    } else if p.WSpin? || p.WDrain? || p.WIn? || p.WOut? {
      UpdateFine(w, s, n, p, x);
    } else if p.DSpin? || p.DDrain? || p.DClear? || p.DOut? {
      DeleteFine(w, s, n, p, x);
    } else if p.DIn? || p.DFree? {
      DropFine(w, s, n, p, x);
    } else {
      WriterFine(w, s, n, p, x);
    }
  }

  // ---------- runs ----------

  lemma KeysReader()
    ensures forall l :: Keys(Reader(l)) == Ref(l)
  {
  }

  lemma KeysRSpin()
    ensures forall l :: Keys(RSpin(l)) == Ref(l)
  {
  }

  lemma KeysRAdded()
    ensures forall l :: Keys(RAdded(l)) == Ref(l) + multiset{KRead, KTry}
  {
  }

  lemma KeysRUndo()
    ensures forall l :: Keys(RUndo(l)) == Ref(l) + multiset{KRead, KTry}
  {
  }

  lemma KeysRIn()
    ensures forall l :: Keys(RIn(l)) == Ref(l) + multiset{KRead, KIn}
  {
  }

  lemma KeysRGot()
    ensures forall l, c :: Keys(RGot(l, c)) == Ref(l) + multiset{KRead, KSee(c)}
  {
  }

  lemma KeysRHeld()
    ensures forall l, r :: Keys(RHeld(l, r)) == Ref(l) + Ref(r) + multiset{KRead, KIn}
  {
  }

  lemma KeysRCompare()
    ensures forall l, r :: Keys(RCompare(l, r)) == Ref(l) + Ref(r)
  {
  }

  lemma KeysRRelease()
    ensures forall c, r :: Keys(RRelease(c, r)) == Ref(c) + Ref(r)
  {
  }

  lemma KeysRFree()
    ensures forall c, r :: Keys(RFree(c, r)) == Ref(r) + multiset{KFree(c)}
  {
  }

  lemma KeysWriter()
    ensures Keys(Writer) == multiset{}
  {
  }

  lemma KeysWSpin()
    ensures forall c :: Keys(WSpin(c)) == multiset{KHold(c)}
  {
  }

  lemma KeysWDrain()
    ensures forall c :: Keys(WDrain(c)) == multiset{KHold(c), KDrain}
  {
  }

  lemma KeysWIn()
    ensures forall c :: Keys(WIn(c)) == multiset{KHold(c), KExcl}
  {
  }

  lemma KeysWOut()
    ensures forall l :: Keys(WOut(l)) == Ref(l) + multiset{KExcl}
  {
  }

  lemma KeysWRelease()
    ensures forall l :: Keys(WRelease(l)) == Ref(l)
  {
  }

  lemma KeysWFree()
    ensures forall c :: Keys(WFree(c)) == multiset{KFree(c)}
  {
  }

  lemma KeysDSpin()
    ensures Keys(DSpin) == multiset{}
  {
  }

  lemma KeysDDrain()
    ensures Keys(DDrain) == multiset{KDrain}
  {
  }

  lemma KeysDIn()
    ensures Keys(DIn) == multiset{KExcl}
  {
  }

  lemma KeysDFree()
    ensures forall c :: Keys(DFree(c)) == multiset{KClear, KFree(c)}
  {
  }

  lemma KeysDClear()
    ensures Keys(DClear) == multiset{KClear}
  {
  }

  lemma KeysDOut()
    ensures Keys(DOut) == multiset{KExcl}
  {
  }

  lemma KeysGone()
    ensures Keys(Gone) == multiset{}
  {
  }

  lemma KeysWeigh()
    ensures Weighs(Keys)
  {
    KeysReader(); KeysRSpin(); KeysRAdded(); KeysRUndo();
    KeysRIn(); KeysRGot(); KeysRHeld(); KeysRCompare();
    KeysRRelease(); KeysRFree(); KeysWriter(); KeysWSpin();
    KeysWDrain(); KeysWIn(); KeysWOut(); KeysWRelease();
    KeysWFree(); KeysDSpin(); KeysDDrain(); KeysDIn();
    KeysDFree(); KeysDClear(); KeysDOut(); KeysGone();
  }

  datatype State = State(mem: Memory, threads: seq<Thread>)

  /** `stm_new`: one copy, held by the object; any number of readers and writers. */
  ghost predicate Start(s: State) {
    && s.mem == Memory(false, 0, Some(0), map[0 := 1], {0})
    && forall i :: 0 <= i < |s.threads| ==> s.threads[i] in {Reader(None), Writer}
  }

  ghost predicate Moves(s: State, i: nat, x: Choice, s': State) {
    && i < |s.threads|
    && (Safe(s.mem, s.threads[i]) ==>
          s' == State(Act(s.mem, s.threads[i], x).0, s.threads[i := Act(s.mem, s.threads[i], x).1]))
  }

  /** Some thread takes a step; after an unsafe step anything may happen. */
  ghost predicate Next(s: State, s': State) { exists i: nat, x :: Moves(s, i, x, s') }

  ghost predicate Run(ss: seq<State>) {
    ss != [] && Start(ss[0]) && forall k :: 0 < k < |ss| ==> Next(ss[k - 1], ss[k])
  }

  ghost predicate SystemInv(s: State) { Inv(s.mem, Sum(s.threads, Keys)) }

  lemma StepKeeps(s: State, i: nat, x: Choice)
    requires SystemInv(s) && i < |s.threads|
    ensures Safe(s.mem, s.threads[i])
    ensures SystemInv(State(Act(s.mem, s.threads[i], x).0, s.threads[i := Act(s.mem, s.threads[i], x).1]))
  {
    SumSet(s.threads, Keys, i, s.threads[i]);
    KeysWeigh();
    ActFine(Keys, s.mem, Sum(s.threads, Keys), s.threads[i], x);
    SumSet(s.threads, Keys, i, Act(s.mem, s.threads[i], x).1);
  }

  lemma {:induction false} StartSum(threads: seq<Thread>)
    requires forall i :: 0 <= i < |threads| ==> threads[i] in {Reader(None), Writer}
    ensures Sum(threads, Keys) == multiset{}
    decreases |threads|
  {
    if threads != [] { StartSum(threads[..|threads| - 1]); }
  }

  /** The invariant holds in every state of every run. */
  lemma {:induction false} Always(ss: seq<State>, k: nat)
    requires Run(ss) && k < |ss|
    ensures SystemInv(ss[k])
  {
    if k == 0 {
      StartSum(ss[0].threads);
      forall c: nat ensures CopyOk(ss[0].mem, multiset{}, c) { }
    } else {
      Always(ss, k - 1);
      var i: nat, x :| Moves(ss[k - 1], i, x, ss[k]);
      StepKeeps(ss[k - 1], i, x);
    }
  }

  /** No thread ever touches a copy that was freed; a copy is freed when its count is zero. */
  lemma AlwaysSafe(ss: seq<State>, k: nat, i: nat)
    requires Run(ss) && k < |ss| && i < |ss[k].threads|
    ensures Safe(ss[k].mem, ss[k].threads[i])
  {
    Always(ss, k);
    StepKeeps(ss[k], i, Read);
  }

  predicate Reading(p: Thread) { p.RIn? || p.RGot? || p.RHeld? }
  predicate Writing(p: Thread) { p.WIn? || p.WOut? || p.DIn? || p.DFree? || p.DClear? || p.DOut? }

  lemma WritingKeys(w: Weight, p: Thread)
    requires Weighs(w)
    ensures Writing(p) ==> w(p)[KExcl] + w(p)[KClear] >= 1
  {
  }

  lemma ReadingKeys(w: Weight, p: Thread)
    requires Weighs(w)
    ensures Reading(p) && !p.RGot? ==> w(p)[KIn] >= 1
    ensures p.RGot? ==> w(p)[KSee(p.c)] >= 1
  {
  }

  /** A writer inside the lock is alone: no reader and no other writer is inside. */
  lemma Exclusion(ss: seq<State>, k: nat, i: nat, j: nat)
    requires Run(ss) && k < |ss| && i < |ss[k].threads| && j < |ss[k].threads| && i != j
    requires Writing(ss[k].threads[i])
    ensures !Reading(ss[k].threads[j]) && !Writing(ss[k].threads[j])
  {
    Always(ss, k);
    KeysWeigh();
    ExclusionAt(Keys, ss[k].mem, ss[k].threads, i, j);
  }

  lemma ExclusionAt(w: Weight, s: Memory, ts: seq<Thread>, i: nat, j: nat)
    requires Weighs(w) && Inv(s, Sum(ts, w)) && i < |ts| && j < |ts| && i != j && Writing(ts[i])
    ensures !Reading(ts[j]) && !Writing(ts[j])
  {
    SumTwo(ts, w, if i < j then i else j, if i < j then j else i);
    Apart(w(ts[i]), w(ts[j]), Sum(ts, w), s, if ts[j].RGot? then ts[j].c else 0);
    WritingKeys(w, ts[i]);
    WritingKeys(w, ts[j]);
    ReadingKeys(w, ts[j]);
  }

  /** Among all keys, one thread's keys to write exclude any other's keys to read or write. */
  lemma Apart(a: multiset<Key>, b: multiset<Key>, n: multiset<Key>, s: Memory, c: nat)
    requires Inv(s, n) && a + b <= n && a[KExcl] + a[KClear] >= 1
    ensures b[KExcl] + b[KClear] == 0 && b[KIn] == 0 && b[KSee(c)] == 0
  {
    assert CopyOk(s, n, c);
    assert forall k :: a[k] + b[k] <= n[k];
  }

  /** The count of a copy is the object's own reference and those of all threads. */
  lemma CountExact(ss: seq<State>, k: nat, c: nat)
    requires Run(ss) && k < |ss|
    ensures var s, n := ss[k].mem, Sum(ss[k].threads, Keys);
      if c in s.refs then s.refs[c] == n[KHold(c)] + Owns(s, n, c) else n[KHold(c)] == 0 && Owns(s, n, c) == 0
  {
    Always(ss, k);
    assert CopyOk(ss[k].mem, Sum(ss[k].threads, Keys), c);
  }
}
