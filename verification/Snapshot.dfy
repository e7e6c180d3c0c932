/** The reader/writer lock of rwlock.h and the shared snapshots of lua-stm.c, as a machine of atomic
    steps of any number of threads. */
module Snapshot {

  datatype Opt = None | Some(c: nat)

  /** What a thread does next.  A reader has the copy it read last (`last`); a writer that updates
      brings a new copy. */
  datatype Thread =
    | Reader(last: Opt)
    | RSpin(last: Opt)                    // rwlock_rlock: while (lock->write)
    | RAdded(last: Opt)                   // has added itself to lock->read
    | RUndo(last: Opt)                    // saw lock->write after that
    | RIn(last: Opt)                      // stm_copy: holds the lock
    | RGot(last: Opt, c: nat)             // has read obj->copy
    | RHeld(last: Opt, ret: Opt)          // has counted itself in the copy
    | RCompare(last: Opt, ret: Opt)       // lread: after the lock
    | RRelease(ret: Opt, keep: Opt)        // stm_releasecopy
    | RFree(c: nat, keep: Opt)
    | Writer
    | WSpin(c: nat)                       // stm_update: rwlock_wlock
    | WDrain(c: nat)                      // waits for the readers
    | WIn(c: nat)
    | WOut(prev: Opt)
    | WRelease(prev: Opt)
    | WFree(c: nat)
    | DSpin | DDrain | DIn                // stm_release
    | DFree(c: nat)
    | DClear | DOut
    | Gone

  /** The lock, the object's current copy and the reference counts of the copies that exist.  `ever`
      are all copies ever made. */
  datatype Memory = Memory(write: bool, read: nat, copy: Opt, refs: map<nat, nat>, ever: set<nat>)

  datatype Choice = Read | Update(c: nat) | Quit

  /** The copies the next step dereferences exist, and its assertions hold. */
  ghost predicate Safe(s: Memory, p: Thread) {
    match p
    case RGot(_, c) => c in s.refs && s.refs[c] > 0
    case RRelease(c, _) => c.Some? ==> c.c in s.refs && s.refs[c.c] > 0
    case RFree(c, _) => c in s.refs && s.refs[c] == 0
    case WRelease(c) => c.Some? ==> c.c in s.refs && s.refs[c.c] > 0
    case WFree(c) => c in s.refs && s.refs[c] == 0
    case DIn => s.copy.Some? ==> s.copy.c in s.refs && s.refs[s.copy.c] > 0
    case DFree(c) => c in s.refs && s.refs[c] == 0
    case RUndo(_) => s.read > 0
    case RHeld(_, _) => s.read > 0
    case _ => true
  }

  function Inc(s: Memory, c: nat): Memory
    requires c in s.refs
  {
    s.(refs := s.refs[c := s.refs[c] + 1])
  }

  function Dec(s: Memory, c: nat): Memory
    requires c in s.refs && s.refs[c] > 0
  {
    s.(refs := s.refs[c := s.refs[c] - 1])
  }

  function Free(s: Memory, c: nat): Memory { s.(refs := s.refs - {c}) }

  function Act(s: Memory, p: Thread, x: Choice): (Memory, Thread)
    requires Safe(s, p)
  {
    match p
    case Reader(last) =>
      (match x case Read => (s, RSpin(last)) case Quit => (s, RRelease(last, None)) case Update(_) => (s, p))
    case RSpin(last) => if s.write then (s, p) else (s.(read := s.read + 1), RAdded(last))
    case RAdded(last) => if s.write then (s, RUndo(last)) else (s, RIn(last))
    case RUndo(last) => (s.(read := s.read - 1), RSpin(last))
    case RIn(last) => (s, if s.copy.Some? then RGot(last, s.copy.c) else RHeld(last, None))
    case RGot(last, c) => (Inc(s, c), RHeld(last, Some(c)))
    case RHeld(last, ret) => (s.(read := s.read - 1), RCompare(last, ret))
    case RCompare(last, ret) => (s, if ret == last then RRelease(ret, last) else RRelease(last, ret))
    case RRelease(c, keep) =>
      if c.None? then (s, Reader(keep))
      else (Dec(s, c.c), if s.refs[c.c] == 1 then RFree(c.c, keep) else Reader(keep))
    case RFree(c, keep) => (Free(s, c), Reader(keep))
    case Writer =>
      (match x
       case Update(c) =>
         if c in s.ever then (s, p) else (s.(refs := s.refs[c := 1], ever := s.ever + {c}), WSpin(c))
       case Quit => (s, DSpin)
       case Read => (s, p))
    case WSpin(c) => if s.write then (s, p) else (s.(write := true), WDrain(c))
    case WDrain(c) => (s, if s.read > 0 then p else WIn(c))
    case WIn(c) => (s.(copy := Some(c)), WOut(s.copy))
    case WOut(prev) => (s.(write := false), WRelease(prev))
    case WRelease(prev) =>
      if prev.None? then (s, Writer) else (Dec(s, prev.c), if s.refs[prev.c] == 1 then WFree(prev.c) else Writer)
    case WFree(c) => (Free(s, c), Writer)
    case DSpin => if s.write then (s, p) else (s.(write := true), DDrain)
    case DDrain => (s, if s.read > 0 then p else DIn)
    case DIn =>
      if s.copy.None? then (s, DClear) else (Dec(s, s.copy.c), if s.refs[s.copy.c] == 1 then DFree(s.copy.c) else DClear)
    case DFree(c) => (Free(s, c), DClear)
    case DClear => (s.(copy := None), DOut)
    case DOut => (s.(write := false), Gone)
    case Gone => (s, p)
  }

  // ---------- what threads hold ----------

  datatype Key =
    | KRead                 // one unit of lock->read
    | KTry                  // an attempt to read
    | KIn                   // the lock for reading
    | KSee(c: nat)          // the same, with a pointer just read from obj->copy
    | KDrain                // lock->write, waiting for readers
    | KExcl                 // the lock for writing
    | KClear                // the same, with the object's reference given up already
    | KHold(c: nat)         // one reference to a copy
    | KFree(c: nat)         // a copy whose count has dropped to zero

  function Ref(c: Opt): multiset<Key> { if c.Some? then multiset{KHold(c.c)} else multiset{} }

  type Weight = Thread -> multiset<Key>

  /** What a thread holds. */
  function Keys(p: Thread): multiset<Key> {
    match p
    case Reader(l) => Ref(l)
    case RSpin(l) => Ref(l)
    case RAdded(l) => Ref(l) + multiset{KRead, KTry}
    case RUndo(l) => Ref(l) + multiset{KRead, KTry}
    case RIn(l) => Ref(l) + multiset{KRead, KIn}
    case RGot(l, c) => Ref(l) + multiset{KRead, KSee(c)}
    case RHeld(l, r) => Ref(l) + Ref(r) + multiset{KRead, KIn}
    case RCompare(l, r) => Ref(l) + Ref(r)
    case RRelease(c, r) => Ref(c) + Ref(r)
    case RFree(c, r) => Ref(r) + multiset{KFree(c)}
    case Writer => multiset{}
    case WSpin(c) => multiset{KHold(c)}
    case WDrain(c) => multiset{KHold(c), KDrain}
    case WIn(c) => multiset{KHold(c), KExcl}
    case WOut(l) => Ref(l) + multiset{KExcl}
    case WRelease(l) => Ref(l)
    case WFree(c) => multiset{KFree(c)}
    case DSpin => multiset{}
    case DDrain => multiset{KDrain}
    case DIn => multiset{KExcl}
    case DFree(c) => multiset{KClear, KFree(c)}
    case DClear => multiset{KClear}
    case DOut => multiset{KExcl}
    case Gone => multiset{}
  }

  /** The same, as equations for a function given by name only. */
  ghost predicate Weighs(w: Weight) {
    && (forall l :: w(Reader(l)) == Ref(l))
    && (forall l :: w(RSpin(l)) == Ref(l))
    && (forall l :: w(RAdded(l)) == Ref(l) + multiset{KRead, KTry})
    && (forall l :: w(RUndo(l)) == Ref(l) + multiset{KRead, KTry})
    && (forall l :: w(RIn(l)) == Ref(l) + multiset{KRead, KIn})
    && (forall l, c :: w(RGot(l, c)) == Ref(l) + multiset{KRead, KSee(c)})
    && (forall l, r :: w(RHeld(l, r)) == Ref(l) + Ref(r) + multiset{KRead, KIn})
    && (forall l, r :: w(RCompare(l, r)) == Ref(l) + Ref(r))
    && (forall c, r :: w(RRelease(c, r)) == Ref(c) + Ref(r))
    && (forall c, r :: w(RFree(c, r)) == Ref(r) + multiset{KFree(c)})
    && w(Writer) == multiset{}
    && (forall c :: w(WSpin(c)) == multiset{KHold(c)})
    && (forall c :: w(WDrain(c)) == multiset{KHold(c), KDrain})
    && (forall c :: w(WIn(c)) == multiset{KHold(c), KExcl})
    && (forall l :: w(WOut(l)) == Ref(l) + multiset{KExcl})
    && (forall l :: w(WRelease(l)) == Ref(l))
    && (forall c :: w(WFree(c)) == multiset{KFree(c)})
    && w(DSpin) == multiset{}
    && w(DDrain) == multiset{KDrain}
    && w(DIn) == multiset{KExcl}
    && (forall c :: w(DFree(c)) == multiset{KClear, KFree(c)})
    && w(DClear) == multiset{KClear}
    && w(DOut) == multiset{KExcl}
    && w(Gone) == multiset{}
  }

  // ---------- the invariant ----------

  function One(b: bool): nat { if b then 1 else 0 }

  ghost predicate LockOk(s: Memory, n: multiset<Key>) {
    && s.read == n[KRead] && n[KDrain] + n[KExcl] + n[KClear] == One(s.write)
    && n[KTry] + n[KIn] <= n[KRead]
    && (n[KExcl] + n[KClear] > 0 ==> n[KIn] == 0)
  }

  /** The object's own reference to a copy. */
  ghost function Owns(s: Memory, n: multiset<Key>, c: nat): nat { One(s.copy == Some(c) && n[KClear] == 0) }

  /** A copy's count is the object's own reference and all others; a pointer just read is that of the
      current copy, and no writer is inside. */
  ghost predicate CopyOk(s: Memory, n: multiset<Key>, c: nat) {
    && (if c in s.refs then
          s.refs[c] == n[KHold(c)] + Owns(s, n, c) && n[KFree(c)] == One(s.refs[c] == 0) && c in s.ever
        else
          n[KHold(c)] == 0 && n[KFree(c)] == 0 && Owns(s, n, c) == 0)
    && n[KTry] + n[KIn] + n[KSee(c)] <= n[KRead]
    && (n[KSee(c)] > 0 ==> s.copy == Some(c) && n[KExcl] + n[KClear] == 0)
  }

  ghost predicate Inv(s: Memory, n: multiset<Key>) { LockOk(s, n) && forall c: nat :: CopyOk(s, n, c) }

  ghost function Change(n: multiset<Key>, minus: multiset<Key>, plus: multiset<Key>): multiset<Key> { n - minus + plus }

  lemma AddKeeps(s: Memory, n: multiset<Key>)
    requires Inv(s, n)
    ensures Inv(s.(read := s.read + 1), Change(n, multiset{}, multiset{KRead, KTry}))
  {
    var s', n' := s.(read := s.read + 1), Change(n, multiset{}, multiset{KRead, KTry});
    forall x: nat ensures CopyOk(s', n', x) { assert CopyOk(s, n, x); }
  }

  lemma UndoKeeps(s: Memory, n: multiset<Key>)
    requires Inv(s, n) && n[KRead] > 0 && n[KTry] > 0
    ensures s.read > 0
    ensures Inv(s.(read := s.read - 1), Change(n, multiset{KRead, KTry}, multiset{}))
  {
    var s', n' := s.(read := s.read - 1), Change(n, multiset{KRead, KTry}, multiset{});
    forall x: nat ensures CopyOk(s', n', x) { assert CopyOk(s, n, x); }
  }

  lemma EnterKeeps(s: Memory, n: multiset<Key>)
    requires Inv(s, n) && n[KTry] > 0 && !s.write
    ensures Inv(s, Change(n, multiset{KTry}, multiset{KIn}))
  {
    var s', n' := s, Change(n, multiset{KTry}, multiset{KIn});
    forall x: nat ensures CopyOk(s', n', x) { assert CopyOk(s, n, x); }
  }

  lemma SeeKeeps(s: Memory, n: multiset<Key>, c: nat)
    requires Inv(s, n) && n[KIn] > 0 && s.copy == Some(c)
    ensures Inv(s, Change(n, multiset{KIn}, multiset{KSee(c)}))
  {
    var s', n' := s, Change(n, multiset{KIn}, multiset{KSee(c)});
    forall x: nat ensures CopyOk(s', n', x) { assert CopyOk(s, n, x); }
  }

  lemma IncKeeps(s: Memory, n: multiset<Key>, c: nat)
    requires Inv(s, n) && n[KSee(c)] > 0
    ensures c in s.refs && s.refs[c] > 0
    ensures Inv(Inc(s, c), Change(n, multiset{KSee(c)}, multiset{KHold(c), KIn}))
  {
    assert CopyOk(s, n, c);
    var s', n' := Inc(s, c), Change(n, multiset{KSee(c)}, multiset{KHold(c), KIn});
    forall x: nat ensures CopyOk(s', n', x) { assert CopyOk(s, n, x); }
  }

  lemma LeaveKeeps(s: Memory, n: multiset<Key>)
    requires Inv(s, n) && n[KRead] > 0 && n[KIn] > 0
    ensures s.read > 0
    ensures Inv(s.(read := s.read - 1), Change(n, multiset{KRead, KIn}, multiset{}))
  {
    var s', n' := s.(read := s.read - 1), Change(n, multiset{KRead, KIn}, multiset{});
    forall x: nat ensures CopyOk(s', n', x) { assert CopyOk(s, n, x); }
  }

  lemma ReleaseKeeps(s: Memory, n: multiset<Key>, c: nat)
    requires Inv(s, n) && n[KHold(c)] > 0
    ensures c in s.refs && s.refs[c] > 0
    ensures Inv(Dec(s, c), Change(n, multiset{KHold(c)}, if s.refs[c] == 1 then multiset{KFree(c)} else multiset{}))
  {
    assert CopyOk(s, n, c);
    var s', n' := Dec(s, c), Change(n, multiset{KHold(c)}, if s.refs[c] == 1 then multiset{KFree(c)} else multiset{});
    forall x: nat ensures CopyOk(s', n', x) { assert CopyOk(s, n, x); }
  }

  lemma FreeKeeps(s: Memory, n: multiset<Key>, c: nat)
    requires Inv(s, n) && n[KFree(c)] > 0
    ensures c in s.refs && s.refs[c] == 0
    ensures Inv(Free(s, c), Change(n, multiset{KFree(c)}, multiset{}))
  {
    assert CopyOk(s, n, c);
    var s', n' := Free(s, c), Change(n, multiset{KFree(c)}, multiset{});
    forall x: nat ensures CopyOk(s', n', x) { assert CopyOk(s, n, x); }
  }

  lemma NewKeeps(s: Memory, n: multiset<Key>, c: nat)
    requires Inv(s, n) && c !in s.ever
    ensures Inv(s.(refs := s.refs[c := 1], ever := s.ever + {c}), Change(n, multiset{}, multiset{KHold(c)}))
  {
    assert CopyOk(s, n, c);
    var s', n' := s.(refs := s.refs[c := 1], ever := s.ever + {c}), Change(n, multiset{}, multiset{KHold(c)});
    forall x: nat ensures CopyOk(s', n', x) { assert CopyOk(s, n, x); }
  }

  lemma LockKeeps(s: Memory, n: multiset<Key>)
    requires Inv(s, n) && !s.write
    ensures Inv(s.(write := true), Change(n, multiset{}, multiset{KDrain}))
  {
    var s', n' := s.(write := true), Change(n, multiset{}, multiset{KDrain});
    forall x: nat ensures CopyOk(s', n', x) { assert CopyOk(s, n, x); }
  }

  lemma DrainKeeps(s: Memory, n: multiset<Key>)
    requires Inv(s, n) && n[KDrain] > 0 && s.read == 0
    ensures Inv(s, Change(n, multiset{KDrain}, multiset{KExcl}))
  {
    var s', n' := s, Change(n, multiset{KDrain}, multiset{KExcl});
    forall x: nat ensures CopyOk(s', n', x) { assert CopyOk(s, n, x); }
  }

  lemma SwapKeeps(s: Memory, n: multiset<Key>, c: nat)
    requires Inv(s, n) && n[KExcl] > 0 && n[KHold(c)] > 0
    ensures Inv(s.(copy := Some(c)), Change(n, multiset{KHold(c)}, Ref(s.copy)))
  {
    assert CopyOk(s, n, c);
    var s', n' := s.(copy := Some(c)), Change(n, multiset{KHold(c)}, Ref(s.copy));
    forall x: nat ensures CopyOk(s', n', x) { assert CopyOk(s, n, x); }
  }

  lemma UnlockKeeps(s: Memory, n: multiset<Key>)
    requires Inv(s, n) && n[KExcl] > 0
    ensures Inv(s.(write := false), Change(n, multiset{KExcl}, multiset{}))
  {
    var s', n' := s.(write := false), Change(n, multiset{KExcl}, multiset{});
    forall x: nat ensures CopyOk(s', n', x) { assert CopyOk(s, n, x); }
  }

  lemma GiveUpKeeps(s: Memory, n: multiset<Key>, c: nat)
    requires Inv(s, n) && n[KExcl] > 0 && s.copy == Some(c)
    ensures c in s.refs && s.refs[c] > 0
    ensures Inv(Dec(s, c), Change(n, multiset{KExcl}, if s.refs[c] == 1 then multiset{KClear, KFree(c)} else multiset{KClear}))
  {
    assert CopyOk(s, n, c);
    var s', n' := Dec(s, c), Change(n, multiset{KExcl}, if s.refs[c] == 1 then multiset{KClear, KFree(c)} else multiset{KClear});
    forall x: nat ensures CopyOk(s', n', x) { assert CopyOk(s, n, x); }
  }

  lemma NothingKeeps(s: Memory, n: multiset<Key>)
    requires Inv(s, n) && n[KExcl] > 0 && s.copy == None
    ensures Inv(s, Change(n, multiset{KExcl}, multiset{KClear}))
  {
    var s', n' := s, Change(n, multiset{KExcl}, multiset{KClear});
    forall x: nat ensures CopyOk(s', n', x) { assert CopyOk(s, n, x); }
  }

  lemma ClearKeeps(s: Memory, n: multiset<Key>)
    requires Inv(s, n) && n[KClear] > 0
    ensures Inv(s.(copy := None), Change(n, multiset{KClear}, multiset{KExcl}))
  {
    var s', n' := s.(copy := None), Change(n, multiset{KClear}, multiset{KExcl});
    forall x: nat ensures CopyOk(s', n', x) { assert CopyOk(s, n, x); }
  }
}
