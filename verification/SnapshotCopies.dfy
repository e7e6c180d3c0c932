/** Which copy a snapshot holds, and which copy a reader gets: every run with its moves recorded. */
module SnapshotCopies {
  import opened Counting
  import opened Histories
  import opened Snapshot
  import opened SnapshotRuns

  /** A step: which thread, and what it is asked to do next. */
  datatype Move = Move(i: nat, x: Choice)

  ghost predicate Recorded(ss: seq<State>, ms: seq<Move>) {
    && |ss| == |ms| + 1 && Start(ss[0])
    && forall k :: 0 <= k < |ms| ==> Moves(ss[k], ms[k].i, ms[k].x, ss[k + 1])
  }

  lemma RecordedRuns(ss: seq<State>, ms: seq<Move>)
    requires Recorded(ss, ms)
    ensures Run(ss)
  {
    forall k | 0 < k < |ss| ensures Next(ss[k - 1], ss[k]) {
      assert Moves(ss[k - 1], ms[k - 1].i, ms[k - 1].x, ss[k - 1 + 1]);
    }
  }

  /** Every run has a record. */
  lemma {:induction false} RunRecorded(ss: seq<State>) returns (ms: seq<Move>)
    requires Run(ss)
    ensures Recorded(ss, ms)
    decreases |ss|
  {
    if |ss| == 1 {
      ms := [];
    } else {
      var n := |ss| - 1;
      var before := RunRecorded(ss[..n]);
      assert Next(ss[n - 1], ss[n]);
      var i: nat, x :| Moves(ss[n - 1], i, x, ss[n]);
      ms := before + [Move(i, x)];
      forall k | 0 <= k < |ms| ensures Moves(ss[k], ms[k].i, ms[k].x, ss[k + 1]) {
        if k < n - 1 { assert Moves(ss[..n][k], before[k].i, before[k].x, ss[..n][k + 1]); }
      }
    }
  }

  /** A safe move: the thread takes its step. */
  ghost predicate Moved(s: State, m: Move, s': State) {
    && m.i < |s.threads| && Safe(s.mem, s.threads[m.i])
    && s' == State(Act(s.mem, s.threads[m.i], m.x).0, s.threads[m.i := Act(s.mem, s.threads[m.i], m.x).1])
  }

  lemma MoveAt(ss: seq<State>, ms: seq<Move>, k: nat)
    requires Recorded(ss, ms) && k < |ms|
    ensures Moved(ss[k], ms[k], ss[k + 1])
  {
    RecordedRuns(ss, ms);
    assert Moves(ss[k], ms[k].i, ms[k].x, ss[k + 1]);
    AlwaysSafe(ss, k, ms[k].i);
  }

  function At(s: State, i: nat): Thread { if i < |s.threads| then s.threads[i] else Gone }

  type Event<T> = (State, Move) -> seq<T>

  function By<T>(f: Event<T>, i: nat): Event<T> { (s: State, m: Move) => if m.i == i then f(s, m) else [] }

  // ---------- writers ----------

  /** A writer is asked to publish a new copy. */
  function Asks(s: State, m: Move): seq<Opt> {
    if At(s, m.i).Writer? && m.x.Update? && m.x.c !in s.mem.ever then [Some(m.x.c)] else []
  }

  /** A writer that holds the lock alone leaves it with its copy published. */
  function Publishes(s: State, m: Move): seq<Opt> {
    var p := At(s, m.i);
    if p.WIn? then [Some(p.c)] else []
  }

  /** What becomes of the object: a new copy, or none when its owner gives it up. */
  function Writes(s: State, m: Move): seq<Opt> {
    if At(s, m.i).DClear? then [None] else Publishes(s, m)
  }

  function BroughtBy(p: Thread): seq<Opt> { if p.WSpin? || p.WDrain? || p.WIn? then [Some(p.c)] else [] }

  /** The copy that thread `i` has made and not published. */
  function Brought(i: nat): State -> seq<Opt> { (s: State) => BroughtBy(At(s, i)) }

  lemma WriterOwn(s: State, m: Move, s': State)
    requires Moved(s, m, s')
    ensures BroughtBy(At(s, m.i)) + Asks(s, m) == Publishes(s, m) + BroughtBy(At(s', m.i))
  {
    assert At(s', m.i) == Act(s.mem, s.threads[m.i], m.x).1;
  }

  lemma WriterMove(s: State, m: Move, s': State, i: nat)
    requires Moved(s, m, s')
    ensures KeepsOrder(s, m, s', By(Asks, i), By(Publishes, i), Brought(i))
  {
    if m.i == i { WriterOwn(s, m, s'); } else { assert At(s', i) == At(s, i); }
  }

  /** Each update publishes its copy exactly once, or is on its way. */
  lemma EveryUpdate(ss: seq<State>, ms: seq<Move>, k: nat, i: nat)
    requires Recorded(ss, ms) && k < |ss|
    ensures Along(ss, ms, k, By(Asks, i)) == Along(ss, ms, k, By(Publishes, i)) + Brought(i)(ss[k])
  {
    forall j | 0 <= j < |ms| ensures KeepsOrder(ss[j], ms[j], ss[j + 1], By(Asks, i), By(Publishes, i), Brought(i)) {
      MoveAt(ss, ms, j);
      WriterMove(ss[j], ms[j], ss[j + 1], i);
    }
    OrderAlong(ss, ms, k, By(Asks, i), By(Publishes, i), Brought(i));
  }

  function Current(s: State): Opt { s.mem.copy }

  /** The object's copy is the one published last, or the first one; none once the object is given up. */
  lemma PublishedLast(ss: seq<State>, ms: seq<Move>, k: nat)
    requires Recorded(ss, ms) && k < |ss|
    ensures ss[k].mem.copy == Last(Some(0), Along(ss, ms, k, Writes))
  {
    forall j | 0 <= j < |ms| ensures Shows(ss[j], ms[j], ss[j + 1], Writes, Current) {
      MoveAt(ss, ms, j);
    }
    LastAlong(ss, ms, k, Writes, Current);
  }

  // ---------- readers ----------

  /** What a reader has seen inside the lock is what the object holds. */
  ghost predicate Sees(p: Thread, copy: Opt) {
    && (p.RGot? ==> copy == Some(p.c))
    && (p.RHeld? ==> copy == p.ret)
  }

  ghost predicate AllSee(s: State) { forall i :: 0 <= i < |s.threads| ==> Sees(s.threads[i], s.mem.copy) }

  lemma ActSees(s: Memory, p: Thread, x: Choice)
    requires Safe(s, p) && Sees(p, s.copy)
    ensures Sees(Act(s, p, x).1, Act(s, p, x).0.copy)
    ensures !Writing(p) ==> Act(s, p, x).0.copy == s.copy
  {
  }

  lemma SeesStep(ss: seq<State>, ms: seq<Move>, k: nat)
    requires Recorded(ss, ms) && k < |ms| && AllSee(ss[k])
    ensures AllSee(ss[k + 1])
  {
    MoveAt(ss, ms, k);
    RecordedRuns(ss, ms);
    var s, m := ss[k], ms[k];
    ActSees(s.mem, s.threads[m.i], m.x);
    if Writing(s.threads[m.i]) {
      forall j: nat | j < |s.threads| && j != m.i ensures !Reading(s.threads[j]) { Exclusion(ss, k, m.i, j); }
    }
  }

  lemma {:induction false} AlwaysSees(ss: seq<State>, ms: seq<Move>, k: nat)
    requires Recorded(ss, ms) && k < |ss|
    ensures AllSee(ss[k])
  {
    if k > 0 {
      AlwaysSees(ss, ms, k - 1);
      SeesStep(ss, ms, k - 1);
    }
  }

  /** A reader leaves the lock with a copy, or with none. */
  function Leaves(s: State, m: Move): seq<Opt> {
    var p := At(s, m.i);
    if p.RHeld? then [p.ret] else []
  }

  /** Every copy with which a reader leaves the lock is the current one at that moment: the one published last. */
  lemma ReadsCurrent(ss: seq<State>, ms: seq<Move>, k: nat)
    requires Recorded(ss, ms) && k < |ms| && Leaves(ss[k], ms[k]) != []
    ensures ss[k].mem.copy == ss[k + 1].mem.copy == Last(Some(0), Along(ss, ms, k, Writes))
    ensures Leaves(ss[k], ms[k]) == [ss[k].mem.copy]
  {
    AlwaysSees(ss, ms, k);
    PublishedLast(ss, ms, k);
    MoveAt(ss, ms, k);
    ActSees(ss[k].mem, ss[k].threads[ms[k].i], ms[k].x);
  }

  /** Thread `i` left the lock with `ret` in move `j`, and has gone no further up to state `k`. */
  ghost predicate Left(ss: seq<State>, ms: seq<Move>, j: nat, k: nat, i: nat, ret: Opt)
    requires j < k < |ss| == |ms| + 1
  {
    && ms[j].i == i && Leaves(ss[j], ms[j]) == [ret]
    && forall l :: j < l <= k ==> At(ss[l], i).RCompare? && At(ss[l], i).ret == ret
  }

  lemma ComparesMove(s: State, m: Move, s': State, i: nat)
    requires Moved(s, m, s') && At(s', i).RCompare?
    ensures if m.i == i then Leaves(s, m) == [At(s', i).ret] else At(s, i) == At(s', i)
  {
  }

  /** The copy that a reader compares is the one that was current when it left the lock. */
  lemma {:induction false} ComparesCurrent(ss: seq<State>, ms: seq<Move>, k: nat, i: nat) returns (j: nat)
    requires Recorded(ss, ms) && k < |ss| && At(ss[k], i).RCompare?
    ensures j < k && Left(ss, ms, j, k, i, At(ss[k], i).ret) && At(ss[k], i).ret == ss[j].mem.copy
  {
    assert k > 0;
    MoveAt(ss, ms, k - 1);
    ComparesMove(ss[k - 1], ms[k - 1], ss[k], i);
    if ms[k - 1].i == i {
      j := k - 1;
      ReadsCurrent(ss, ms, j);
    } else {
      j := ComparesCurrent(ss, ms, k - 1, i);
    }
  }

  /** A reader is asked to read. */
  function Wants(s: State, m: Move): seq<nat> { if At(s, m.i).Reader? && m.x.Read? then [m.i] else [] }

  /** It leaves the lock. */
  function Ends(s: State, m: Move): seq<nat> { if At(s, m.i).RHeld? then [m.i] else [] }

  function BusyBy(p: Thread, i: nat): seq<nat> {
    if p.RSpin? || p.RAdded? || p.RUndo? || p.RIn? || p.RGot? || p.RHeld? then [i] else []
  }

  /** Thread `i` is on its way through the lock. */
  function Busy(i: nat): State -> seq<nat> { (s: State) => BusyBy(At(s, i), i) }

  lemma ReadOwn(s: State, m: Move, s': State)
    requires Moved(s, m, s')
    ensures BusyBy(At(s, m.i), m.i) + Wants(s, m) == Ends(s, m) + BusyBy(At(s', m.i), m.i)
  {
    assert At(s', m.i) == Act(s.mem, s.threads[m.i], m.x).1;
  }

  lemma ReadMove(s: State, m: Move, s': State, i: nat)
    requires Moved(s, m, s')
    ensures KeepsOrder(s, m, s', By(Wants, i), By(Ends, i), Busy(i))
  {
    if m.i == i { ReadOwn(s, m, s'); } else { assert At(s', i) == At(s, i); }
  }

  /** Each read passes through the lock exactly once, or is on its way. */
  lemma EveryRead(ss: seq<State>, ms: seq<Move>, k: nat, i: nat)
    requires Recorded(ss, ms) && k < |ss|
    ensures Along(ss, ms, k, By(Wants, i)) == Along(ss, ms, k, By(Ends, i)) + Busy(i)(ss[k])
  {
    forall j | 0 <= j < |ms| ensures KeepsOrder(ss[j], ms[j], ss[j + 1], By(Wants, i), By(Ends, i), Busy(i)) {
      MoveAt(ss, ms, j);
      ReadMove(ss[j], ms[j], ss[j + 1], i);
    }
    OrderAlong(ss, ms, k, By(Wants, i), By(Ends, i), Busy(i));
  }

  /** What a reader goes on with: the copy it left the lock with, or none when it stops. */
  function Turns(s: State, m: Move): seq<Opt> {
    if At(s, m.i).Reader? && m.x.Quit? then [None] else Leaves(s, m)
  }

  function KeptBy(p: Thread): Opt {
    match p
    case Reader(l) => l
    case RSpin(l) => l
    case RAdded(l) => l
    case RUndo(l) => l
    case RIn(l) => l
    case RGot(l, _) => l
    case RHeld(l, _) => l
    case RCompare(_, r) => r
    case RRelease(_, r) => r
    case RFree(_, r) => r
    case _ => None
  }

  /** The copy that thread `i` goes on with. */
  function Kept(i: nat): State -> Opt { (s: State) => KeptBy(At(s, i)) }

  lemma ActKeeps(s: Memory, p: Thread, x: Choice)
    requires Safe(s, p)
    ensures KeptBy(Act(s, p, x).1) == (if p.Reader? && x.Quit? then None else if p.RHeld? then p.ret else KeptBy(p))
  {
  }

  lemma ReaderOwn(s: State, m: Move, s': State)
    requires Moved(s, m, s')
    ensures |Turns(s, m)| <= 1 && KeptBy(At(s', m.i)) == Last(KeptBy(At(s, m.i)), Turns(s, m))
  {
    ActKeeps(s.mem, s.threads[m.i], m.x);
    assert At(s', m.i) == Act(s.mem, s.threads[m.i], m.x).1;
  }

  lemma ReaderMove(s: State, m: Move, s': State, i: nat)
    requires Moved(s, m, s')
    ensures Shows(s, m, s', By(Turns, i), Kept(i))
  {
    if m.i == i { ReaderOwn(s, m, s'); } else { assert At(s', i) == At(s, i); }
  }

  /** A reader goes on with the copy it read last. */
  lemma KeepsLast(ss: seq<State>, ms: seq<Move>, k: nat, i: nat)
    requires Recorded(ss, ms) && k < |ss|
    ensures KeptBy(At(ss[k], i)) == Last(None, Along(ss, ms, k, By(Turns, i)))
  {
    forall j | 0 <= j < |ms| ensures Shows(ss[j], ms[j], ss[j + 1], By(Turns, i), Kept(i)) {
      MoveAt(ss, ms, j);
      ReaderMove(ss[j], ms[j], ss[j + 1], i);
    }
    LastAlong(ss, ms, k, By(Turns, i), Kept(i));
  }
}
