/** Every step in time of every thread is safe and keeps the invariant; which steps can be out of time. */
module SchedulerTheorem {
  import opened Mailbox
  import opened Counting
  import opened Scheduler
  import opened SchedulerProof

  /** A call that names a handle and a mailbox names the mailbox of that handle. */
  ghost predicate Pair(p: Frame, logs: map<nat, Log>) {
    p.Loop? || p.Measure? || p.Deliver? || p.Running? || p.Finish? || p.Requeue? || p.Init? || p.Ready? || p.Undo? ==>
      p.h in logs && logs[p.h].queue == p.q
  }

  ghost predicate Paired(stack: seq<Frame>, logs: map<nat, Log>) {
    forall k :: 0 <= k < |stack| ==> Pair(stack[k], logs)
  }

  /** Handles keep the address of their mailbox for good. */
  ghost predicate Grows(logs: map<nat, Log>, logs': map<nat, Log>) {
    forall h :: h in logs ==> h in logs' && logs'[h].queue == logs[h].queue
  }

  type Weight = Frame -> multiset<Key>

  /** `Here`, asked for one call at a time. */
  ghost predicate Weighs(w: Weight) { forall p :: Weighed(w, p) }

  ghost predicate Weighed(w: Weight, p: Frame) { w(p) == Here(p) }

  lemma WEnd(w: Weight)
    requires Weighs(w)
    ensures w(End) == multiset{}
  {
    assert Weighed(w, End);
  }

  lemma WWorker(w: Weight)
    requires Weighs(w)
    ensures w(Worker) == multiset{}
  {
    assert Weighed(w, Worker);
  }

  lemma WDispatch(w: Weight, q: nat)
    requires Weighs(w)
    ensures w(Dispatch(q)) == multiset{KOwn(q)}
  {
    assert Weighed(w, Dispatch(q));
  }

  lemma WLoop(w: Weight, q: nat, h: nat, i: nat, n: nat)
    requires Weighs(w)
    ensures w(Loop(q, h, i, n)) == multiset{KOwn(q), KActive(h)}
  {
    assert Weighed(w, Loop(q, h, i, n));
  }

  lemma WMeasure(w: Weight, q: nat, h: nat, m: Message, weight: nat)
    requires Weighs(w)
    ensures w(Measure(q, h, m, weight)) == multiset{KBusy(q), KActive(h), KPend(h, m)}
  {
    assert Weighed(w, Measure(q, h, m, weight));
  }

  lemma WDeliver(w: Weight, q: nat, h: nat, m: Message, i: nat, n: nat)
    requires Weighs(w)
    ensures w(Deliver(q, h, m, i, n)) == multiset{KBusy(q), KActive(h), KPend(h, m)}
  {
    assert Weighed(w, Deliver(q, h, m, i, n));
  }

  lemma WRunning(w: Weight, q: nat, h: nat, i: nat, n: nat)
    requires Weighs(w)
    ensures w(Running(q, h, i, n)) == multiset{KOwn(q), KActive(h)}
  {
    assert Weighed(w, Running(q, h, i, n));
  }

  lemma WFinish(w: Weight, q: nat, h: nat)
    requires Weighs(w)
    ensures w(Finish(q, h)) == multiset{KOwn(q), KActive(h)}
  {
    assert Weighed(w, Finish(q, h));
  }

  lemma WRequeue(w: Weight, q: nat, nq: nat, h: nat)
    requires Weighs(w)
    ensures w(Requeue(q, nq, h)) == multiset{KOwn(q), KOwn(nq), KActive(h)}
  {
    assert Weighed(w, Requeue(q, nq, h));
  }

  lemma WUnref(w: Weight, h: nat)
    requires Weighs(w)
    ensures w(Unref(h)) == multiset{KRef(h)}
  {
    assert Weighed(w, Unref(h));
  }

  lemma WMark(w: Weight, h: nat)
    requires Weighs(w)
    ensures w(Mark(h)) == multiset{KMark(h)}
  {
    assert Weighed(w, Mark(h));
  }

  lemma WDelete(w: Weight, h: nat)
    requires Weighs(w)
    ensures w(Delete(h)) == multiset{KDelete(h)}
  {
    assert Weighed(w, Delete(h));
  }

  lemma WRelease(w: Weight, q: nat)
    requires Weighs(w)
    ensures w(Release(q)) == multiset{KOwn(q)}
  {
    assert Weighed(w, Release(q));
  }

  lemma WDrop(w: Weight, q: nat)
    requires Weighs(w)
    ensures w(Drop(q)) == multiset{KDrop(q)}
  {
    assert Weighed(w, Drop(q));
  }

  lemma WFree(w: Weight, q: nat)
    requires Weighs(w)
    ensures w(Free(q)) == multiset{KFree(q)}
  {
    assert Weighed(w, Free(q));
  }

  lemma WSend(w: Weight, h: nat, m: Message)
    requires Weighs(w)
    ensures w(Send(h, m)) == multiset{}
  {
    assert Weighed(w, Send(h, m));
  }

  lemma WPush(w: Weight, h: nat, m: Message)
    requires Weighs(w)
    ensures w(Push(h, m)) == multiset{KRef(h)}
  {
    assert Weighed(w, Push(h, m));
  }

  lemma WRetire(w: Weight, h: nat)
    requires Weighs(w)
    ensures w(Retire(h)) == multiset{}
  {
    assert Weighed(w, Retire(h));
  }

  lemma WCreate(w: Weight, h: nat)
    requires Weighs(w)
    ensures w(Create(h)) == multiset{KMake(h)}
  {
    assert Weighed(w, Create(h));
  }

  lemma WInit(w: Weight, h: nat, q: nat)
    requires Weighs(w)
    ensures w(Init(h, q)) == multiset{KNew(q), KHome(h), KRef(h)}
  {
    assert Weighed(w, Init(h, q));
  }

  lemma WReady(w: Weight, h: nat, q: nat)
    requires Weighs(w)
    ensures w(Ready(h, q)) == multiset{KNew(q), KHome(h)}
  {
    assert Weighed(w, Ready(h, q));
  }

  lemma WPublish(w: Weight, q: nat)
    requires Weighs(w)
    ensures w(Publish(q)) == multiset{KOwn(q)}
  {
    assert Weighed(w, Publish(q));
  }

  lemma WUndo(w: Weight, h: nat, q: nat)
    requires Weighs(w)
    ensures w(Undo(h, q)) == multiset{KNew(q), KHome(h)}
  {
    assert Weighed(w, Undo(h, q));
  }

  lemma WAnnounce(w: Weight, h: nat)
    requires Weighs(w)
    ensures w(Announce(h)) == multiset{}
  {
    assert Weighed(w, Announce(h));
  }

  lemma WSign(w: Weight, h: nat, logger: nat)
    requires Weighs(w)
    ensures w(Sign(h, logger)) == multiset{}
  {
    assert Weighed(w, Sign(h, logger));
  }

  lemma WAnswer(w: Weight, h: nat)
    requires Weighs(w)
    ensures w(Answer(h)) == multiset{}
  {
    assert Weighed(w, Answer(h));
  }

  /** What the at most two calls hold that replace a call. */
  ghost function HeldBy(w: Weight, next: seq<Frame>): multiset<Key>
    requires |next| <= 2
  {
    if |next| == 0 then multiset{} else if |next| == 1 then w(next[0]) else w(next[0]) + w(next[1])
  }

  lemma HeldBySum(w: Weight, next: seq<Frame>)
    requires |next| <= 2
    ensures HeldBy(w, next) == Sum(next, w)
  {
    if |next| == 1 {
      assert next == [] + [next[0]];
      SumAppend([], [next[0]], w);
      assert Sum([next[0]], w) == Sum([], w) + w(next[0]);
    } else if |next| == 2 {
      assert next == [next[0]] + [next[1]];
      SumAppend([next[0]], [next[1]], w);
    }
  }

  /** A call `p` of some thread, where all threads together hold `n`. */
  ghost predicate Among(w: Weight, s: Memory, n: multiset<Key>, p: Frame) {
    Weighs(w) && Inv(s, n) && w(p) <= n && Pair(p, s.logs)
  }

  /** A step from `s` and `p` to `t` is fine. */
  ghost predicate Fine(w: Weight, s: Memory, n: multiset<Key>, p: Frame, t: (Memory, seq<Frame>)) {
    && |t.1| <= 2 && Inv(t.0, Change(n, w(p), HeldBy(w, t.1)))
    && Paired(t.1, t.0.logs) && Grows(s.logs, t.0.logs)
  }

  lemma Same(n: multiset<Key>, a: multiset<Key>)
    requires a <= n
    ensures Change(n, a, a) == n
  {
  }

  /** The mailbox and the context of a running dispatch loop exist. */
  lemma ActiveServing(s: Memory, n: multiset<Key>, q: nat, h: nat)
    requires Inv(s, n) && n[KActive(h)] > 0 && h in s.logs && s.logs[h].queue == q
    ensures Serving(s, q, h) && s.ctxs[h].init && !s.queues[q].release
  {
    assert HandleOk(s, n, h);
  }

  /** A step that leaves the memory and what the threads hold as they are. */
  lemma SameFine(w: Weight, s: Memory, n: multiset<Key>, p: Frame, next: seq<Frame>)
    requires Among(w, s, n, p) && |next| <= 2 && HeldBy(w, next) == w(p) && Paired(next, s.logs)
    ensures Fine(w, s, n, p, (s, next))
  {
    Same(n, w(p));
  }

  /** A step that turns the counts into `n'`. */
  lemma Concludes(w: Weight, s: Memory, n: multiset<Key>, p: Frame, t: (Memory, seq<Frame>), n': multiset<Key>)
    requires |t.1| <= 2 && Inv(t.0, n') && n' == Change(n, w(p), HeldBy(w, t.1))
    requires Paired(t.1, t.0.logs) && Grows(s.logs, t.0.logs)
    ensures Fine(w, s, n, p, t)
  {
  }

  lemma ReleaseKeys(w: Weight, q: nat)
    requires Weighs(w)
    ensures HeldBy(w, [Worker, Release(q)]) == w(Dispatch(q))
  {
    WWorker(w);
    WRelease(w, q);
    WDispatch(w, q);
  }

  lemma InitFailKeys(w: Weight, h: nat, q: nat)
    requires Weighs(w)
    ensures HeldBy(w, [Undo(h, q), Unref(h)]) == w(Init(h, q))
  {
    WUndo(w, h, q);
    WUnref(w, h);
    WInit(w, h, q);
  }

  lemma CallKeys(w: Weight, p: Frame, x: Frame)
    requires Weighs(w) && (x.Send? || x.Retire?)
    ensures HeldBy(w, [p, x]) == w(p)
  {
    if x.Send? { WSend(w, x.h, x.m); } else { WRetire(w, x.h); }
  }

  lemma WorkerFine(w: Weight, s: Memory, n: multiset<Key>, p: Frame, c: Choice)
    requires Among(w, s, n, p) && c.Go? && p.Worker?
    ensures Safe(s, p) && Fine(w, s, n, p, Act(s, p, c))
  {
    WWorker(w);
    if s.global == [] {
      SameFine(w, s, n, p, [p]);
    } else {
      DequeueKeeps(s, n);
      WDispatch(w, s.global[0]);
      Concludes(w, s, n, p, Act(s, p, c), Change(n, multiset{}, multiset{KOwn(s.global[0])}));
    }
  }

  lemma DispatchKeys(w: Weight, n: multiset<Key>, p: Frame, q: nat, h: nat)
    requires Weighs(w) && p == Dispatch(q) && w(p) <= n
    ensures Change(n, multiset{}, multiset{KActive(h)}) == Change(n, w(p), HeldBy(w, [Loop(q, h, 0, 1)]))
  {
    WLoop(w, q, h, 0, 1);
    WDispatch(w, p.q);
  }

  lemma DispatchFine(w: Weight, s: Memory, n: multiset<Key>, p: Frame, c: Choice)
    requires Among(w, s, n, p) && c.Go? && p.Dispatch?
    ensures Safe(s, p) && Fine(w, s, n, p, Act(s, p, c))
  {
    WDispatch(w, p.q);
    var q := p.q;
    assert QueueOk(s, n, q);
    var h := s.queues[q].handle;
    assert HandleOk(s, n, h);
    if h in s.table {
      ServeKeeps(s, n, q);
      DispatchKeys(w, n, p, q, h);
      Concludes(w, s, n, p, Act(s, p, c), Change(n, multiset{}, multiset{KActive(h)}));
    } else {
      ReleaseKeys(w, q);
      SameFine(w, s, n, p, [Worker, Release(q)]);
    }
  }

  lemma GiveUpKeys(w: Weight, n: multiset<Key>, p: Frame, q: nat, h: nat)
    requires Weighs(w) && p.Loop? && p.q == q && p.h == h && w(p) <= n
    ensures Change(Change(n, multiset{KOwn(q)}, multiset{}), multiset{KActive(h)}, multiset{KRef(h)}) == Change(n, w(p), HeldBy(w, [Worker, Unref(h)]))
  {
    WWorker(w);
    WUnref(w, h);
    WLoop(w, p.q, p.h, p.i, p.n);
  }

  lemma GiveUpFine(w: Weight, s: Memory, n: multiset<Key>, p: Frame, c: Choice)
    requires Among(w, s, n, p) && c.Go? && p.Loop? && p.q in s.queues && p.i < p.n && s.queues[p.q].msgs == []
    ensures Safe(s, p) && Fine(w, s, n, p, Act(s, p, c))
  {
    WLoop(w, p.q, p.h, p.i, p.n);
    var Loop(q, h, i, z) := p;
    ActiveServing(s, n, q, h);
    GiveUpKeeps(s, n, q);
    LeaveKeeps(TakeNone(s, q), Change(n, multiset{KOwn(q)}, multiset{}), h);
    GiveUpKeys(w, n, p, q, h);
    Concludes(w, s, n, p, Act(s, p, c), Change(Change(n, multiset{KOwn(q)}, multiset{}), multiset{KActive(h)}, multiset{KRef(h)}));
  }

  lemma TakeKeys(w: Weight, n: multiset<Key>, p: Frame, q: nat, h: nat, m: Message, p': Frame)
    requires Weighs(w) && p.Loop? && p.q == q && p.h == h && (p'.Measure? || p'.Deliver?) && p'.q == q && p'.h == h && p'.m == m && w(p) <= n
    ensures Change(n, multiset{KOwn(q)}, multiset{KBusy(q), KPend(h, m)}) == Change(n, w(p), HeldBy(w, [p']))
  {
    assert p == Loop(q, h, p.i, p.n);
    WLoop(w, q, h, p.i, p.n);
    assert w(p') == multiset{KBusy(q), KActive(h), KPend(h, m)} by {
      if p'.Measure? { WMeasure(w, q, h, m, p'.weight); } else { WDeliver(w, q, h, m, p'.i, p'.n); }
    }
    Traded(n, KOwn(q), KActive(h), KBusy(q), KPend(h, m));
  }

  lemma Traded(n: multiset<Key>, own: Key, active: Key, busy: Key, pend: Key)
    requires multiset{own, active} <= n
    ensures n - multiset{own} + multiset{busy, pend} == n - multiset{own, active} + multiset{busy, active, pend}
  {
  }

  lemma TakeFine(w: Weight, s: Memory, n: multiset<Key>, p: Frame, c: Choice)
    requires Among(w, s, n, p) && c.Go? && p.Loop? && p.q in s.queues && p.i < p.n && s.queues[p.q].msgs != []
    ensures Safe(s, p) && Fine(w, s, n, p, Act(s, p, c))
  {
    WLoop(w, p.q, p.h, p.i, p.n);
    var Loop(q, h, i, z) := p;
    ActiveServing(s, n, q, h);
    TakeKeeps(s, n, q);
    TakeKeys(w, n, p, q, h, s.queues[q].msgs[0], Act(s, p, c).1[0]);
    Concludes(w, s, n, p, Act(s, p, c), Change(n, multiset{KOwn(q)}, multiset{KBusy(q), KPend(h, s.queues[q].msgs[0])}));
  }

  lemma LoopFine(w: Weight, s: Memory, n: multiset<Key>, p: Frame, c: Choice)
    requires Among(w, s, n, p) && c.Go? && p.Loop?
    ensures Safe(s, p) && Fine(w, s, n, p, Act(s, p, c))
  {
    WLoop(w, p.q, p.h, p.i, p.n);
    var Loop(q, h, i, z) := p;
    ActiveServing(s, n, q, h);
    if i >= z {
      WFinish(w, q, h);
      SameFine(w, s, n, p, [Finish(q, h)]);
    } else if s.queues[q].msgs == [] {
      GiveUpFine(w, s, n, p, c);
    } else {
      TakeFine(w, s, n, p, c);
    }
  }

  lemma ServingFine(w: Weight, s: Memory, n: multiset<Key>, p: Frame, c: Choice)
    requires Among(w, s, n, p) && c.Go? && (p.Measure? || p.Running?)
    ensures Safe(s, p) && Fine(w, s, n, p, Act(s, p, c))
  {
    if p.Measure? { WMeasure(w, p.q, p.h, p.m, p.weight); } else { WRunning(w, p.q, p.h, p.i, p.n); }
    ActiveServing(s, n, p.q, p.h);
    var x := Act(s, p, c).1[0];
    if x.Deliver? { WDeliver(w, x.q, x.h, x.m, x.i, x.n); } else { WLoop(w, x.q, x.h, x.i, x.n); }
    SameFine(w, s, n, p, Act(s, p, c).1);
  }

  lemma DeliverKeys(w: Weight, n: multiset<Key>, p: Frame, q: nat, h: nat, m: Message)
    requires Weighs(w) && p.Deliver? && p.q == q && p.h == h && p.m == m && w(p) <= n
    ensures Change(n, multiset{KBusy(q), KPend(h, m)}, multiset{KOwn(q)}) == Change(n, w(p), HeldBy(w, [Running(q, h, p.i, p.n)]))
  {
    WRunning(w, q, h, p.i, p.n);
    WDeliver(w, p.q, p.h, p.m, p.i, p.n);
  }

  lemma DeliverFine(w: Weight, s: Memory, n: multiset<Key>, p: Frame, c: Choice)
    requires Among(w, s, n, p) && c.Go? && p.Deliver?
    ensures Safe(s, p) && Fine(w, s, n, p, Act(s, p, c))
  {
    WDeliver(w, p.q, p.h, p.m, p.i, p.n);
    var Deliver(q, h, m, i, z) := p;
    ActiveServing(s, n, q, h);
    BeginKeeps(s, n, q, h, m);
    DeliverKeys(w, n, p, q, h, m);
    Concludes(w, s, n, p, Act(s, p, c), Change(n, multiset{KBusy(q), KPend(h, m)}, multiset{KOwn(q)}));
  }

  lemma KeepKeys(w: Weight, n: multiset<Key>, p: Frame, q: nat, h: nat)
    requires Weighs(w) && p == Finish(q, h) && w(p) <= n
    ensures Change(n, multiset{KActive(h)}, multiset{KRef(h)}) == Change(n, w(p), HeldBy(w, [Dispatch(q), Unref(h)]))
  {
    WDispatch(w, q);
    WUnref(w, h);
    WFinish(w, p.q, p.h);
  }

  lemma KeepFine(w: Weight, s: Memory, n: multiset<Key>, p: Frame, c: Choice)
    requires Among(w, s, n, p) && c.Go? && p.Finish? && s.global == []
    ensures Safe(s, p) && Fine(w, s, n, p, Act(s, p, c))
  {
    WFinish(w, p.q, p.h);
    var Finish(q, h) := p;
    ActiveServing(s, n, q, h);
    LeaveKeeps(s, n, h);
    KeepKeys(w, n, p, q, h);
    Concludes(w, s, n, p, Act(s, p, c), Change(n, multiset{KActive(h)}, multiset{KRef(h)}));
  }

  lemma NextKeys(w: Weight, n: multiset<Key>, p: Frame, q: nat, h: nat, nq: nat)
    requires Weighs(w) && p == Finish(q, h) && w(p) <= n
    ensures Change(n, multiset{}, multiset{KOwn(nq)}) == Change(n, w(p), HeldBy(w, [Requeue(q, nq, h)]))
  {
    WRequeue(w, q, nq, h);
    WFinish(w, p.q, p.h);
  }

  lemma NextFine(w: Weight, s: Memory, n: multiset<Key>, p: Frame, c: Choice)
    requires Among(w, s, n, p) && c.Go? && p.Finish? && s.global != []
    ensures Safe(s, p) && Fine(w, s, n, p, Act(s, p, c))
  {
    WFinish(w, p.q, p.h);
    var Finish(q, h) := p;
    ActiveServing(s, n, q, h);
    DequeueKeeps(s, n);
    NextKeys(w, n, p, q, h, s.global[0]);
    Concludes(w, s, n, p, Act(s, p, c), Change(n, multiset{}, multiset{KOwn(s.global[0])}));
  }

  lemma RequeueKeys(w: Weight, n: multiset<Key>, p: Frame, q: nat, nq: nat, h: nat)
    requires Weighs(w) && p == Requeue(q, nq, h) && w(p) <= n
    ensures Change(Change(n, multiset{KOwn(q)}, multiset{}), multiset{KActive(h)}, multiset{KRef(h)}) == Change(n, w(p), HeldBy(w, [Dispatch(nq), Unref(h)]))
  {
    WDispatch(w, nq);
    WUnref(w, h);
    WRequeue(w, p.q, p.nq, p.h);
  }

  lemma RequeueFine(w: Weight, s: Memory, n: multiset<Key>, p: Frame, c: Choice)
    requires Among(w, s, n, p) && c.Go? && p.Requeue?
    ensures Safe(s, p) && Fine(w, s, n, p, Act(s, p, c))
  {
    WRequeue(w, p.q, p.nq, p.h);
    var Requeue(q, nq, h) := p;
    ActiveServing(s, n, q, h);
    EnqueueKeeps(s, n, q);
    LeaveKeeps(Enqueue(s, q), Change(n, multiset{KOwn(q)}, multiset{}), h);
    RequeueKeys(w, n, p, q, nq, h);
    Concludes(w, s, n, p, Act(s, p, c), Change(Change(n, multiset{KOwn(q)}, multiset{}), multiset{KActive(h)}, multiset{KRef(h)}));
  }

  lemma UnrefFine(w: Weight, s: Memory, n: multiset<Key>, p: Frame, c: Choice)
    requires Among(w, s, n, p) && c.Go? && p.Unref?
    ensures Safe(s, p) && Fine(w, s, n, p, Act(s, p, c))
  {
    WUnref(w, p.h);
    WMark(w, p.h);
    UnrefKeeps(s, n, p.h);
  }

  lemma MarkFine(w: Weight, s: Memory, n: multiset<Key>, p: Frame, c: Choice)
    requires Among(w, s, n, p) && c.Go? && p.Mark?
    ensures Safe(s, p) && Fine(w, s, n, p, Act(s, p, c))
  {
    WMark(w, p.h);
    WDelete(w, p.h);
    MarkKeeps(s, n, p.h);
  }

  lemma DeleteFine(w: Weight, s: Memory, n: multiset<Key>, p: Frame, c: Choice)
    requires Among(w, s, n, p) && c.Go? && p.Delete?
    ensures Safe(s, p) && Fine(w, s, n, p, Act(s, p, c))
  {
    WDelete(w, p.h);
    DeleteKeeps(s, n, p.h);
  }

  lemma PublishFine(w: Weight, s: Memory, n: multiset<Key>, p: Frame, c: Choice)
    requires Among(w, s, n, p) && c.Go? && p.Publish?
    ensures Safe(s, p) && Fine(w, s, n, p, Act(s, p, c))
  {
    WPublish(w, p.q);
    EnqueueKeeps(s, n, p.q);
  }

  lemma ReleaseFine(w: Weight, s: Memory, n: multiset<Key>, p: Frame, c: Choice)
    requires Among(w, s, n, p) && c.Go? && p.Release?
    ensures Safe(s, p) && Fine(w, s, n, p, Act(s, p, c))
  {
    WRelease(w, p.q);
    EnqueueKeeps(s, n, p.q);
    if s.queues[p.q].release {
      CloseKeeps(s, n, p.q);
      WDrop(w, p.q);
      Concludes(w, s, n, p, Act(s, p, c), Change(n, multiset{KOwn(p.q)}, multiset{KDrop(p.q)}));
    } else {
      Concludes(w, s, n, p, Act(s, p, c), Change(n, multiset{KOwn(p.q)}, multiset{}));
    }
  }

  /** The context of a mailbox that is being dropped is gone. */
  lemma DroppingClosed(s: Memory, n: multiset<Key>, q: nat)
    requires Inv(s, n) && n[KDrop(q)] + n[KFree(q)] > 0
    ensures q in s.queues && Closed(s, q) && q !in s.global
    ensures n[KFree(q)] > 0 ==> s.queues[q].msgs == []
  {
    assert QueueOk(s, n, q);
    assert HandleOk(s, n, s.queues[q].handle);
  }

  lemma DropEndKeys(w: Weight, n: multiset<Key>, p: Frame, q: nat)
    requires Weighs(w) && p == Drop(q)
    ensures Change(n, multiset{KDrop(q)}, multiset{KFree(q)}) == Change(n, w(p), HeldBy(w, [Free(q)]))
  {
    WFree(w, q);
    WDrop(w, p.q);
  }

  lemma DropEndFine(w: Weight, s: Memory, n: multiset<Key>, p: Frame, c: Choice)
    requires Among(w, s, n, p) && c.Go? && p.Drop? && Safe(s, p) && s.queues[p.q].msgs == []
    ensures Fine(w, s, n, p, Act(s, p, c))
  {
    WDrop(w, p.q);
    DropEndKeeps(s, n, p.q);
    DropEndKeys(w, n, p, p.q);
    Concludes(w, s, n, p, Act(s, p, c), Change(n, multiset{KDrop(p.q)}, multiset{KFree(p.q)}));
  }

  lemma DropOneFine(w: Weight, s: Memory, n: multiset<Key>, p: Frame, c: Choice)
    requires Among(w, s, n, p) && c.Go? && p.Drop? && Safe(s, p) && s.queues[p.q].msgs != []
    ensures Fine(w, s, n, p, Act(s, p, c))
  {
    WDrop(w, p.q);
    DropKeeps(s, n, p.q);
    Same(n, w(p));
    Concludes(w, s, n, p, Act(s, p, c), n);
  }

  lemma DropFine(w: Weight, s: Memory, n: multiset<Key>, p: Frame, c: Choice)
    requires Among(w, s, n, p) && c.Go? && p.Drop?
    ensures Safe(s, p) && Fine(w, s, n, p, Act(s, p, c))
  {
    WDrop(w, p.q);
    DroppingClosed(s, n, p.q);
    if s.queues[p.q].msgs == [] { DropEndFine(w, s, n, p, c); } else { DropOneFine(w, s, n, p, c); }
  }

  lemma FreeFine(w: Weight, s: Memory, n: multiset<Key>, p: Frame, c: Choice)
    requires Among(w, s, n, p) && c.Go? && p.Free?
    ensures Safe(s, p) && Fine(w, s, n, p, Act(s, p, c))
  {
    WFree(w, p.q);
    DroppingClosed(s, n, p.q);
    FreeKeeps(s, n, p.q);
  }

  lemma SendFine(w: Weight, s: Memory, n: multiset<Key>, p: Frame, c: Choice)
    requires Among(w, s, n, p) && c.Go? && p.Send?
    ensures Safe(s, p) && Fine(w, s, n, p, Act(s, p, c))
  {
    WSend(w, p.h, p.m);
    assert HandleOk(s, n, p.h);
    Same(n, multiset{});
    if p.h in s.table {
      WPush(w, p.h, p.m);
      GrabKeeps(s, n, p.h);
    }
  }

  lemma PushFine(w: Weight, s: Memory, n: multiset<Key>, p: Frame, c: Choice)
    requires Among(w, s, n, p) && c.Go? && p.Push? && n[KMake(p.h)] == 0
    ensures Safe(s, p) && Fine(w, s, n, p, Act(s, p, c))
  {
    WPush(w, p.h, p.m);
    WUnref(w, p.h);
    PushKeeps(s, n, p.h, p.m);
    Same(n, w(p));
    Concludes(w, s, n, p, Act(s, p, c), n);
  }

  lemma RetireFine(w: Weight, s: Memory, n: multiset<Key>, p: Frame, c: Choice)
    requires Among(w, s, n, p) && c.Go? && p.Retire?
    ensures Safe(s, p) && Fine(w, s, n, p, Act(s, p, c))
  {
    WRetire(w, p.h);
    assert HandleOk(s, n, p.h);
    Same(n, multiset{});
    if p.h in s.table {
      WUnref(w, p.h);
      RetireKeeps(s, n, p.h);
    }
  }

  /** The mailbox of a service under construction is that of its handle. */
  lemma NewServing(s: Memory, n: multiset<Key>, h: nat, q: nat)
    requires Inv(s, n) && n[KHome(h)] > 0 && h in s.logs && s.logs[h].queue == q
    ensures q in s.queues && s.queues[q].handle == h
    ensures h in s.ctxs ==> s.ctxs[h].made && s.ctxs[h].queue == q
  {
    assert LogOk(s, n, h);
    assert HandleOk(s, n, h);
  }

  lemma InitGoneKeys(w: Weight, n: multiset<Key>, p: Frame, h: nat, q: nat)
    requires Weighs(w) && p == Init(h, q) && w(p) <= n
    ensures Change(Change(n, multiset{KRef(h)}, multiset{KMark(h)}), multiset{KNew(q), KHome(h)}, multiset{KOwn(q)}) == Change(n, w(p), HeldBy(w, [Publish(q), Mark(h)]))
  {
    WPublish(w, q);
    WMark(w, h);
    WInit(w, p.h, p.q);
  }

  lemma InitGoneFine(w: Weight, s: Memory, n: multiset<Key>, p: Frame, c: Choice)
    requires Among(w, s, n, p) && c.Go? && p.Init? && c.ok && p.h in s.ctxs && s.ctxs[p.h].ref == 1
    ensures Safe(s, p) && Fine(w, s, n, p, Act(s, p, c))
  {
    WInit(w, p.h, p.q);
    var Init(h, q) := p;
    NewServing(s, n, h, q);
    UnrefKeeps(s, n, h);
    var s1, n1 := DropRef(s, h), Change(n, multiset{KRef(h)}, multiset{KMark(h)});
    assert HandleOk(s1, n1, h);
    HandOverKeeps(s1, n1, h, q);
    InitGoneKeys(w, n, p, h, q);
    Concludes(w, s, n, p, Act(s, p, c), Change(n1, multiset{KNew(q), KHome(h)}, multiset{KOwn(q)}));
  }

  lemma InitOkKeys(w: Weight, n: multiset<Key>, p: Frame, h: nat, q: nat)
    requires Weighs(w) && p == Init(h, q) && w(p) <= n
    ensures Change(n, multiset{KRef(h)}, multiset{}) == Change(n, w(p), HeldBy(w, [Ready(h, q)]))
  {
    WReady(w, h, q);
    WInit(w, p.h, p.q);
  }

  lemma InitOkFine(w: Weight, s: Memory, n: multiset<Key>, p: Frame, c: Choice)
    requires Among(w, s, n, p) && c.Go? && p.Init? && c.ok
    ensures Safe(s, p) && Fine(w, s, n, p, Act(s, p, c))
  {
    WInit(w, p.h, p.q);
    var Init(h, q) := p;
    NewServing(s, n, h, q);
    UnrefKeeps(s, n, h);
    if s.ctxs[h].ref == 1 {
      InitGoneFine(w, s, n, p, c);
    } else {
      InitOkKeys(w, n, p, h, q);
      Concludes(w, s, n, p, Act(s, p, c), Change(n, multiset{KRef(h)}, multiset{}));
    }
  }

  lemma InitFailFine(w: Weight, s: Memory, n: multiset<Key>, p: Frame, c: Choice)
    requires Among(w, s, n, p) && c.Go? && p.Init? && !c.ok
    ensures Safe(s, p) && Fine(w, s, n, p, Act(s, p, c))
  {
    WInit(w, p.h, p.q);
    var Init(h, q) := p;
    NewServing(s, n, h, q);
    UnrefKeeps(s, n, h);
    InitFailKeys(w, h, q);
    SameFine(w, s, n, p, [Undo(h, q), Unref(h)]);
  }

  lemma ReadyFine(w: Weight, s: Memory, n: multiset<Key>, p: Frame, c: Choice)
    requires Among(w, s, n, p) && c.Go? && p.Ready? && p.h in s.ctxs
    ensures Safe(s, p) && Fine(w, s, n, p, Act(s, p, c))
  {
    WReady(w, p.h, p.q);
    var Ready(h, q) := p;
    NewServing(s, n, h, q);
    ReadyKeeps(s, n, h);
    HandOverKeeps(SetInit(s, h), n, h, q);
    WPublish(w, q);
    WAnnounce(w, h);
    AnnounceKeys(w, n, p, h, q);
    Concludes(w, s, n, p, Act(s, p, c), Change(n, multiset{KNew(q), KHome(h)}, multiset{KOwn(q)}));
  }

  lemma AnnounceKeys(w: Weight, n: multiset<Key>, p: Frame, h: nat, q: nat)
    requires Weighs(w) && p == Ready(h, q)
    ensures Change(n, multiset{KNew(q), KHome(h)}, multiset{KOwn(q)}) == Change(n, w(p), HeldBy(w, [Announce(h), Publish(q)]))
  {
    WReady(w, h, q);
    WAnnounce(w, h);
    WPublish(w, q);
  }

  /** The creator's last steps hold nothing. */
  lemma LastFine(w: Weight, s: Memory, n: multiset<Key>, p: Frame, c: Choice)
    requires Among(w, s, n, p) && c.Go? && (p.Announce? || p.Sign? || p.Answer?) && Safe(s, p)
    ensures Fine(w, s, n, p, Act(s, p, c))
  {
    WAnswer(w, p.h);
    match p {
      case Announce(h) =>
        WAnnounce(w, h);
        WSign(w, h, c.addr);
      case Sign(h, logger) =>
        WSign(w, h, logger);
        WSend(w, logger, Message(h, 0, 0));
      case Answer(_) =>
    }
    SameFine(w, s, n, p, Act(s, p, c).1);
  }

  lemma UndoKeys(w: Weight, n: multiset<Key>, p: Frame, h: nat, q: nat)
    requires Weighs(w) && p == Undo(h, q) && w(p) <= n
    ensures Change(Change(n, multiset{}, multiset{KRef(h)}), multiset{KNew(q), KHome(h)}, multiset{KOwn(q)}) == Change(n, w(p), HeldBy(w, [Release(q)] + [Unref(h)]))
  {
    WRelease(w, q);
    WUnref(w, h);
    WUndo(w, p.h, p.q);
  }

  lemma UndoTableFine(w: Weight, s: Memory, n: multiset<Key>, p: Frame, c: Choice)
    requires Among(w, s, n, p) && c.Go? && p.Undo? && Safe(s, p) && p.h in s.table
    ensures Fine(w, s, n, p, Act(s, p, c))
  {
    WUndo(w, p.h, p.q);
    var Undo(h, q) := p;
    RetireKeeps(s, n, h);
    var n1 := Change(n, multiset{}, multiset{KRef(h)});
    HandOverKeeps(s.(table := s.table - {h}), n1, h, q);
    UndoKeys(w, n, p, h, q);
    Concludes(w, s, n, p, Act(s, p, c), Change(n1, multiset{KNew(q), KHome(h)}, multiset{KOwn(q)}));
  }

  lemma UndoGoneKeys(w: Weight, n: multiset<Key>, p: Frame, h: nat, q: nat)
    requires Weighs(w) && p == Undo(h, q)
    ensures Change(n, multiset{KNew(q), KHome(h)}, multiset{KOwn(q)}) == Change(n, w(p), HeldBy(w, [Release(q)]))
  {
    WRelease(w, q);
    WUndo(w, p.h, p.q);
  }

  lemma UndoGoneFine(w: Weight, s: Memory, n: multiset<Key>, p: Frame, c: Choice)
    requires Among(w, s, n, p) && c.Go? && p.Undo? && Safe(s, p) && p.h !in s.table
    ensures Fine(w, s, n, p, Act(s, p, c))
  {
    WUndo(w, p.h, p.q);
    var Undo(h, q) := p;
    HandOverKeeps(s, n, h, q);
    UndoGoneKeys(w, n, p, h, q);
    Concludes(w, s, n, p, Act(s, p, c), Change(n, multiset{KNew(q), KHome(h)}, multiset{KOwn(q)}));
  }

  lemma UndoFine(w: Weight, s: Memory, n: multiset<Key>, p: Frame, c: Choice)
    requires Among(w, s, n, p) && c.Go? && p.Undo?
    ensures Safe(s, p) && Fine(w, s, n, p, Act(s, p, c))
  {
    WUndo(w, p.h, p.q);
    NewServing(s, n, p.h, p.q);
    assert HandleOk(s, n, p.h);
    if p.h in s.table { UndoTableFine(w, s, n, p, c); } else { UndoGoneFine(w, s, n, p, c); }
  }

  lemma Added(n: multiset<Key>, a: multiset<Key>, b: multiset<Key>)
    requires a <= n
    ensures Change(n, a, a + b) == Change(n, multiset{}, b)
  {
  }

  lemma RegisterInv(s: Memory, n: multiset<Key>, k: multiset<Key>, h: nat)
    requires Inv(s, n) && k <= n && h !in s.logs && h !in s.ctxs
    ensures Inv(Register(s, h), Change(n, k, k + multiset{KMake(h)}))
  {
    RegisterKeeps(s, n, h);
    Added(n, k, multiset{KMake(h)});
  }

  lemma PairedTwo(p: Frame, x: Frame, logs: map<nat, Log>, logs': map<nat, Log>)
    requires Pair(p, logs) && Grows(logs, logs') && Pair(x, logs')
    ensures Paired([p, x], logs')
  {
  }

  lemma HeldByTwo(w: Weight, p: Frame, x: Frame)
    ensures HeldBy(w, [p, x]) == w(p) + w(x)
  {
  }

  lemma LaunchFine(w: Weight, s: Memory, n: multiset<Key>, p: Frame, h: nat)
    requires Among(w, s, n, p) && h !in s.logs && h !in s.ctxs
    ensures Fine(w, s, n, p, (Register(s, h), [p, Create(h)]))
  {
    WCreate(w, h);
    RegisterInv(s, n, w(p), h);
    PairedTwo(p, Create(h), s.logs, s.logs);
    HeldByTwo(w, p, Create(h));
  }

  lemma CreateKeys(w: Weight, n: multiset<Key>, p: Frame, h: nat, q: nat)
    requires Weighs(w) && p == Create(h)
    ensures Change(n, multiset{KMake(h)}, multiset{KNew(q), KHome(h), KRef(h)}) == Change(n, w(p), HeldBy(w, [Init(h, q)]))
  {
    WInit(w, h, q);
    WCreate(w, p.h);
  }

  lemma CreateFine(w: Weight, s: Memory, n: multiset<Key>, p: Frame, c: Choice)
    requires Among(w, s, n, p) && c.Go? && p.Create?
    ensures Safe(s, p) && Fine(w, s, n, p, Act(s, p, c))
  {
    WCreate(w, p.h);
    assert HandleOk(s, n, p.h);
    if c.addr in s.queues {
      SameFine(w, s, n, p, [p]);
    } else {
      CreateKeeps(s, n, p.h, c.addr);
      CreateKeys(w, n, p, p.h, c.addr);
      Concludes(w, s, n, p, Act(s, p, c), Change(n, multiset{KMake(p.h)}, multiset{KNew(c.addr), KHome(p.h), KRef(p.h)}));
    }
  }

  lemma CallFine(w: Weight, s: Memory, n: multiset<Key>, p: Frame, x: Frame)
    requires Among(w, s, n, p) && (x.Send? || x.Retire?)
    ensures Fine(w, s, n, p, (s, [p, x]))
  {
    CallKeys(w, p, x);
    PairedTwo(p, x, s.logs, s.logs);
    SameFine(w, s, n, p, [p, x]);
  }

  lemma UserFine(w: Weight, s: Memory, n: multiset<Key>, p: Frame, c: Choice)
    requires Among(w, s, n, p)
    ensures Fine(w, s, n, p, ActUser(s, p, c))
  {
    if c.Post? {
      CallFine(w, s, n, p, Send(c.h, c.m));
    } else if c.Kill? {
      CallFine(w, s, n, p, Retire(c.h));
    } else if c.Go? || c.h in s.logs || c.h in s.ctxs {
      SameFine(w, s, n, p, [p]);
    } else {
      LaunchFine(w, s, n, p, c.h);
    }
  }

  /** What another thread can spoil.  A push, while the creator of the service stands between the two lines that
      set its handle and its mailbox; and what the creator does with the context after it has given up its
      reference, once the handle is retired and nobody holds the context: mark it as initialised, sign the log
      message, and read the handle for the answer. */
  ghost predicate InTime(s: Memory, n: multiset<Key>, p: Frame) {
    && (p.Push? ==> n[KMake(p.h)] == 0)
    && (Borrows(p) ==> Kept(s, n, p.h))
  }

  /** The creator touches a context that it does not hold. */
  predicate Borrows(p: Frame) { p.Ready? || p.Sign? || p.Answer? }

  /** The handle is registered, or some call holds the context or is about to delete it. */
  ghost predicate Kept(s: Memory, n: multiset<Key>, h: nat) {
    h in s.table || n[KRef(h)] + n[KActive(h)] + n[KMake(h)] + n[KMark(h)] + n[KDelete(h)] > 0
  }

  lemma PushSafeIff(w: Weight, s: Memory, n: multiset<Key>, p: Frame)
    requires Among(w, s, n, p) && p.Push?
    ensures Safe(s, p) <==> n[KMake(p.h)] == 0
  {
    WPush(w, p.h, p.m);
    assert HandleOk(s, n, p.h);
    if n[KMake(p.h)] == 0 { PushKeeps(s, n, p.h, p.m); }
  }

  lemma BorrowSafeIff(w: Weight, s: Memory, n: multiset<Key>, p: Frame)
    requires Among(w, s, n, p) && Borrows(p)
    ensures Safe(s, p) <==> InTime(s, n, p)
  {
    ContextIff(s, n, p.h);
  }

  /** A step is safe exactly if it is in time. */
  lemma SafeIff(w: Weight, s: Memory, n: multiset<Key>, p: Frame)
    requires Among(w, s, n, p)
    ensures Safe(s, p) <==> InTime(s, n, p)
  {
    if p.Push? {
      PushSafeIff(w, s, n, p);
    } else if Borrows(p) {
      BorrowSafeIff(w, s, n, p);
    } else {
      GoFine(w, s, n, p, Go(true, 0, 0));
    }
  }

  /** A context exists exactly as long as its handle is registered or a call holds or deletes it. */
  lemma ContextIff(s: Memory, n: multiset<Key>, h: nat)
    requires Inv(s, n)
    ensures h in s.ctxs <==> Kept(s, n, h)
  {
    assert HandleOk(s, n, h);
  }

  /** Every step in time keeps the invariant. */
  lemma ActFine(w: Weight, s: Memory, n: multiset<Key>, p: Frame, c: Choice)
    requires Among(w, s, n, p) && InTime(s, n, p)
    ensures Safe(s, p) && Fine(w, s, n, p, Act(s, p, c))
  {
    if Borrows(p) { ContextIff(s, n, p.h); }
    GoFine(w, s, n, p, if c.Go? then c else Go(true, 0, 0));
    if !c.Go? {
      if UserCode(p) { UserFine(w, s, n, p, c); } else { SameFine(w, s, n, p, [p]); }
    }
  }

  lemma GoFine(w: Weight, s: Memory, n: multiset<Key>, p: Frame, c: Choice)
    requires Among(w, s, n, p) && c.Go?
    requires (p.Push? ==> n[KMake(p.h)] == 0) && (Borrows(p) ==> p.h in s.ctxs)
    ensures Safe(s, p) && Fine(w, s, n, p, Act(s, p, c))
  {
    match p {
      case End => SameFine(w, s, n, p, [p]);
      case Worker => WorkerFine(w, s, n, p, c);
      case Dispatch(_) => DispatchFine(w, s, n, p, c);
      case Loop(_, _, _, _) => LoopFine(w, s, n, p, c);
      case Measure(_, _, _, _) => ServingFine(w, s, n, p, c);
      case Deliver(_, _, _, _, _) => DeliverFine(w, s, n, p, c);
      case Running(_, _, _, _) => ServingFine(w, s, n, p, c);
      case Finish(_, _) => if s.global == [] { KeepFine(w, s, n, p, c); } else { NextFine(w, s, n, p, c); }
      case Requeue(_, _, _) => RequeueFine(w, s, n, p, c);
      case Unref(_) => UnrefFine(w, s, n, p, c);
      case Mark(_) => MarkFine(w, s, n, p, c);
      case Delete(_) => DeleteFine(w, s, n, p, c);
      case Release(_) => ReleaseFine(w, s, n, p, c);
      case Drop(_) => DropFine(w, s, n, p, c);
      case Free(_) => FreeFine(w, s, n, p, c);
      case Send(_, _) => SendFine(w, s, n, p, c);
      case Push(_, _) => PushFine(w, s, n, p, c);
      case Retire(_) => RetireFine(w, s, n, p, c);
      case Create(_) => CreateFine(w, s, n, p, c);
      case Init(_, _) => if c.ok { InitOkFine(w, s, n, p, c); } else { InitFailFine(w, s, n, p, c); }
      case Ready(_, _) => ReadyFine(w, s, n, p, c);
      case Publish(_) => PublishFine(w, s, n, p, c);
      case Undo(_, _) => UndoFine(w, s, n, p, c);
      case _ => LastFine(w, s, n, p, c);
    }
  }
}
