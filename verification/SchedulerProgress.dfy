/** No message is stranded: a single worker can bring every mailbox of the global queue to its turn. */
module SchedulerProgress {
  import opened Mailbox
  import opened Scheduler
  import opened SchedulerProof
  import opened SchedulerTheorem
  import opened SchedulerRuns

  function Final(ss: seq<State>): State
    requires ss != []
  {
    ss[|ss| - 1]
  }

  /** The worker goes on: user code returns at once, and one message is handled at a time. */
  function Onward(): Choice { Go(true, -1, 0) }

  /** Nothing has happened to mailbox `q`, to the table of handles, or to other threads than `i`. */
  ghost predicate Spares(s: State, s': State, i: nat, q: nat) {
    && s'.mem.table == s.mem.table
    && q in s.mem.queues && q in s'.mem.queues && s'.mem.queues[q] == s.mem.queues[q]
    && s.mem.queues[q].handle in s.mem.logs && s.mem.queues[q].handle in s'.mem.logs
    && s'.mem.logs[s.mem.queues[q].handle] == s.mem.logs[s.mem.queues[q].handle]
    && |s'.threads| == |s.threads| && forall j :: 0 <= j < |s.threads| && j != i ==> s'.threads[j] == s.threads[j]
  }

  /** Thread `i` takes one more step, from the call `p`. */
  lemma Steps(ss: seq<State>, i: nat, p: Frame) returns (ss': seq<State>)
    requires Run(ss) && i < |Final(ss).threads| && Final(ss).threads[i] != [] && Top(Final(ss).threads[i]) == p
    requires !p.Push? && !Borrows(p)
    ensures Safe(Final(ss).mem, p)
    ensures Run(ss') && ss < ss' && Final(ss') == Step(Final(ss), i, Onward()) && SystemInv(Final(ss'))
  {
    var s := Final(ss);
    Always(ss, |ss| - 1);
    TopAmong(s, i);
    SafeIff(Here, s.mem, Total(s.threads), p);
    var s' := Step(s, i, Onward());
    assert Moves(s, i, Onward(), s');
    ss' := ss + [s'];
    forall k | 0 < k < |ss'| ensures Next(ss'[k - 1], ss'[k]) {
      if k < |ss| { assert Next(ss[k - 1], ss[k]); }
    }
    Always(ss', |ss'| - 1);
  }

  /** The stack of thread `i`. */
  ghost predicate Stands(s: State, i: nat, stack: seq<Frame>) { i < |s.threads| && s.threads[i] == stack }

  lemma StepFrom(ss: seq<State>, i: nat, below: seq<Frame>, p: Frame, mem: Memory, next: seq<Frame>) returns (ss': seq<State>)
    requires Run(ss) && Stands(Final(ss), i, below + [p]) && !p.Push? && !Borrows(p)
    requires Safe(Final(ss).mem, p) ==> Act(Final(ss).mem, p, Onward()) == (mem, next)
    ensures Safe(Final(ss).mem, p)
    ensures Run(ss') && ss < ss' && SystemInv(Final(ss'))
    ensures Final(ss') == State(mem, Final(ss).threads[i := below + next])
  {
    ss' := Steps(ss, i, p);
    assert Below(below + [p]) == below;
  }

  // ---------- one mailbox at a time ----------

  /** Mailbox `q` waits in the global queue. */
  ghost predicate InLine(s: State, q: nat) { q in s.mem.queues && q in s.mem.global }

  /** Between the states, mailbox `q` is left alone, and the global queue has become `global`. */
  ghost predicate Passes(s: State, s': State, i: nat, q: nat, stack: seq<Frame>, global: seq<nat>) {
    Spares(s, s', i, q) && Stands(s', i, stack) && s'.mem.global == global
  }

  lemma PassesOn(s: State, s': State, s'': State, i: nat, q: nat, stack: seq<Frame>, stack': seq<Frame>, global: seq<nat>, global': seq<nat>)
    requires Passes(s, s', i, q, stack, global) && Passes(s', s'', i, q, stack', global')
    ensures Passes(s, s'', i, q, stack', global')
  {
  }

  /** A mailbox in line is with no thread. */
  lemma Apart(s: State, i: nat, q: nat, q0: nat)
    requires SystemInv(s) && InLine(s, q) && i < |s.threads| && s.threads[i] != []
    requires var x := Here(Top(s.threads[i])); x[KOwn(q0)] + x[KBusy(q0)] + x[KDrop(q0)] + x[KFree(q0)] > 0
    ensures q != q0 && q0 in s.mem.queues
    ensures s.mem.queues[q].handle != s.mem.queues[q0].handle
    ensures s.mem.queues[q].handle in s.mem.logs && s.mem.queues[q0].handle in s.mem.logs
  {
    TopHeld(s, i);
    assert QueueOk(s.mem, Total(s.threads), q) && QueueOk(s.mem, Total(s.threads), q0);
  }

  lemma WorkerTakes(ss: seq<State>, i: nat, q: nat) returns (ss': seq<State>)
    requires Run(ss) && Stands(Final(ss), i, [Worker]) && InLine(Final(ss), q)
    ensures Run(ss') && ss < ss'
    ensures var global := Final(ss).mem.global;
      Passes(Final(ss), Final(ss'), i, q, [Dispatch(global[0])], global[1..])
  {
    var s := Final(ss);
    Always(ss, |ss| - 1);
    assert QueueOk(s.mem, Total(s.threads), q);
    assert [] + [Worker] == [Worker];
    ss' := StepFrom(ss, i, [], Worker, Dequeue(s.mem), [Dispatch(s.mem.global[0])]);
  }

  // a mailbox whose service is gone

  lemma Unregistered(ss: seq<State>, i: nat, q: nat, q0: nat) returns (ss': seq<State>)
    requires Run(ss) && Stands(Final(ss), i, [Dispatch(q0)]) && InLine(Final(ss), q)
    requires q0 in Final(ss).mem.queues ==> Final(ss).mem.queues[q0].handle !in Final(ss).mem.table
    ensures Run(ss') && ss < ss' && Passes(Final(ss), Final(ss'), i, q, [Worker, Release(q0)], Final(ss).mem.global)
    ensures Final(ss').mem == Final(ss).mem
  {
    var s := Final(ss);
    Always(ss, |ss| - 1);
    Apart(s, i, q, q0);
    assert [] + [Dispatch(q0)] == [Dispatch(q0)];
    ss' := StepFrom(ss, i, [], Dispatch(q0), s.mem, [Worker, Release(q0)]);
    assert [] + [Worker, Release(q0)] == [Worker, Release(q0)];
  }

  lemma PutBack(ss: seq<State>, i: nat, q: nat, q0: nat) returns (ss': seq<State>)
    requires Run(ss) && Stands(Final(ss), i, [Worker, Release(q0)]) && InLine(Final(ss), q)
    requires q0 in Final(ss).mem.queues ==> !Final(ss).mem.queues[q0].release
    ensures Run(ss') && ss < ss' && Passes(Final(ss), Final(ss'), i, q, [Worker], Final(ss).mem.global + [q0])
  {
    var s := Final(ss);
    Always(ss, |ss| - 1);
    Apart(s, i, q, q0);
    assert [Worker] + [Release(q0)] == [Worker, Release(q0)];
    ss' := StepFrom(ss, i, [Worker], Release(q0), Enqueue(s.mem, q0), []);
    assert [Worker] + [] == [Worker];
  }

  lemma ToDrop(ss: seq<State>, i: nat, q: nat, q0: nat) returns (ss': seq<State>)
    requires Run(ss) && Stands(Final(ss), i, [Worker, Release(q0)]) && InLine(Final(ss), q)
    requires q0 in Final(ss).mem.queues && Final(ss).mem.queues[q0].release
    ensures Run(ss') && ss < ss' && Passes(Final(ss), Final(ss'), i, q, [Worker, Drop(q0)], Final(ss).mem.global)
  {
    var s := Final(ss);
    Always(ss, |ss| - 1);
    Apart(s, i, q, q0);
    assert [Worker] + [Release(q0)] == [Worker, Release(q0)];
    ss' := StepFrom(ss, i, [Worker], Release(q0), s.mem, [Drop(q0)]);
    assert [Worker] + [Drop(q0)] == [Worker, Drop(q0)];
  }

  lemma DropOne(ss: seq<State>, i: nat, q: nat, q0: nat) returns (ss': seq<State>)
    requires Run(ss) && Stands(Final(ss), i, [Worker, Drop(q0)]) && InLine(Final(ss), q)
    requires q0 in Final(ss).mem.queues && Final(ss).mem.queues[q0].msgs != []
    ensures Run(ss') && ss < ss' && Passes(Final(ss), Final(ss'), i, q, [Worker, Drop(q0)], Final(ss).mem.global)
    ensures q0 in Final(ss').mem.queues && |Final(ss').mem.queues[q0].msgs| < |Final(ss).mem.queues[q0].msgs|
  {
    var s := Final(ss);
    Always(ss, |ss| - 1);
    Apart(s, i, q, q0);
    assert [Worker] + [Drop(q0)] == [Worker, Drop(q0)];
    ss' := StepFrom(ss, i, [Worker], Drop(q0), Take(s.mem, q0, true), [Drop(q0)]);
  }

  lemma DropEnd(ss: seq<State>, i: nat, q: nat, q0: nat) returns (ss': seq<State>)
    requires Run(ss) && Stands(Final(ss), i, [Worker, Drop(q0)]) && InLine(Final(ss), q)
    requires q0 in Final(ss).mem.queues && Final(ss).mem.queues[q0].msgs == []
    ensures Run(ss') && ss < ss' && Passes(Final(ss), Final(ss'), i, q, [Worker], Final(ss).mem.global)
  {
    var s := Final(ss);
    Always(ss, |ss| - 1);
    Apart(s, i, q, q0);
    assert [Worker] + [Drop(q0)] == [Worker, Drop(q0)];
    var s1 := StepFrom(ss, i, [Worker], Drop(q0), TakeNone(s.mem, q0), [Free(q0)]);
    assert [Worker] + [Free(q0)] == [Worker, Free(q0)];
    ss' := FreeQueue(s1, i, q, q0);
    PassesOn(s, Final(s1), Final(ss'), i, q, [Worker, Free(q0)], [Worker], s.mem.global, s.mem.global);
  }

  lemma FreeQueue(ss: seq<State>, i: nat, q: nat, q0: nat) returns (ss': seq<State>)
    requires Run(ss) && Stands(Final(ss), i, [Worker, Free(q0)]) && InLine(Final(ss), q)
    ensures Run(ss') && ss < ss' && Passes(Final(ss), Final(ss'), i, q, [Worker], Final(ss).mem.global)
  {
    var s := Final(ss);
    Always(ss, |ss| - 1);
    Apart(s, i, q, q0);
    assert [Worker] + [Free(q0)] == [Worker, Free(q0)];
    ss' := StepFrom(ss, i, [Worker], Free(q0), s.mem.(queues := s.mem.queues - {q0}), []);
    assert [Worker] + [] == [Worker];
  }

  lemma {:induction false} DropAll(ss: seq<State>, i: nat, q: nat, q0: nat, n: nat) returns (ss': seq<State>)
    requires Run(ss) && Stands(Final(ss), i, [Worker, Drop(q0)]) && InLine(Final(ss), q)
    requires q0 in Final(ss).mem.queues && |Final(ss).mem.queues[q0].msgs| <= n
    ensures Run(ss') && ss < ss' && Passes(Final(ss), Final(ss'), i, q, [Worker], Final(ss).mem.global)
    decreases n
  {
    var s := Final(ss);
    if s.mem.queues[q0].msgs == [] {
      ss' := DropEnd(ss, i, q, q0);
    } else {
      var s1 := DropOne(ss, i, q, q0);
      ss' := DropAll(s1, i, q, q0, n - 1);
      PassesOn(s, Final(s1), Final(ss'), i, q, [Worker, Drop(q0)], [Worker], s.mem.global, s.mem.global);
    }
  }

  /** All messages of a mailbox marked for release are dropped, and it is freed. */
  lemma Released(ss: seq<State>, i: nat, q: nat, q0: nat) returns (ss': seq<State>)
    requires Run(ss) && Stands(Final(ss), i, [Worker, Release(q0)]) && InLine(Final(ss), q)
    requires q0 in Final(ss).mem.queues && Final(ss).mem.queues[q0].release
    ensures Run(ss') && ss < ss' && Passes(Final(ss), Final(ss'), i, q, [Worker], Final(ss).mem.global)
  {
    var s := Final(ss);
    var s1 := ToDrop(ss, i, q, q0);
    Always(s1, |s1| - 1);
    Apart(Final(s1), i, q, q0);
    ss' := DropAll(s1, i, q, q0, |Final(s1).mem.queues[q0].msgs|);
    PassesOn(s, Final(s1), Final(ss'), i, q, [Worker, Drop(q0)], [Worker], s.mem.global, s.mem.global);
  }

  lemma PassGone(ss: seq<State>, i: nat, q: nat, q0: nat) returns (ss': seq<State>, global: seq<nat>)
    requires Run(ss) && Stands(Final(ss), i, [Dispatch(q0)]) && InLine(Final(ss), q)
    requires q0 in Final(ss).mem.queues ==> Final(ss).mem.queues[q0].handle !in Final(ss).mem.table
    ensures Run(ss') && ss < ss' && Passes(Final(ss), Final(ss'), i, q, [Worker], global) && Final(ss).mem.global <= global
  {
    var s := Final(ss);
    Always(ss, |ss| - 1);
    Apart(s, i, q, q0);
    var s1 := Unregistered(ss, i, q, q0);
    if s.mem.queues[q0].release {
      global := s.mem.global;
      ss' := Released(s1, i, q, q0);
    } else {
      global := s.mem.global + [q0];
      ss' := PutBack(s1, i, q, q0);
    }
    PassesOn(s, Final(s1), Final(ss'), i, q, [Worker, Release(q0)], [Worker], s.mem.global, global);
  }

  // a mailbox whose service is registered

  /** The dispatcher of `q0` stands at the head of its loop. */
  lemma Registered(ss: seq<State>, i: nat, q0: nat) returns (ss': seq<State>)
    requires Run(ss) && Stands(Final(ss), i, [Dispatch(q0)])
    requires q0 in Final(ss).mem.queues && Final(ss).mem.queues[q0].handle in Final(ss).mem.table
    ensures Run(ss') && ss < ss'
    ensures var s, h := Final(ss), Final(ss).mem.queues[q0].handle;
      h in s.mem.ctxs && Final(ss') == State(AddRef(s.mem, h), s.threads[i := [Loop(q0, h, 0, 1)]])
  {
    var s, h := Final(ss), Final(ss).mem.queues[q0].handle;
    Always(ss, |ss| - 1);
    assert HandleOk(s.mem, Total(s.threads), h);
    assert [] + [Dispatch(q0)] == [Dispatch(q0)];
    ss' := StepFrom(ss, i, [], Dispatch(q0), AddRef(s.mem, h), [Loop(q0, h, 0, 1)]);
    assert [] + [Loop(q0, h, 0, 1)] == [Loop(q0, h, 0, 1)];
  }

  /** The first message is taken out, and its callback begins. */
  lemma ToCallback(ss: seq<State>, i: nat, q0: nat, h: nat) returns (ss': seq<State>)
    requires Run(ss) && Stands(Final(ss), i, [Loop(q0, h, 0, 1)])
    requires q0 in Final(ss).mem.queues && Final(ss).mem.queues[q0].msgs != []
    ensures Run(ss') && ss < ss'
    ensures var s := Final(ss); var m := s.mem.queues[q0].msgs[0];
      && s.mem.queues[q0].handle == h && h in s.mem.logs
      && Final(ss') == State(Begin(Take(s.mem, q0, false), h, m), s.threads[i := [Running(q0, h, 0, 1)]])
  {
    var s := Final(ss);
    Always(ss, |ss| - 1);
    TopAmong(s, i);
    SafeIff(Here, s.mem, Total(s.threads), Loop(q0, h, 0, 1));
    var m := s.mem.queues[q0].msgs[0];
    assert [] + [Loop(q0, h, 0, 1)] == [Loop(q0, h, 0, 1)];
    var s1 := StepFrom(ss, i, [], Loop(q0, h, 0, 1), Take(s.mem, q0, false), [Deliver(q0, h, m, 0, 1)]);
    assert [] + [Deliver(q0, h, m, 0, 1)] == [Deliver(q0, h, m, 0, 1)];
    ss' := StepFrom(s1, i, [], Deliver(q0, h, m, 0, 1), Begin(Final(s1).mem, h, m), [Running(q0, h, 0, 1)]);
    assert [] + [Running(q0, h, 0, 1)] == [Running(q0, h, 0, 1)];
    assert Final(ss').threads == s.threads[i := [Running(q0, h, 0, 1)]];
  }

  /** A registered service outlives what a dispatcher gives back. */
  lemma GiveBack(ss: seq<State>, i: nat, q: nat, below: seq<Frame>, h: nat) returns (ss': seq<State>)
    requires Run(ss) && Stands(Final(ss), i, below + [Unref(h)]) && q in Final(ss).mem.queues && h in Final(ss).mem.table
    ensures Run(ss') && ss < ss' && Passes(Final(ss), Final(ss'), i, q, below, Final(ss).mem.global)
  {
    var s := Final(ss);
    Always(ss, |ss| - 1);
    TopHeld(s, i);
    assert Top(below + [Unref(h)]) == Unref(h);
    assert HandleOk(s.mem, Total(s.threads), h) && QueueOk(s.mem, Total(s.threads), q);
    ss' := StepFrom(ss, i, below, Unref(h), DropRef(s.mem, h), []);
    assert below + [] == below;
  }

  /** An empty mailbox leaves the line. */
  lemma ServeNone(ss: seq<State>, i: nat, q: nat, q0: nat, h: nat) returns (ss': seq<State>)
    requires Run(ss) && Stands(Final(ss), i, [Loop(q0, h, 0, 1)]) && InLine(Final(ss), q) && h in Final(ss).mem.table
    requires q0 in Final(ss).mem.queues && Final(ss).mem.queues[q0].msgs == []
    ensures Run(ss') && ss < ss' && Passes(Final(ss), Final(ss'), i, q, [Worker], Final(ss).mem.global)
  {
    var s := Final(ss);
    Always(ss, |ss| - 1);
    Apart(s, i, q, q0);
    assert [] + [Loop(q0, h, 0, 1)] == [Loop(q0, h, 0, 1)];
    var s1 := StepFrom(ss, i, [], Loop(q0, h, 0, 1), TakeNone(s.mem, q0), [Worker, Unref(h)]);
    assert [] + [Worker, Unref(h)] == [Worker] + [Unref(h)] == [Worker, Unref(h)];
    ss' := GiveBack(s1, i, q, [Worker], h);
    PassesOn(s, Final(s1), Final(ss'), i, q, [Worker, Unref(h)], [Worker], s.mem.global, s.mem.global);
  }

  /** After its callback a mailbox goes to the end of the line, and the worker takes the next. */
  lemma Requeued(ss: seq<State>, i: nat, q: nat, q0: nat, h: nat) returns (ss': seq<State>)
    requires Run(ss) && Stands(Final(ss), i, [Running(q0, h, 0, 1)]) && InLine(Final(ss), q) && h in Final(ss).mem.table
    ensures Run(ss') && ss < ss'
    ensures var global := Final(ss).mem.global;
      Passes(Final(ss), Final(ss'), i, q, [Dispatch(global[0])], global[1..] + [q0])
  {
    var s := Final(ss);
    var s1 := LoopEnds(ss, i, q, q0, h);
    ss' := TakesNext(s1, i, q, q0, h);
    PassesOn(s, Final(s1), Final(ss'), i, q, [Finish(q0, h)], [Dispatch(s.mem.global[0])], s.mem.global, s.mem.global[1..] + [q0]);
  }

  lemma LoopEnds(ss: seq<State>, i: nat, q: nat, q0: nat, h: nat) returns (ss': seq<State>)
    requires Run(ss) && Stands(Final(ss), i, [Running(q0, h, 0, 1)]) && InLine(Final(ss), q)
    ensures Run(ss') && ss < ss' && Passes(Final(ss), Final(ss'), i, q, [Finish(q0, h)], Final(ss).mem.global)
    ensures Final(ss').mem == Final(ss).mem
  {
    var s := Final(ss);
    var s1 := CallbackEnds(ss, i, q, q0, h);
    ss' := RoundEnds(s1, i, q, q0, h);
    PassesOn(s, Final(s1), Final(ss'), i, q, [Loop(q0, h, 1, 1)], [Finish(q0, h)], s.mem.global, s.mem.global);
  }

  lemma CallbackEnds(ss: seq<State>, i: nat, q: nat, q0: nat, h: nat) returns (ss': seq<State>)
    requires Run(ss) && Stands(Final(ss), i, [Running(q0, h, 0, 1)]) && InLine(Final(ss), q)
    ensures Run(ss') && ss < ss' && Passes(Final(ss), Final(ss'), i, q, [Loop(q0, h, 1, 1)], Final(ss).mem.global)
    ensures Final(ss').mem == Final(ss).mem
  {
    var s := Final(ss);
    Always(ss, |ss| - 1);
    Apart(s, i, q, q0);
    assert [] + [Running(q0, h, 0, 1)] == [Running(q0, h, 0, 1)];
    ss' := StepFrom(ss, i, [], Running(q0, h, 0, 1), s.mem, [Loop(q0, h, 1, 1)]);
    assert [] + [Loop(q0, h, 1, 1)] == [Loop(q0, h, 1, 1)];
  }

  lemma RoundEnds(ss: seq<State>, i: nat, q: nat, q0: nat, h: nat) returns (ss': seq<State>)
    requires Run(ss) && Stands(Final(ss), i, [Loop(q0, h, 1, 1)]) && InLine(Final(ss), q)
    ensures Run(ss') && ss < ss' && Passes(Final(ss), Final(ss'), i, q, [Finish(q0, h)], Final(ss).mem.global)
    ensures Final(ss').mem == Final(ss).mem
  {
    var s := Final(ss);
    Always(ss, |ss| - 1);
    Apart(s, i, q, q0);
    assert [] + [Loop(q0, h, 1, 1)] == [Loop(q0, h, 1, 1)];
    ss' := StepFrom(ss, i, [], Loop(q0, h, 1, 1), s.mem, [Finish(q0, h)]);
    assert [] + [Finish(q0, h)] == [Finish(q0, h)];
  }

  /** The next mailbox is taken before this one is put back. */
  lemma TakesOver(ss: seq<State>, i: nat, q: nat, q0: nat, h: nat) returns (ss': seq<State>)
    requires Run(ss) && Stands(Final(ss), i, [Finish(q0, h)]) && InLine(Final(ss), q)
    ensures Run(ss') && ss < ss' && Final(ss').mem.table == Final(ss).mem.table
    ensures var global := Final(ss).mem.global;
      Passes(Final(ss), Final(ss'), i, q, [Requeue(q0, global[0], h)], global[1..])
  {
    var s, nq := Final(ss), Final(ss).mem.global[0];
    Always(ss, |ss| - 1);
    Apart(s, i, q, q0);
    assert [] + [Finish(q0, h)] == [Finish(q0, h)];
    ss' := StepFrom(ss, i, [], Finish(q0, h), Dequeue(s.mem), [Requeue(q0, nq, h)]);
    assert [] + [Requeue(q0, nq, h)] == [Requeue(q0, nq, h)];
  }

  lemma PutsBehind(ss: seq<State>, i: nat, q: nat, q0: nat, nq: nat, h: nat) returns (ss': seq<State>)
    requires Run(ss) && Stands(Final(ss), i, [Requeue(q0, nq, h)]) && q in Final(ss).mem.queues
    ensures Run(ss') && ss < ss' && Final(ss').mem.table == Final(ss).mem.table
    ensures Passes(Final(ss), Final(ss'), i, q, [Dispatch(nq)] + [Unref(h)], Final(ss).mem.global + [q0])
  {
    var s := Final(ss);
    Always(ss, |ss| - 1);
    assert QueueOk(s.mem, Total(s.threads), q);
    assert [] + [Requeue(q0, nq, h)] == [Requeue(q0, nq, h)];
    ss' := StepFrom(ss, i, [], Requeue(q0, nq, h), Enqueue(s.mem, q0), [Dispatch(nq), Unref(h)]);
    assert [] + [Dispatch(nq), Unref(h)] == [Dispatch(nq)] + [Unref(h)];
  }

  lemma TakesNext(ss: seq<State>, i: nat, q: nat, q0: nat, h: nat) returns (ss': seq<State>)
    requires Run(ss) && Stands(Final(ss), i, [Finish(q0, h)]) && InLine(Final(ss), q) && h in Final(ss).mem.table
    ensures Run(ss') && ss < ss'
    ensures var global := Final(ss).mem.global;
      Passes(Final(ss), Final(ss'), i, q, [Dispatch(global[0])], global[1..] + [q0])
  {
    var s := Final(ss);
    var nq, global := s.mem.global[0], s.mem.global[1..] + [q0];
    var s1 := TakesOver(ss, i, q, q0, h);
    var s2 := PutsBehind(s1, i, q, q0, nq, h);
    ss' := GiveBack(s2, i, q, [Dispatch(nq)], h);
    PassesOn(s, Final(s1), Final(s2), i, q, [Requeue(q0, nq, h)], [Dispatch(nq)] + [Unref(h)], s.mem.global[1..], global);
    PassesOn(s, Final(s2), Final(ss'), i, q, [Dispatch(nq)] + [Unref(h)], [Dispatch(nq)], global, global);
  }

  /** The worker is at rest, or about to dispatch for a mailbox. */
  datatype Place = Rest | Turn(q: nat)

  function StackOf(x: Place): seq<Frame> { if x.Rest? then [Worker] else [Dispatch(x.q)] }

  /** The mailboxes before the worker. */
  function LineOf(x: Place, global: seq<nat>): seq<nat> { if x.Rest? then global else [x.q] + global }

  lemma PassLive(ss: seq<State>, i: nat, q: nat, q0: nat) returns (ss': seq<State>, x: Place, global: seq<nat>)
    requires Run(ss) && Stands(Final(ss), i, [Dispatch(q0)]) && InLine(Final(ss), q)
    requires q0 in Final(ss).mem.queues && Final(ss).mem.queues[q0].handle in Final(ss).mem.table
    ensures Run(ss') && ss < ss' && Passes(Final(ss), Final(ss'), i, q, StackOf(x), global)
    ensures Final(ss).mem.global <= LineOf(x, global)
  {
    var s, h := Final(ss), Final(ss).mem.queues[q0].handle;
    Always(ss, |ss| - 1);
    Apart(s, i, q, q0);
    var s1 := Registered(ss, i, q0);
    assert Passes(s, Final(s1), i, q, [Loop(q0, h, 0, 1)], s.mem.global);
    if s.mem.queues[q0].msgs == [] {
      x, global := Rest, s.mem.global;
      ss' := ServeNone(s1, i, q, q0, h);
    } else {
      x, global := Turn(s.mem.global[0]), s.mem.global[1..] + [q0];
      ss' := ServeOne(s1, i, q, q0, h);
      assert LineOf(x, global) == s.mem.global + [q0];
    }
    PassesOn(s, Final(s1), Final(ss'), i, q, [Loop(q0, h, 0, 1)], StackOf(x), s.mem.global, global);
  }

  lemma ServeOne(ss: seq<State>, i: nat, q: nat, q0: nat, h: nat) returns (ss': seq<State>)
    requires Run(ss) && Stands(Final(ss), i, [Loop(q0, h, 0, 1)]) && InLine(Final(ss), q) && h in Final(ss).mem.table
    requires q0 in Final(ss).mem.queues && Final(ss).mem.queues[q0].msgs != []
    ensures Run(ss') && ss < ss'
    ensures var global := Final(ss).mem.global;
      Passes(Final(ss), Final(ss'), i, q, [Dispatch(global[0])], global[1..] + [q0])
  {
    var s := Final(ss);
    Always(ss, |ss| - 1);
    Apart(s, i, q, q0);
    var s1 := ToCallback(ss, i, q0, h);
    assert Passes(s, Final(s1), i, q, [Running(q0, h, 0, 1)], s.mem.global);
    ss' := Requeued(s1, i, q, q0, h);
    PassesOn(s, Final(s1), Final(ss'), i, q, [Running(q0, h, 0, 1)], [Dispatch(s.mem.global[0])], s.mem.global, s.mem.global[1..] + [q0]);
  }

  /** The worker is done with the mailbox it has taken, and `q` has come one place nearer. */
  lemma OneRound(ss: seq<State>, i: nat, q: nat, q0: nat) returns (ss': seq<State>, x: Place, global: seq<nat>)
    requires Run(ss) && Stands(Final(ss), i, [Dispatch(q0)]) && InLine(Final(ss), q)
    ensures Run(ss') && ss < ss' && Passes(Final(ss), Final(ss'), i, q, StackOf(x), global)
    ensures Final(ss).mem.global <= LineOf(x, global)
  {
    var s := Final(ss);
    Always(ss, |ss| - 1);
    Apart(s, i, q, q0);
    if s.mem.queues[q0].handle in s.mem.table {
      ss', x, global := PassLive(ss, i, q, q0);
    } else {
      x := Rest;
      ss', global := PassGone(ss, i, q, q0);
    }
  }

  // ---------- progress ----------

  /** Thread `i` is in the callback of the service of mailbox `q`, with the message that was the first there. */
  ghost predicate Handles(s: State, s': State, i: nat, q: nat) {
    && q in s.mem.queues && s.mem.queues[q].msgs != []
    && var h := s.mem.queues[q].handle;
    && Stands(s', i, [Running(q, h, 0, 1)]) && h in s.mem.logs && h in s'.mem.logs
    && s'.mem.logs[h].begun == s.mem.logs[h].begun + [s.mem.queues[q].msgs[0]]
    && |s'.threads| == |s.threads| && forall j :: 0 <= j < |s.threads| && j != i ==> s'.threads[j] == s.threads[j]
  }

  /** A registered mailbox with a message. */
  ghost predicate Waits(s: State, q: nat) {
    q in s.mem.queues && s.mem.queues[q].msgs != [] && s.mem.queues[q].handle in s.mem.table
  }

  lemma AtTurn(ss: seq<State>, i: nat, q: nat) returns (ss': seq<State>)
    requires Run(ss) && Stands(Final(ss), i, [Dispatch(q)]) && Waits(Final(ss), q)
    ensures Run(ss') && ss < ss' && Handles(Final(ss), Final(ss'), i, q)
  {
    var s1 := Registered(ss, i, q);
    ss' := ToCallback(s1, i, q, Final(ss).mem.queues[q].handle);
  }

  lemma HandlesLater(s: State, s': State, s'': State, i: nat, q: nat)
    requires Spares(s, s', i, q) && Handles(s', s'', i, q)
    ensures Handles(s, s'', i, q)
  {
  }

  /** Wherever `q` stands in the line, the worker comes to it. */
  lemma {:induction false} Comes(ss: seq<State>, i: nat, q: nat, x: Place, e: nat) returns (ss': seq<State>)
    requires Run(ss) && Stands(Final(ss), i, StackOf(x)) && Waits(Final(ss), q)
    requires e < |LineOf(x, Final(ss).mem.global)| && LineOf(x, Final(ss).mem.global)[e] == q
    ensures Run(ss') && ss < ss' && Handles(Final(ss), Final(ss'), i, q)
    decreases e, x.Rest?
  {
    var s := Final(ss);
    var s1, y, global;
    if x.Rest? {
      s1 := WorkerTakes(ss, i, q);
      y, global := Turn(s.mem.global[0]), s.mem.global[1..];
      assert LineOf(y, global) == s.mem.global;
      ss' := Comes(s1, i, q, y, e);
      HandlesLater(s, Final(s1), Final(ss'), i, q);
    } else if e == 0 {
      ss' := AtTurn(ss, i, q);
    } else {
      assert s.mem.global[e - 1] == q;
      s1, y, global := OneRound(ss, i, q, x.q);
      ss' := Comes(s1, i, q, y, e - 1);
      HandlesLater(s, Final(s1), Final(ss'), i, q);
    }
  }

  /** No message is stranded in a queue: every run that has reached a state with a worker at rest can go on, by steps of
      that worker alone, until the worker handles the first message of any registered mailbox in the global queue. */
  lemma WorkerComes(ss: seq<State>, i: nat, q: nat) returns (ss': seq<State>)
    requires Run(ss) && Stands(Final(ss), i, [Worker]) && Waits(Final(ss), q) && q in Final(ss).mem.global
    ensures Run(ss') && ss < ss' && Handles(Final(ss), Final(ss'), i, q)
  {
    var e: nat :| e < |Final(ss).mem.global| && Final(ss).mem.global[e] == q;
    ss' := Comes(ss, i, q, Rest, e);
  }
}
