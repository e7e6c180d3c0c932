/** What holds in every state of every run of the scheduler. */
module SchedulerRuns {
  import opened Mailbox
  import opened Counting
  import opened Scheduler
  import opened SchedulerProof
  import opened SchedulerTheorem

  /** The runtime starts empty, with any number of workers and other threads. */
  ghost predicate Start(s: State) {
    && s.mem == Memory([], map[], map[], {}, map[])
    && forall i :: 0 <= i < |s.threads| ==> s.threads[i] == [Worker] || s.threads[i] == [End]
  }

  /** Some thread takes a step.  A run goes up to the first unsafe step, which it does not take. */
  ghost predicate Next(s: State, s': State) {
    exists i: nat, c :: Moves(s, i, c, s')
  }

  ghost predicate Moves(s: State, i: nat, c: Choice, s': State) {
    && i < |s.threads| && s.threads[i] != []
    && Safe(s.mem, Top(s.threads[i])) && s' == Step(s, i, c)
  }

  ghost predicate Run(ss: seq<State>) {
    && ss != [] && Start(ss[0])
    && forall k :: 0 < k < |ss| ==> Next(ss[k - 1], ss[k])
  }

  ghost predicate SystemInv(s: State) {
    && Inv(s.mem, Total(s.threads))
    && forall i :: 0 <= i < |s.threads| ==> Paired(s.threads[i], s.mem.logs)
  }

  lemma HereWeighs()
    ensures Weighs(Here)
  {
    assert forall p :: Weighed(Here, p);
  }

  lemma KeysSplit(stack: seq<Frame>)
    requires stack != []
    ensures Keys(stack) == Keys(Below(stack)) + Here(Top(stack))
  {
  }

  lemma StackChange(n: multiset<Key>, b: multiset<Key>, x: multiset<Key>, y: multiset<Key>)
    requires b + x <= n
    ensures x <= n && n - (b + x) + (b + y) == Change(n, x, y)
  {
  }

  lemma StepTotal(s: State, i: nat, c: Choice)
    requires i < |s.threads| && s.threads[i] != [] && Safe(s.mem, Top(s.threads[i])) && |Act(s.mem, Top(s.threads[i]), c).1| <= 2
    ensures Here(Top(s.threads[i])) <= Total(s.threads)
    ensures Total(Step(s, i, c).threads)
         == Change(Total(s.threads), Here(Top(s.threads[i])), HeldBy(Here, Act(s.mem, Top(s.threads[i]), c).1))
  {
    var stack, next := s.threads[i], Act(s.mem, Top(s.threads[i]), c).1;
    SumSet(s.threads, Keys, i, Below(stack) + next);
    KeysSplit(stack);
    SumAppend(Below(stack), next, Here);
    HeldBySum(Here, next);
    StackChange(Total(s.threads), Keys(Below(stack)), Here(Top(stack)), HeldBy(Here, next));
  }

  lemma TopHeld(s: State, i: nat)
    requires i < |s.threads| && s.threads[i] != []
    ensures Here(Top(s.threads[i])) <= Total(s.threads)
  {
    SumSet(s.threads, Keys, i, []);
    KeysSplit(s.threads[i]);
  }

  lemma TopAmong(s: State, i: nat)
    requires SystemInv(s) && i < |s.threads| && s.threads[i] != []
    ensures Among(Here, s.mem, Total(s.threads), Top(s.threads[i]))
  {
    TopHeld(s, i);
    HereWeighs();
  }

  /** Every safe step of every thread keeps the invariant. */
  lemma StepKeeps(s: State, i: nat, c: Choice)
    requires SystemInv(s) && i < |s.threads| && s.threads[i] != [] && Safe(s.mem, Top(s.threads[i]))
    ensures SystemInv(Step(s, i, c))
  {
    var p := Top(s.threads[i]);
    TopAmong(s, i);
    SafeIff(Here, s.mem, Total(s.threads), p);
    ActFine(Here, s.mem, Total(s.threads), p, c);
    StepTotal(s, i, c);
    StepPaired(s, i, c);
  }

  lemma StepPaired(s: State, i: nat, c: Choice)
    requires i < |s.threads| && s.threads[i] != [] && Safe(s.mem, Top(s.threads[i]))
    requires forall j :: 0 <= j < |s.threads| ==> Paired(s.threads[j], s.mem.logs)
    requires var t := Act(s.mem, Top(s.threads[i]), c); Paired(t.1, t.0.logs) && Grows(s.mem.logs, t.0.logs)
    ensures var s' := Step(s, i, c); forall j :: 0 <= j < |s'.threads| ==> Paired(s'.threads[j], s'.mem.logs)
  {
    var s', t := Step(s, i, c), Act(s.mem, Top(s.threads[i]), c);
    forall j | 0 <= j < |s'.threads| ensures Paired(s'.threads[j], s'.mem.logs) {
      PairedGrows(s.threads[j], s.mem.logs, t.0.logs);
    }
  }

  lemma PairedGrows(stack: seq<Frame>, logs: map<nat, Log>, logs': map<nat, Log>)
    requires Paired(stack, logs) && Grows(logs, logs')
    ensures Paired(stack, logs')
  {
    forall k | 0 <= k < |stack| ensures Pair(stack[k], logs') {
      assert Pair(stack[k], logs);
    }
  }

  lemma {:induction false} StartTotal(threads: seq<seq<Frame>>)
    requires forall i :: 0 <= i < |threads| ==> threads[i] == [Worker] || threads[i] == [End]
    ensures Total(threads) == multiset{}
    decreases |threads|
  {
    if threads != [] {
      StartTotal(threads[..|threads| - 1]);
      KeysSplit([Worker]);
      KeysSplit([End]);
    }
  }

  lemma StartKeeps(s: State)
    requires Start(s)
    ensures SystemInv(s)
  {
    StartTotal(s.threads);
    var n := Total(s.threads);
    forall h: nat ensures HandleOk(s.mem, n, h) { }
    forall q: nat ensures QueueOk(s.mem, n, q) { }
    forall h: nat ensures LogOk(s.mem, n, h) { }
    forall h: nat, m ensures PendOk(s.mem, n, h, m) { }
  }

  /** The invariant holds in every state of every run. */
  lemma {:induction false} Always(ss: seq<State>, k: nat)
    requires Run(ss) && k < |ss|
    ensures SystemInv(ss[k])
  {
    if k == 0 {
      StartKeeps(ss[0]);
    } else {
      Always(ss, k - 1);
      var i: nat, c :| Moves(ss[k - 1], i, c, ss[k]);
      StepKeeps(ss[k - 1], i, c);
    }
  }

  // ---------- consequences ----------

  /** In every run, the next step of a thread touches only mailboxes and contexts that exist, and fails no
      assertion, exactly if it is in time; only a push and what the creator does after its release can be out of time. */
  lemma SafeExactly(ss: seq<State>, k: nat, i: nat)
    requires Run(ss) && k < |ss| && i < |ss[k].threads| && ss[k].threads[i] != []
    ensures Safe(ss[k].mem, Top(ss[k].threads[i])) <==> InTime(ss[k].mem, Total(ss[k].threads), Top(ss[k].threads[i]))
  {
    Always(ss, k);
    TopAmong(ss[k], i);
    SafeIff(Here, ss[k].mem, Total(ss[k].threads), Top(ss[k].threads[i]));
  }

  /** Some thread stands between the line that sets the handle of service `h` and the line that creates its
      mailbox. */
  ghost predicate Creating(s: State, h: nat) {
    exists i, a :: 0 <= i < |s.threads| && 0 <= a < |s.threads[i]| && s.threads[i][a] == Create(h)
  }

  lemma HereMake(p: Frame, h: nat)
    ensures Here(p)[KMake(h)] > 0 ==> p == Create(h)
  {
  }

  lemma {:induction false} HeldFrame(stack: seq<Frame>, h: nat) returns (a: nat)
    requires Keys(stack)[KMake(h)] > 0
    ensures a < |stack| && stack[a] == Create(h)
    decreases |stack|
  {
    KeysSplit(stack);
    HereMake(Top(stack), h);
    if Top(stack) == Create(h) {
      a := |stack| - 1;
    } else {
      a := HeldFrame(Below(stack), h);
    }
  }

  lemma {:induction false} HeldThread(threads: seq<seq<Frame>>, h: nat) returns (i: nat)
    requires Total(threads)[KMake(h)] > 0
    ensures i < |threads| && Keys(threads[i])[KMake(h)] > 0
    decreases |threads|
  {
    var n := |threads| - 1;
    if Keys(threads[n])[KMake(h)] > 0 {
      i := n;
    } else {
      i := HeldThread(threads[..n], h);
    }
  }

  lemma CreatingIff(s: State, h: nat)
    ensures Creating(s, h) <==> Total(s.threads)[KMake(h)] > 0
  {
    if Total(s.threads)[KMake(h)] > 0 {
      var i := HeldThread(s.threads, h);
      var a := HeldFrame(s.threads[i], h);
    }
    if i, a :| 0 <= i < |s.threads| && 0 <= a < |s.threads[i]| && s.threads[i][a] == Create(h) {
      SumSet(s.threads[i], Here, a, Create(h));
      SumSet(s.threads, Keys, i, s.threads[i]);
      HereWeighs();
      WCreate(Here, h);
    }
  }

  /** A message is pushed into a mailbox that exists exactly if no thread is still creating it. */
  lemma PushSafe(ss: seq<State>, k: nat, i: nat)
    requires Run(ss) && k < |ss| && i < |ss[k].threads| && ss[k].threads[i] != [] && Top(ss[k].threads[i]).Push?
    ensures Safe(ss[k].mem, Top(ss[k].threads[i])) <==> !Creating(ss[k], Top(ss[k].threads[i]).h)
  {
    SafeExactly(ss, k, i);
    CreatingIff(ss[k], Top(ss[k].threads[i]).h);
  }

  /** Every mailbox is in exactly one place, unless it is idle; an idle mailbox is empty, its
      context exists, and the next push will wake it. */
  lemma OnePlace(ss: seq<State>, k: nat, q: nat)
    requires Run(ss) && k < |ss| && q in ss[k].mem.queues
    ensures var s := ss[k].mem;
      var places := Places(s, Total(ss[k].threads), q);
      || places == 1
      || (places == 0 && s.queues[q].msgs == [] && !s.queues[q].inGlobal && !s.queues[q].release && s.queues[q].handle in s.ctxs)
  {
    Always(ss, k);
    assert QueueOk(ss[k].mem, Total(ss[k].threads), q);
  }

  /** A mailbox that is freed is nowhere, so it is freed once. */
  lemma FreedIsNowhere(ss: seq<State>, k: nat, q: nat)
    requires Run(ss) && k < |ss| && q !in ss[k].mem.queues
    ensures Places(ss[k].mem, Total(ss[k].threads), q) == 0
  {
    Always(ss, k);
    assert QueueOk(ss[k].mem, Total(ss[k].threads), q);
  }

  /** The call is in the dispatch loop of service `h`. */
  predicate Serves(p: Frame, h: nat) {
    (p.Loop? || p.Measure? || p.Deliver? || p.Running? || p.Finish? || p.Requeue?) && p.h == h
  }

  lemma ServesHolds(p: Frame, h: nat, logs: map<nat, Log>)
    requires Serves(p, h) && Pair(p, logs)
    ensures h in logs && Here(p)[KOwn(logs[h].queue)] + Here(p)[KBusy(logs[h].queue)] >= 1
  {
  }

  /** Two different calls, of one thread or of two, hold their keys at the same time. */
  lemma TwoCalls(threads: seq<seq<Frame>>, w: Weight, keys: seq<Frame> -> multiset<Key>, i: nat, a: nat, j: nat, b: nat)
    requires forall stack :: keys(stack) == Sum(stack, w)
    requires i < |threads| && a < |threads[i]| && j < |threads| && b < |threads[j]| && (i, a) != (j, b)
    ensures w(threads[i][a]) + w(threads[j][b]) <= Sum(threads, keys)
  {
    if i == j {
      SumTwo(threads[i], w, if a < b then a else b, if a < b then b else a);
      SumSet(threads, keys, i, threads[i]);
    } else {
      SumSet(threads[i], w, a, threads[i][a]);
      SumSet(threads[j], w, b, threads[j][b]);
      SumTwo(threads, keys, if i < j then i else j, if i < j then j else i);
    }
  }

  /** No two calls dispatch for the same service: its callback is never run twice at a time. */
  lemma OneDispatcher(ss: seq<State>, k: nat, h: nat, i: nat, a: nat, j: nat, b: nat)
    requires Run(ss) && k < |ss|
    requires i < |ss[k].threads| && a < |ss[k].threads[i]| && Serves(ss[k].threads[i][a], h)
    requires j < |ss[k].threads| && b < |ss[k].threads[j]| && Serves(ss[k].threads[j][b], h)
    ensures (i, a) == (j, b)
  {
    Always(ss, k);
    var s := ss[k];
    ServesHolds(s.threads[i][a], h, s.mem.logs);
    ServesHolds(s.threads[j][b], h, s.mem.logs);
    assert QueueOk(s.mem, Total(s.threads), s.mem.logs[h].queue);
    if (i, a) != (j, b) {
      TwoCalls(s.threads, Here, Keys, i, a, j, b);
    }
  }

  /** The messages of a service are handled in the order they were pushed, each once; those
      not handled yet are the one in flight, if any, and those in the mailbox. */
  lemma InOrder(ss: seq<State>, k: nat, h: nat)
    requires Run(ss) && k < |ss| && h in ss[k].mem.logs
    ensures var log := ss[k].mem.logs[h];
      log.pushed == log.begun + Waiting(log) + (if HasQueue(ss[k].mem, h) then ss[k].mem.queues[log.queue].msgs else [])
    ensures |Waiting(ss[k].mem.logs[h])| <= 1
  {
    Always(ss, k);
    LogInOrder(ss[k].mem, Total(ss[k].threads), h);
  }

  lemma LogInOrder(s: Memory, n: multiset<Key>, h: nat)
    requires Inv(s, n) && h in s.logs
    ensures var log := s.logs[h];
      log.pushed == log.begun + Waiting(log) + (if HasQueue(s, h) then s.queues[log.queue].msgs else [])
    ensures |Waiting(s.logs[h])| <= 1
  {
    var log := s.logs[h];
    assert LogOk(s, n, h);
    assert QueueOk(s, n, log.queue);
    assert log.taken == log.begun + log.taken[|log.begun|..];
    assert log.taken == log.begun + Waiting(log);
  }

  /** A mailbox is freed only when its context is deleted, its handle retired and all its
      messages handled. */
  lemma FreedLast(ss: seq<State>, k: nat, i: nat)
    requires Run(ss) && k < |ss| && i < |ss[k].threads| && ss[k].threads[i] != [] && Top(ss[k].threads[i]).Free?
    ensures var s, q := ss[k].mem, Top(ss[k].threads[i]).q;
      && q in s.queues && Closed(s, q) && s.queues[q].msgs == []
      && s.logs[s.queues[q].handle].begun == s.logs[s.queues[q].handle].pushed
  {
    Always(ss, k);
    SafeExactly(ss, k, i);
    var s, n, q := ss[k].mem, Total(ss[k].threads), Top(ss[k].threads[i]).q;
    var h := s.queues[q].handle;
    TopHeld(ss[k], i);
    assert QueueOk(s, n, q);
    assert LogOk(s, n, h);
  }

  // ---------- two launches that are overtaken ----------

  /** A context exists exactly as long as its handle is registered or some call holds or deletes it. */
  lemma ContextAlive(ss: seq<State>, k: nat, h: nat)
    requires Run(ss) && k < |ss|
    ensures h in ss[k].mem.ctxs <==> Kept(ss[k].mem, Total(ss[k].threads), h)
  {
    Always(ss, k);
    ContextIff(ss[k].mem, Total(ss[k].threads), h);
  }

  /** So what the creator does with the context after its release is safe exactly then. */
  lemma BorrowSafe(ss: seq<State>, k: nat, i: nat)
    requires Run(ss) && k < |ss| && i < |ss[k].threads| && ss[k].threads[i] != [] && Borrows(Top(ss[k].threads[i]))
    ensures Safe(ss[k].mem, Top(ss[k].threads[i])) <==> Kept(ss[k].mem, Total(ss[k].threads), Top(ss[k].threads[i]).h)
  {
    SafeExactly(ss, k, i);
  }

  lemma Reaches(s: State, i: nat, c: Choice, s': State)
    requires i < |s.threads| && s.threads[i] != [] && Safe(s.mem, Top(s.threads[i]))
    requires var (mem, next) := Act(s.mem, Top(s.threads[i]), c);
      && mem.global == s'.mem.global && mem.queues == s'.mem.queues && mem.ctxs == s'.mem.ctxs
      && mem.table == s'.mem.table && mem.logs == s'.mem.logs
      && |s'.threads| == |s.threads| && s'.threads[i] == Below(s.threads[i]) + next
    requires forall j :: 0 <= j < |s.threads| && j != i ==> s'.threads[j] == s.threads[j]
    ensures Moves(s, i, c, s')
  {
  }

  /** The next step of thread `i` is the call `p`, and it is unsafe. */
  ghost predicate Stuck(s: State, i: nat, p: Frame) {
    i < |s.threads| && s.threads[i] != [] && Top(s.threads[i]) == p && !Safe(s.mem, p)
  }

  /** Service 1 has been registered by the first of two threads and has no mailbox yet. */
  ghost function Registered(ref: nat, second: seq<Frame>): State {
    State(Memory([], map[], map[1 := Context(0, ref, false, false)], {1}, map[]), [[End, Create(1)], second])
  }

  /** The run: registered, then the second thread sends. */
  ghost function Early(k: nat, m: Message): State {
    if k == 0 then State(Memory([], map[], map[], {}, map[]), [[End], [End]])
    else if k == 1 then Registered(2, [End])
    else if k == 2 then Registered(2, [End, Send(1, m)])
    else Registered(3, [End, Push(1, m)])
  }

  lemma EarlyLaunch(m: Message)
    ensures Next(Early(0, m), Early(1, m))
  {
    Reaches(Early(0, m), 0, Launch(1), Early(1, m));
  }

  lemma EarlyPost(m: Message)
    ensures Next(Early(1, m), Early(2, m))
  {
    Reaches(Early(1, m), 1, Post(1, m), Early(2, m));
  }

  lemma EarlyGrab(m: Message)
    ensures Next(Early(2, m), Early(3, m))
  {
    Reaches(Early(2, m), 1, Go(true, 0, 0), Early(3, m));
  }

  /** If another thread sends to the new handle before the creator has set `ctx->queue`, it pushes into a
      mailbox that does not exist. */
  lemma EarlyPush(m: Message)
    ensures exists ss :: Run(ss) && Stuck(ss[|ss| - 1], 1, Push(1, m))
  {
    EarlyStuck(m);
    forall k: nat | k < 3 ensures Next(Early(k, m), Early(k + 1, m)) { EarlyNext(k, m); }
    RunThrough((k: nat) => Early(k, m), 3, 1, Push(1, m));
  }

  lemma EarlyNext(k: nat, m: Message)
    requires k < 3
    ensures Next(Early(k, m), Early(k + 1, m))
  {
    if k == 0 { EarlyLaunch(m); } else if k == 1 { EarlyPost(m); } else { EarlyGrab(m); }
  }

  /** States that follow one another are a run. */
  lemma RunThrough(f: nat -> State, n: nat, i: nat, p: Frame)
    requires Start(f(0)) && Stuck(f(n), i, p)
    requires forall k: nat :: k < n ==> Next(f(k), f(k + 1))
    ensures exists ss :: Run(ss) && Stuck(ss[|ss| - 1], i, p)
  {
    var ss := seq(n + 1, k requires 0 <= k <= n => f(k));
    forall k | 0 < k < |ss| ensures Next(ss[k - 1], ss[k]) { assert Next(f(k - 1), f(k - 1 + 1)); }
    assert Run(ss);
  }

  lemma EarlyStuck(m: Message)
    ensures Start(Early(0, m)) && Stuck(Early(3, m), 1, Push(1, m))
  {
  }

  /** Service 1 with mailbox 7 is being launched by the first of two threads. */
  ghost function Launched(ref: nat, table: set<nat>, release: bool, first: Frame, second: seq<Frame>): State {
    State(Memory([], map[7 := Queue(1, [], true, release)], map[1 := Context(7, ref, false, true)], table,
                 map[1 := Log(7, [], [], [])]),
          [[End, first], second])
  }

  /** How far the creator gets before the second thread kills the service. */
  datatype Point = AtReady | AtSign | AtAnswer

  function Creator(x: Point): seq<Frame> {
    match x
    case AtReady => [End, Ready(1, 7)]
    case AtSign => [End, Answer(1), Sign(1, 9)]
    case AtAnswer => [End, Answer(1)]
  }

  /** Service 1 with mailbox 7 after init has returned. */
  ghost function Leaving(x: Point, ref: nat, table: set<nat>, release: bool, second: seq<Frame>): State {
    State(Memory(if x == AtReady then [] else [7], map[7 := Queue(1, [], true, release)],
                 map[1 := Context(7, ref, x != AtReady, true)], table, map[1 := Log(7, [], [], [])]),
          [Creator(x), second])
  }

  /** The state in which the second thread begins. */
  lemma Begins(x: Point) returns (ss: seq<State>)
    ensures Run(ss) && ss[|ss| - 1] == Leaving(x, 1, {1}, false, [End])
  {
    ss := BeginsReady();
    if x != AtReady {
      ss := BeginsAnnounce(ss);
      var s := State(Leaving(AtSign, 1, {1}, false, []).mem, [[End, Announce(1)], [End]]);
      var last := Leaving(x, 1, {1}, false, [End]);
      Reaches(s, 0, Go(x == AtSign, 0, 9), last);
      ss := Longer(ss, last);
    }
  }

  lemma Longer(ss: seq<State>, s: State) returns (ss': seq<State>)
    requires Run(ss) && Next(ss[|ss| - 1], s)
    ensures Run(ss') && ss'[|ss'| - 1] == s
  {
    ss' := ss + [s];
    forall k | 0 < k < |ss'| ensures Next(ss'[k - 1], ss'[k]) {
      if k < |ss| { assert Next(ss[k - 1], ss[k]); }
    }
  }

  lemma BeginsReady() returns (ss: seq<State>)
    ensures Run(ss) && ss[|ss| - 1] == Leaving(AtReady, 1, {1}, false, [End])
  {
    ss := BeginsInit();
    var s := Leaving(AtReady, 1, {1}, false, [End]);
    Reaches(Launched(2, {1}, false, Init(1, 7), [End]), 0, Go(true, 0, 0), s);
    ss := Longer(ss, s);
  }

  lemma BeginsInit() returns (ss: seq<State>)
    ensures Run(ss) && ss[|ss| - 1] == Launched(2, {1}, false, Init(1, 7), [End])
  {
    ss := BeginsRegistered();
    var s := Launched(2, {1}, false, Init(1, 7), [End]);
    Reaches(Registered(2, [End]), 0, Go(true, 0, 7), s);
    ss := Longer(ss, s);
  }

  lemma BeginsRegistered() returns (ss: seq<State>)
    ensures Run(ss) && ss[|ss| - 1] == Registered(2, [End])
  {
    ss := [State(Memory([], map[], map[], {}, map[]), [[End], [End]])];
    Reaches(ss[0], 0, Launch(1), Registered(2, [End]));
    ss := Longer(ss, Registered(2, [End]));
  }

  lemma BeginsAnnounce(before: seq<State>) returns (ss: seq<State>)
    requires Run(before) && before[|before| - 1] == Leaving(AtReady, 1, {1}, false, [End])
    ensures Run(ss)
    ensures ss[|ss| - 1] == State(Leaving(AtSign, 1, {1}, false, []).mem, [[End, Announce(1)], [End]])
  {
    var m := Leaving(AtReady, 1, {1}, false, []).mem;
    var s := State(m.(ctxs := map[1 := Context(7, 1, true, true)]), [[End, Announce(1), Publish(7)], [End]]);
    Reaches(Leaving(AtReady, 1, {1}, false, [End]), 0, Go(true, 0, 0), s);
    ss := Longer(before, s);
    var t := State(Leaving(AtSign, 1, {1}, false, []).mem, [[End, Announce(1)], [End]]);
    Reaches(s, 0, Go(true, 0, 0), t);
    ss := Longer(ss, t);
  }

  /** The states in which the second thread kills the service. */
  ghost function Killed(x: Point, k: nat): State {
    if k == 0 then Leaving(x, 1, {1}, false, [End])
    else if k == 1 then Leaving(x, 1, {1}, false, [End, Retire(1)])
    else if k == 2 then Leaving(x, 1, {}, false, [End, Unref(1)])
    else if k == 3 then Leaving(x, 0, {}, false, [End, Mark(1)])
    else if k == 4 then Leaving(x, 0, {}, true, [End, Delete(1)])
    else State(Leaving(x, 0, {}, true, []).mem.(ctxs := map[]), [Creator(x), [End]])
  }

  lemma KillStarts(x: Point)
    ensures Next(Killed(x, 0), Killed(x, 1))
  {
    Reaches(Killed(x, 0), 1, Kill(1), Killed(x, 1));
  }

  /** It retires the handle, releases the context, marks the mailbox and deletes the context. */
  lemma KillRetires(x: Point)
    ensures Next(Killed(x, 1), Killed(x, 2))
  {
    Reaches(Killed(x, 1), 1, Go(true, 0, 0), Killed(x, 2));
  }

  lemma KillReleases(x: Point)
    ensures Next(Killed(x, 2), Killed(x, 3))
  {
    Reaches(Killed(x, 2), 1, Go(true, 0, 0), Killed(x, 3));
  }

  lemma KillMarks(x: Point)
    ensures Next(Killed(x, 3), Killed(x, 4))
  {
    Reaches(Killed(x, 3), 1, Go(true, 0, 0), Killed(x, 4));
  }

  lemma KillDeletes(x: Point)
    ensures Next(Killed(x, 4), Killed(x, 5))
  {
    Reaches(Killed(x, 4), 1, Go(true, 0, 0), Killed(x, 5));
  }

  lemma KillNext(x: Point, k: nat)
    requires k < 5
    ensures Next(Killed(x, k), Killed(x, k + 1))
  {
    match k {
      case 0 => KillStarts(x);
      case 1 => KillRetires(x);
      case 2 => KillReleases(x);
      case 3 => KillMarks(x);
      case _ => KillDeletes(x);
    }
  }

  lemma {:induction false} KillRun(x: Point, k: nat) returns (ss: seq<State>)
    requires k <= 5
    ensures Run(ss) && ss[|ss| - 1] == Killed(x, k)
    decreases k
  {
    if k == 0 {
      ss := Begins(x);
    } else {
      ss := KillRun(x, k - 1);
      KillNext(x, k - 1);
      ss := Longer(ss, Killed(x, k));
    }
  }

  /** If another thread retires the new handle after the creator's release, the creator is about to touch a
      context that has been freed: to mark it, to sign the log message with its handle, or to read its handle
      for the answer. */
  lemma LaunchRace(x: Point)
    ensures exists ss :: Run(ss) && Stuck(ss[|ss| - 1], 0, Top(Creator(x)))
  {
    var ss := KillRun(x, 5);
    RaceStuck(x);
  }

  lemma RaceStuck(x: Point)
    ensures Stuck(Killed(x, 5), 0, Top(Creator(x)))
  {
  }
}
