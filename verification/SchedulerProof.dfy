/** The invariant of the scheduler, and its proof effect by effect. */
module SchedulerProof {
  import opened Mailbox
  import opened Scheduler

  function One(b: bool): nat { if b then 1 else 0 }

  /** The number of places where a mailbox is: held by a thread, or in the global queue. */
  ghost function Places(s: Memory, n: multiset<Key>, q: nat): nat {
    n[KOwn(q)] + n[KBusy(q)] + n[KNew(q)] + n[KDrop(q)] + n[KFree(q)] + multiset(s.global)[q]
  }

  /** References, deletion and readiness of one handle; `n` is what all threads hold. */
  ghost predicate HandleOk(s: Memory, n: multiset<Key>, h: nat) {
    if h in s.ctxs then
      var c := s.ctxs[h];
      && c.ref == n[KRef(h)] + n[KActive(h)] + n[KMake(h)] + One(h in s.table)
      && n[KMark(h)] + n[KDelete(h)] == One(c.ref == 0)
      && n[KMake(h)] == One(!c.made)
      && (c.made <==> h in s.logs) && (c.init ==> c.made)
      && (n[KActive(h)] > 0 ==> c.init)
      && (c.made ==>
            && c.queue == s.logs[h].queue
            && (n[KDelete(h)] == 0 ==> c.queue in s.queues && s.queues[c.queue].handle == h && !s.queues[c.queue].release)
            && (h in s.table && !c.init ==> n[KNew(c.queue)] > 0))
    else
      h !in s.table && n[KRef(h)] + n[KActive(h)] + n[KMake(h)] + n[KMark(h)] + n[KDelete(h)] == 0
  }

  /** The place and the flags of one mailbox. */
  ghost predicate QueueOk(s: Memory, n: multiset<Key>, q: nat) {
    if q in s.queues then
      var x := s.queues[q];
      && x.handle in s.logs && s.logs[x.handle].queue == q
      && Places(s, n, q) == One(x.inGlobal || x.release)
      && (!x.inGlobal && !x.release ==> x.msgs == [])
      && (if x.release then x.handle in s.ctxs ==> n[KDelete(x.handle)] == 1
          else x.handle in s.ctxs && n[KDelete(x.handle)] == 0)
      && (n[KDrop(q)] + n[KFree(q)] > 0 ==> x.release)
      && (n[KFree(q)] > 0 ==> x.msgs == [])
    else Places(s, n, q) == 0
  }

  /** The mailbox of a handle exists. */
  ghost predicate HasQueue(s: Memory, h: nat)
    requires h in s.logs
  {
    s.logs[h].queue in s.queues && s.queues[s.logs[h].queue].handle == h
  }

  /** No message of a handle is lost, doubled or reordered. */
  ghost predicate LogOk(s: Memory, n: multiset<Key>, h: nat) {
    if h !in s.logs then n[KHome(h)] == 0 else
      var log := s.logs[h];
      && log.begun <= log.taken
      && log.pushed == log.taken + (if HasQueue(s, h) then s.queues[log.queue].msgs else [])
      && |log.taken| == |log.begun| + (if HasQueue(s, h) then n[KBusy(log.queue)] else 0)
      && n[KHome(h)] == (if HasQueue(s, h) then n[KNew(log.queue)] else 0)
  }

  /** A message taken but not yet handled is in the hands of one thread. */
  ghost predicate PendOk(s: Memory, n: multiset<Key>, h: nat, m: Message) {
    n[KPend(h, m)] == One(h in s.logs && Waiting(s.logs[h]) == [m])
  }

  ghost function Waiting(log: Log): seq<Message> {
    if |log.begun| < |log.taken| then log.taken[|log.begun|..] else []
  }

  ghost predicate Inv(s: Memory, n: multiset<Key>) { Placed(s, n) && Logged(s, n) }

  /** The half of the invariant about places and references. */
  ghost predicate Placed(s: Memory, n: multiset<Key>) {
    (forall h: nat :: HandleOk(s, n, h)) && (forall q: nat :: QueueOk(s, n, q))
  }

  /** The half about messages. */
  ghost predicate Logged(s: Memory, n: multiset<Key>) {
    (forall h: nat :: LogOk(s, n, h)) && (forall h: nat, m :: PendOk(s, n, h, m))
  }

  /** What all threads hold after one of them gives up `minus` and takes `plus`. */
  ghost function Change(n: multiset<Key>, minus: multiset<Key>, plus: multiset<Key>): multiset<Key> {
    n - minus + plus
  }

  lemma UnrefHandles(s: Memory, n: multiset<Key>, h: nat, x: nat)
    requires Inv(s, n) && n[KRef(h)] > 0
    ensures Held(s, h)
    ensures HandleOk(DropRef(s, h), Change(n, multiset{KRef(h)}, if s.ctxs[h].ref == 1 then multiset{KMark(h)} else multiset{}), x)
  {
    assert HandleOk(s, n, h) && HandleOk(s, n, x);
  }

  lemma UnrefQueues(s: Memory, n: multiset<Key>, h: nat, q: nat)
    requires Inv(s, n) && n[KRef(h)] > 0
    ensures Held(s, h)
    ensures QueueOk(DropRef(s, h), Change(n, multiset{KRef(h)}, if s.ctxs[h].ref == 1 then multiset{KMark(h)} else multiset{}), q)
  {
    assert HandleOk(s, n, h) && QueueOk(s, n, q);
  }

  lemma UnrefKeepsPlaced(s: Memory, n: multiset<Key>, h: nat)
    requires Inv(s, n) && n[KRef(h)] > 0
    ensures Held(s, h)
    ensures Placed(DropRef(s, h), Change(n, multiset{KRef(h)}, if s.ctxs[h].ref == 1 then multiset{KMark(h)} else multiset{}))
  {
    UnrefHandles(s, n, h, h);
    var s', n' := DropRef(s, h), Change(n, multiset{KRef(h)}, if s.ctxs[h].ref == 1 then multiset{KMark(h)} else multiset{});
    forall x: nat ensures HandleOk(s', n', x) { UnrefHandles(s, n, h, x); }
    forall x: nat ensures QueueOk(s', n', x) { UnrefQueues(s, n, h, x); }
  }

  lemma UnrefKeepsLogged(s: Memory, n: multiset<Key>, h: nat)
    requires Inv(s, n) && n[KRef(h)] > 0
    ensures Held(s, h)
    ensures Logged(DropRef(s, h), Change(n, multiset{KRef(h)}, if s.ctxs[h].ref == 1 then multiset{KMark(h)} else multiset{}))
  {
    assert HandleOk(s, n, h);
    var s', n' := DropRef(s, h), Change(n, multiset{KRef(h)}, if s.ctxs[h].ref == 1 then multiset{KMark(h)} else multiset{});
    forall x: nat ensures LogOk(s', n', x) { assert LogOk(s, n, x); }
    forall x: nat, y ensures PendOk(s', n', x, y) { assert PendOk(s, n, x, y); }
  }

  lemma UnrefKeeps(s: Memory, n: multiset<Key>, h: nat)
    requires Inv(s, n) && n[KRef(h)] > 0
    ensures Held(s, h)
    ensures Inv(DropRef(s, h), Change(n, multiset{KRef(h)}, if s.ctxs[h].ref == 1 then multiset{KMark(h)} else multiset{}))
  {
    UnrefKeepsPlaced(s, n, h);
    UnrefKeepsLogged(s, n, h);
  }

  lemma GrabKeeps(s: Memory, n: multiset<Key>, h: nat)
    requires Inv(s, n) && h in s.table
    ensures h in s.ctxs
    ensures Inv(AddRef(s, h), Change(n, multiset{}, multiset{KRef(h)}))
  {
    assert HandleOk(s, n, h);
    var s', n' := AddRef(s, h), Change(n, multiset{}, multiset{KRef(h)});
    forall x: nat ensures HandleOk(s', n', x) { assert HandleOk(s, n, x); }
    forall x: nat ensures QueueOk(s', n', x) { assert QueueOk(s, n, x); }
    forall x: nat ensures LogOk(s', n', x) { assert LogOk(s, n, x); }
    forall x: nat, y ensures PendOk(s', n', x, y) { assert PendOk(s, n, x, y); }
  }

  /** A worker that holds a registered mailbox takes its context, which is initialised. */
  lemma ServeKeeps(s: Memory, n: multiset<Key>, q: nat)
    requires Inv(s, n) && n[KOwn(q)] > 0 && q in s.queues && s.queues[q].handle in s.table
    ensures s.queues[q].handle in s.ctxs
    ensures Inv(AddRef(s, s.queues[q].handle), Change(n, multiset{}, multiset{KActive(s.queues[q].handle)}))
  {
    assert QueueOk(s, n, q) && HandleOk(s, n, s.queues[q].handle);
    var s', n' := AddRef(s, s.queues[q].handle), Change(n, multiset{}, multiset{KActive(s.queues[q].handle)});
    forall x: nat ensures HandleOk(s', n', x) { assert HandleOk(s, n, x); }
    forall x: nat ensures QueueOk(s', n', x) { assert QueueOk(s, n, x); }
    forall x: nat ensures LogOk(s', n', x) { assert LogOk(s, n, x); }
    forall x: nat, y ensures PendOk(s', n', x, y) { assert PendOk(s, n, x, y); }
  }

  lemma EnqueueKeeps(s: Memory, n: multiset<Key>, q: nat)
    requires Inv(s, n) && n[KOwn(q)] > 0
    ensures q in s.queues && q !in s.global
    ensures Inv(Enqueue(s, q), Change(n, multiset{KOwn(q)}, multiset{}))
  {
    assert QueueOk(s, n, q);
    var s', n' := Enqueue(s, q), Change(n, multiset{KOwn(q)}, multiset{});
    forall x: nat ensures HandleOk(s', n', x) { assert HandleOk(s, n, x); }
    forall x: nat ensures QueueOk(s', n', x) { assert QueueOk(s, n, x); }
    forall x: nat ensures LogOk(s', n', x) { assert LogOk(s, n, x); }
    forall x: nat, y ensures PendOk(s', n', x, y) { assert PendOk(s, n, x, y); }
  }

  lemma DequeueKeeps(s: Memory, n: multiset<Key>)
    requires Inv(s, n) && s.global != []
    ensures Inv(Dequeue(s), Change(n, multiset{}, multiset{KOwn(s.global[0])}))
  {
    assert s.global == [s.global[0]] + s.global[1..];
    var s', n' := Dequeue(s), Change(n, multiset{}, multiset{KOwn(s.global[0])});
    forall x: nat ensures HandleOk(s', n', x) { assert HandleOk(s, n, x); }
    forall x: nat ensures QueueOk(s', n', x) { assert QueueOk(s, n, x); }
    forall x: nat ensures LogOk(s', n', x) { assert LogOk(s, n, x); }
    forall x: nat, y ensures PendOk(s', n', x, y) { assert PendOk(s, n, x, y); }
  }

  lemma LeaveKeeps(s: Memory, n: multiset<Key>, h: nat)
    requires Inv(s, n) && n[KActive(h)] > 0
    ensures Inv(s, Change(n, multiset{KActive(h)}, multiset{KRef(h)}))
  {
    var s', n' := s, Change(n, multiset{KActive(h)}, multiset{KRef(h)});
    forall x: nat ensures HandleOk(s', n', x) { assert HandleOk(s, n, x); }
    forall x: nat ensures QueueOk(s', n', x) { assert QueueOk(s, n, x); }
    forall x: nat ensures LogOk(s', n', x) { assert LogOk(s, n, x); }
    forall x: nat, y ensures PendOk(s', n', x, y) { assert PendOk(s, n, x, y); }
  }

  lemma TakeKeepsHandles(s: Memory, n: multiset<Key>, q: nat, x: nat)
    requires Inv(s, n) && n[KOwn(q)] > 0 && q in s.queues && s.queues[q].msgs != []
    ensures s.queues[q].handle in s.logs
    ensures HandleOk(Take(s, q, false), Change(n, multiset{KOwn(q)}, multiset{KBusy(q), KPend(s.queues[q].handle, s.queues[q].msgs[0])}), x)
  {
    assert QueueOk(s, n, q) && HandleOk(s, n, x);
  }

  lemma TakeKeepsQueues(s: Memory, n: multiset<Key>, q: nat, x: nat)
    requires Inv(s, n) && n[KOwn(q)] > 0 && q in s.queues && s.queues[q].msgs != []
    ensures s.queues[q].handle in s.logs
    ensures QueueOk(Take(s, q, false), Change(n, multiset{KOwn(q)}, multiset{KBusy(q), KPend(s.queues[q].handle, s.queues[q].msgs[0])}), x)
  {
    assert QueueOk(s, n, q) && QueueOk(s, n, x);
  }

  lemma TakeKeepsPlaced(s: Memory, n: multiset<Key>, q: nat)
    requires Inv(s, n) && n[KOwn(q)] > 0 && q in s.queues && s.queues[q].msgs != []
    ensures s.queues[q].handle in s.logs
    ensures Placed(Take(s, q, false), Change(n, multiset{KOwn(q)}, multiset{KBusy(q), KPend(s.queues[q].handle, s.queues[q].msgs[0])}))
  {
    TakeKeepsHandles(s, n, q, 0);
    var s', n' := Take(s, q, false), Change(n, multiset{KOwn(q)}, multiset{KBusy(q), KPend(s.queues[q].handle, s.queues[q].msgs[0])});
    forall x: nat ensures HandleOk(s', n', x) { TakeKeepsHandles(s, n, q, x); }
    forall x: nat ensures QueueOk(s', n', x) { TakeKeepsQueues(s, n, q, x); }
  }

  lemma TakeKeepsLogged(s: Memory, n: multiset<Key>, q: nat)
    requires Inv(s, n) && n[KOwn(q)] > 0 && q in s.queues && s.queues[q].msgs != []
    ensures s.queues[q].handle in s.logs
    ensures Logged(Take(s, q, false), Change(n, multiset{KOwn(q)}, multiset{KBusy(q), KPend(s.queues[q].handle, s.queues[q].msgs[0])}))
  {
    assert QueueOk(s, n, q) && LogOk(s, n, s.queues[q].handle);
    var s', n' := Take(s, q, false), Change(n, multiset{KOwn(q)}, multiset{KBusy(q), KPend(s.queues[q].handle, s.queues[q].msgs[0])});
    forall x: nat ensures LogOk(s', n', x) { assert LogOk(s, n, x); }
    forall x: nat, y ensures PendOk(s', n', x, y) { assert PendOk(s, n, x, y); }
  }

  lemma TakeKeeps(s: Memory, n: multiset<Key>, q: nat)
    requires Inv(s, n) && n[KOwn(q)] > 0 && q in s.queues && s.queues[q].msgs != []
    ensures s.queues[q].handle in s.logs
    ensures Inv(Take(s, q, false), Change(n, multiset{KOwn(q)}, multiset{KBusy(q), KPend(s.queues[q].handle, s.queues[q].msgs[0])}))
  {
    TakeKeepsPlaced(s, n, q);
    TakeKeepsLogged(s, n, q);
  }

  lemma GiveUpKeeps(s: Memory, n: multiset<Key>, q: nat)
    requires Inv(s, n) && n[KOwn(q)] > 0 && q in s.queues && s.queues[q].msgs == [] && !s.queues[q].release
    ensures Inv(TakeNone(s, q), Change(n, multiset{KOwn(q)}, multiset{}))
  {
    assert QueueOk(s, n, q);
    var s', n' := TakeNone(s, q), Change(n, multiset{KOwn(q)}, multiset{});
    forall x: nat ensures HandleOk(s', n', x) { assert HandleOk(s, n, x); }
    forall x: nat ensures QueueOk(s', n', x) { assert QueueOk(s, n, x); }
    forall x: nat ensures LogOk(s', n', x) { assert LogOk(s, n, x); }
    forall x: nat, y ensures PendOk(s', n', x, y) { assert PendOk(s, n, x, y); }
  }

  lemma BeginKeepsPlaced(s: Memory, n: multiset<Key>, q: nat, h: nat, m: Message)
    requires Inv(s, n) && n[KBusy(q)] > 0 && n[KPend(h, m)] > 0 && h in s.logs && s.logs[h].queue == q
    ensures Placed(Begin(s, h, m), Change(n, multiset{KBusy(q), KPend(h, m)}, multiset{KOwn(q)}))
  {
    assert QueueOk(s, n, q) && LogOk(s, n, h) && PendOk(s, n, h, m);
    var s', n' := Begin(s, h, m), Change(n, multiset{KBusy(q), KPend(h, m)}, multiset{KOwn(q)});
    forall x: nat ensures HandleOk(s', n', x) { assert HandleOk(s, n, x); }
    forall x: nat ensures QueueOk(s', n', x) { assert QueueOk(s, n, x); }
  }

  lemma BeginKeepsLogged(s: Memory, n: multiset<Key>, q: nat, h: nat, m: Message)
    requires Inv(s, n) && n[KBusy(q)] > 0 && n[KPend(h, m)] > 0 && h in s.logs && s.logs[h].queue == q
    ensures Logged(Begin(s, h, m), Change(n, multiset{KBusy(q), KPend(h, m)}, multiset{KOwn(q)}))
  {
    assert QueueOk(s, n, q) && LogOk(s, n, h) && PendOk(s, n, h, m);
    var s', n' := Begin(s, h, m), Change(n, multiset{KBusy(q), KPend(h, m)}, multiset{KOwn(q)});
    forall x: nat ensures LogOk(s', n', x) { assert LogOk(s, n, x); }
    forall x: nat, y ensures PendOk(s', n', x, y) { assert PendOk(s, n, x, y); }
  }

  lemma BeginKeeps(s: Memory, n: multiset<Key>, q: nat, h: nat, m: Message)
    requires Inv(s, n) && n[KBusy(q)] > 0 && n[KPend(h, m)] > 0 && h in s.logs && s.logs[h].queue == q
    ensures Inv(Begin(s, h, m), Change(n, multiset{KBusy(q), KPend(h, m)}, multiset{KOwn(q)}))
  {
    BeginKeepsPlaced(s, n, q, h, m);
    BeginKeepsLogged(s, n, q, h, m);
  }

  /** A thread that finds the mailbox outside the global queue holds it for a moment. */
  ghost function Woken(s: Memory, h: nat): multiset<Key>
    requires Alive(s, h)
  {
    if s.queues[s.ctxs[h].queue].inGlobal then multiset{} else multiset{KOwn(s.ctxs[h].queue)}
  }

  /** The mailbox of a context without references has not been marked. */
  lemma FlagFound(s: Memory, n: multiset<Key>, h: nat)
    requires Inv(s, n) && n[KMark(h)] > 0
    ensures Alive(s, h) && !s.queues[s.ctxs[h].queue].release && Pushable(s, h)
  {
    assert HandleOk(s, n, h);
    assert QueueOk(s, n, s.ctxs[h].queue);
  }

  ghost function Flagged(s: Memory, q: nat): Memory
    requires q in s.queues
  {
    s.(queues := s.queues[q := Marked(s.queues[q])])
  }

  lemma FlagQueues(s: Memory, n: multiset<Key>, h: nat, n': multiset<Key>, x: nat)
    requires Inv(s, n) && n[KMark(h)] > 0 && Alive(s, h)
    requires n' == Change(n, multiset{KMark(h)}, multiset{KDelete(h)} + Woken(s, h))
    ensures QueueOk(Flagged(s, s.ctxs[h].queue), n', x)
  {
    assert HandleOk(s, n, h);
    assert QueueOk(s, n, s.ctxs[h].queue) && QueueOk(s, n, x);
  }

  lemma FlagHandles(s: Memory, n: multiset<Key>, h: nat, n': multiset<Key>, x: nat)
    requires Inv(s, n) && n[KMark(h)] > 0 && Alive(s, h)
    requires n' == Change(n, multiset{KMark(h)}, multiset{KDelete(h)} + Woken(s, h))
    ensures HandleOk(Flagged(s, s.ctxs[h].queue), n', x)
  {
    assert HandleOk(s, n, h) && HandleOk(s, n, x);
    assert QueueOk(s, n, s.ctxs[h].queue);
  }

  lemma FlagPlaced(s: Memory, n: multiset<Key>, h: nat, n': multiset<Key>)
    requires Inv(s, n) && n[KMark(h)] > 0 && Alive(s, h)
    requires n' == Change(n, multiset{KMark(h)}, multiset{KDelete(h)} + Woken(s, h))
    ensures Placed(Flagged(s, s.ctxs[h].queue), n')
  {
    var s' := Flagged(s, s.ctxs[h].queue);
    forall x: nat ensures HandleOk(s', n', x) { FlagHandles(s, n, h, n', x); }
    forall x: nat ensures QueueOk(s', n', x) { FlagQueues(s, n, h, n', x); }
  }

  lemma FlagLogged(s: Memory, n: multiset<Key>, h: nat, n': multiset<Key>)
    requires Inv(s, n) && n[KMark(h)] > 0 && Alive(s, h)
    requires n' == Change(n, multiset{KMark(h)}, multiset{KDelete(h)} + Woken(s, h))
    ensures Logged(Flagged(s, s.ctxs[h].queue), n')
  {
    var s' := Flagged(s, s.ctxs[h].queue);
    forall x: nat ensures LogOk(s', n', x) { assert LogOk(s, n, x); }
    forall x: nat, y ensures PendOk(s', n', x, y) { assert PendOk(s, n, x, y); }
  }

  /** The flag of `skynet_mq_mark_release`: an idle mailbox has now to be pushed by the thread. */
  lemma FlagKeeps(s: Memory, n: multiset<Key>, h: nat)
    requires Inv(s, n) && n[KMark(h)] > 0
    ensures Alive(s, h) && !s.queues[s.ctxs[h].queue].release && Pushable(s, h)
    ensures Inv(Flagged(s, s.ctxs[h].queue), Change(n, multiset{KMark(h)}, multiset{KDelete(h)} + Woken(s, h)))
  {
    FlagFound(s, n, h);
    var n' := Change(n, multiset{KMark(h)}, multiset{KDelete(h)} + Woken(s, h));
    FlagPlaced(s, n, h, n');
    FlagLogged(s, n, h, n');
  }

  lemma MarkKeeps(s: Memory, n: multiset<Key>, h: nat)
    requires Inv(s, n) && n[KMark(h)] > 0
    ensures Alive(s, h) && !s.queues[s.ctxs[h].queue].release && Pushable(s, h)
    ensures Inv(MarkRelease(s, s.ctxs[h].queue), Change(n, multiset{KMark(h)}, multiset{KDelete(h)}))
  {
    FlagKeeps(s, n, h);
    var q := s.ctxs[h].queue;
    if !s.queues[q].inGlobal {
      var s1, n1 := Flagged(s, q), Change(n, multiset{KMark(h)}, multiset{KDelete(h)} + Woken(s, h));
      EnqueueKeeps(s1, n1, q);
      assert Change(n1, multiset{KOwn(q)}, multiset{}) == Change(n, multiset{KMark(h)}, multiset{KDelete(h)});
    } else {
      assert multiset{KDelete(h)} + Woken(s, h) == multiset{KDelete(h)};
    }
  }

  lemma DeleteKeeps(s: Memory, n: multiset<Key>, h: nat)
    requires Inv(s, n) && n[KDelete(h)] > 0
    ensures h in s.ctxs && s.ctxs[h].ref == 0
    ensures Inv(s.(ctxs := s.ctxs - {h}), Change(n, multiset{KDelete(h)}, multiset{}))
  {
    assert HandleOk(s, n, h);
    var s', n' := s.(ctxs := s.ctxs - {h}), Change(n, multiset{KDelete(h)}, multiset{});
    forall x: nat ensures HandleOk(s', n', x) { assert HandleOk(s, n, x); }
    forall x: nat ensures QueueOk(s', n', x) { assert QueueOk(s, n, x); }
    forall x: nat ensures LogOk(s', n', x) { assert LogOk(s, n, x); }
    forall x: nat, y ensures PendOk(s', n', x, y) { assert PendOk(s, n, x, y); }
  }

  lemma CloseKeeps(s: Memory, n: multiset<Key>, q: nat)
    requires Inv(s, n) && n[KOwn(q)] > 0 && q in s.queues && s.queues[q].release
    ensures Inv(s, Change(n, multiset{KOwn(q)}, multiset{KDrop(q)}))
  {
    var s', n' := s, Change(n, multiset{KOwn(q)}, multiset{KDrop(q)});
    forall x: nat ensures HandleOk(s', n', x) { assert HandleOk(s, n, x); }
    forall x: nat ensures QueueOk(s', n', x) { assert QueueOk(s, n, x); }
    forall x: nat ensures LogOk(s', n', x) { assert LogOk(s, n, x); }
    forall x: nat, y ensures PendOk(s', n', x, y) { assert PendOk(s, n, x, y); }
  }

  lemma DropKeeps(s: Memory, n: multiset<Key>, q: nat)
    requires Inv(s, n) && n[KDrop(q)] > 0 && q in s.queues && s.queues[q].msgs != []
    ensures s.queues[q].handle in s.logs
    ensures Inv(Take(s, q, true), n)
  {
    assert QueueOk(s, n, q) && LogOk(s, n, s.queues[q].handle);
    var s', n' := Take(s, q, true), n;
    forall x: nat ensures HandleOk(s', n', x) { assert HandleOk(s, n, x); }
    forall x: nat ensures QueueOk(s', n', x) { assert QueueOk(s, n, x); }
    forall x: nat ensures LogOk(s', n', x) { assert LogOk(s, n, x); }
    forall x: nat, y ensures PendOk(s', n', x, y) { assert PendOk(s, n, x, y); }
  }

  lemma DropEndKeeps(s: Memory, n: multiset<Key>, q: nat)
    requires Inv(s, n) && n[KDrop(q)] > 0 && q in s.queues && s.queues[q].msgs == []
    ensures Inv(TakeNone(s, q), Change(n, multiset{KDrop(q)}, multiset{KFree(q)}))
  {
    assert QueueOk(s, n, q);
    var s', n' := TakeNone(s, q), Change(n, multiset{KDrop(q)}, multiset{KFree(q)});
    forall x: nat ensures HandleOk(s', n', x) { assert HandleOk(s, n, x); }
    forall x: nat ensures QueueOk(s', n', x) { assert QueueOk(s, n, x); }
    forall x: nat ensures LogOk(s', n', x) { assert LogOk(s, n, x); }
    forall x: nat, y ensures PendOk(s', n', x, y) { assert PendOk(s, n, x, y); }
  }

  lemma FreeKeeps(s: Memory, n: multiset<Key>, q: nat)
    requires Inv(s, n) && n[KFree(q)] > 0
    ensures Inv(s.(queues := s.queues - {q}), Change(n, multiset{KFree(q)}, multiset{}))
  {
    assert QueueOk(s, n, q);
    var s', n' := s.(queues := s.queues - {q}), Change(n, multiset{KFree(q)}, multiset{});
    forall x: nat ensures HandleOk(s', n', x) { assert HandleOk(s, n, x); }
    forall x: nat ensures QueueOk(s', n', x) { assert QueueOk(s, n, x); }
    forall x: nat ensures LogOk(s', n', x) { assert LogOk(s, n, x); }
    forall x: nat, y ensures PendOk(s', n', x, y) { assert PendOk(s, n, x, y); }
  }

  /** The part of `skynet_mq_push` before the global queue. */
  ghost function Appended(s: Memory, h: nat, m: Message): Memory
    requires Alive(s, h)
  {
    var q := s.ctxs[h].queue;
    s.(queues := s.queues[q := Pushed(s.queues[q], m)], logs := s.logs[h := s.logs[h].(pushed := s.logs[h].pushed + [m])])
  }

  lemma AppendFound(s: Memory, n: multiset<Key>, h: nat)
    requires Inv(s, n) && n[KRef(h)] > 0 && n[KMake(h)] == 0
    ensures Alive(s, h) && Pushable(s, h)
  {
    assert HandleOk(s, n, h);
    assert QueueOk(s, n, s.ctxs[h].queue);
  }

  lemma AppendPlaced(s: Memory, n: multiset<Key>, h: nat, m: Message, n': multiset<Key>)
    requires Inv(s, n) && n[KRef(h)] > 0 && n[KMake(h)] == 0 && Alive(s, h) && n' == Change(n, multiset{}, Woken(s, h))
    ensures Placed(Appended(s, h, m), n')
  {
    assert HandleOk(s, n, h);
    assert QueueOk(s, n, s.ctxs[h].queue);
    var s' := Appended(s, h, m);
    forall x: nat ensures HandleOk(s', n', x) { assert HandleOk(s, n, x); }
    forall x: nat ensures QueueOk(s', n', x) { assert QueueOk(s, n, x); }
  }

  lemma AppendLogged(s: Memory, n: multiset<Key>, h: nat, m: Message, n': multiset<Key>)
    requires Inv(s, n) && n[KRef(h)] > 0 && n[KMake(h)] == 0 && Alive(s, h) && n' == Change(n, multiset{}, Woken(s, h))
    ensures Logged(Appended(s, h, m), n')
  {
    assert HandleOk(s, n, h);
    assert QueueOk(s, n, s.ctxs[h].queue);
    var s' := Appended(s, h, m);
    forall x: nat ensures LogOk(s', n', x) { assert LogOk(s, n, x); }
    forall x: nat, y ensures PendOk(s', n', x, y) { assert PendOk(s, n, x, y); }
  }

  lemma AppendKeeps(s: Memory, n: multiset<Key>, h: nat, m: Message)
    requires Inv(s, n) && n[KRef(h)] > 0 && n[KMake(h)] == 0
    ensures Alive(s, h) && Pushable(s, h)
    ensures Inv(Appended(s, h, m), Change(n, multiset{}, Woken(s, h)))
  {
    AppendFound(s, n, h);
    var n' := Change(n, multiset{}, Woken(s, h));
    AppendPlaced(s, n, h, m, n');
    AppendLogged(s, n, h, m, n');
  }

  lemma PushKeeps(s: Memory, n: multiset<Key>, h: nat, m: Message)
    requires Inv(s, n) && n[KRef(h)] > 0 && n[KMake(h)] == 0
    ensures Alive(s, h) && Pushable(s, h)
    ensures Inv(MqPush(s, s.ctxs[h].queue, m), n)
  {
    AppendKeeps(s, n, h, m);
    var q := s.ctxs[h].queue;
    if !s.queues[q].inGlobal {
      EnqueueKeeps(Appended(s, h, m), Change(n, multiset{}, Woken(s, h)), q);
      assert Change(Change(n, multiset{}, Woken(s, h)), multiset{KOwn(q)}, multiset{}) == n;
    } else {
      assert Change(n, multiset{}, Woken(s, h)) == n;
    }
  }

  lemma RetireKeeps(s: Memory, n: multiset<Key>, h: nat)
    requires Inv(s, n) && h in s.table
    ensures h in s.ctxs
    ensures Inv(s.(table := s.table - {h}), Change(n, multiset{}, multiset{KRef(h)}))
  {
    assert HandleOk(s, n, h);
    var s', n' := s.(table := s.table - {h}), Change(n, multiset{}, multiset{KRef(h)});
    forall x: nat ensures HandleOk(s', n', x) { assert HandleOk(s, n, x); }
    forall x: nat ensures QueueOk(s', n', x) { assert QueueOk(s, n, x); }
    forall x: nat ensures LogOk(s', n', x) { assert LogOk(s, n, x); }
    forall x: nat, y ensures PendOk(s', n', x, y) { assert PendOk(s, n, x, y); }
  }

  lemma HandOverKeeps(s: Memory, n: multiset<Key>, h: nat, q: nat)
    requires Inv(s, n) && n[KHome(h)] > 0 && n[KNew(q)] > 0 && h in s.logs && s.logs[h].queue == q && (h in s.table && h in s.ctxs ==> s.ctxs[h].init)
    ensures Inv(s, Change(n, multiset{KNew(q), KHome(h)}, multiset{KOwn(q)}))
  {
    assert LogOk(s, n, h) && QueueOk(s, n, q);
    var s', n' := s, Change(n, multiset{KNew(q), KHome(h)}, multiset{KOwn(q)});
    forall x: nat ensures HandleOk(s', n', x) { assert HandleOk(s, n, x); }
    forall x: nat ensures QueueOk(s', n', x) { assert QueueOk(s, n, x); }
    forall x: nat ensures LogOk(s', n', x) { assert LogOk(s, n, x); }
    forall x: nat, y ensures PendOk(s', n', x, y) { assert PendOk(s, n, x, y); }
  }

  lemma ReadyKeeps(s: Memory, n: multiset<Key>, h: nat)
    requires Inv(s, n) && h in s.ctxs && h in s.logs
    ensures Inv(SetInit(s, h), n)
  {
    var s', n' := SetInit(s, h), n;
    forall x: nat ensures HandleOk(s', n', x) { assert HandleOk(s, n, x); }
    forall x: nat ensures QueueOk(s', n', x) { assert QueueOk(s, n, x); }
    forall x: nat ensures LogOk(s', n', x) { assert LogOk(s, n, x); }
    forall x: nat, y ensures PendOk(s', n', x, y) { assert PendOk(s, n, x, y); }
  }

  lemma RegisterKeeps(s: Memory, n: multiset<Key>, h: nat)
    requires Inv(s, n) && h !in s.logs && h !in s.ctxs
    ensures Inv(Register(s, h), Change(n, multiset{}, multiset{KMake(h)}))
  {
    assert HandleOk(s, n, h) && LogOk(s, n, h);
    var s', n' := Register(s, h), Change(n, multiset{}, multiset{KMake(h)});
    forall x: nat ensures HandleOk(s', n', x) { assert HandleOk(s, n, x); }
    forall x: nat ensures QueueOk(s', n', x) { assert QueueOk(s, n, x); }
    forall x: nat ensures LogOk(s', n', x) { assert LogOk(s, n, x); }
    forall x: nat, y ensures PendOk(s', n', x, y) { assert PendOk(s, n, x, y); }
  }

  lemma CreateKeepsHandles(s: Memory, n: multiset<Key>, h: nat, q: nat)
    requires Inv(s, n) && n[KMake(h)] > 0 && q !in s.queues
    ensures Held(s, h) && h !in s.logs
    ensures forall x: nat :: HandleOk(CreateQueue(s, h, q), Change(n, multiset{KMake(h)}, multiset{KNew(q), KHome(h), KRef(h)}), x)
  {
    assert HandleOk(s, n, h) && QueueOk(s, n, q);
    var s', n' := CreateQueue(s, h, q), Change(n, multiset{KMake(h)}, multiset{KNew(q), KHome(h), KRef(h)});
    forall x: nat ensures HandleOk(s', n', x) { assert HandleOk(s, n, x); }
  }

  lemma CreateKeepsQueues(s: Memory, n: multiset<Key>, h: nat, q: nat)
    requires Inv(s, n) && n[KMake(h)] > 0 && q !in s.queues
    ensures Held(s, h) && h !in s.logs
    ensures forall x: nat :: QueueOk(CreateQueue(s, h, q), Change(n, multiset{KMake(h)}, multiset{KNew(q), KHome(h), KRef(h)}), x)
  {
    assert HandleOk(s, n, h);
    var s', n' := CreateQueue(s, h, q), Change(n, multiset{KMake(h)}, multiset{KNew(q), KHome(h), KRef(h)});
    forall x: nat ensures QueueOk(s', n', x) { assert QueueOk(s, n, x); }
  }

  lemma CreateKeepsLogged(s: Memory, n: multiset<Key>, h: nat, q: nat)
    requires Inv(s, n) && n[KMake(h)] > 0 && q !in s.queues
    ensures Held(s, h) && h !in s.logs
    ensures Logged(CreateQueue(s, h, q), Change(n, multiset{KMake(h)}, multiset{KNew(q), KHome(h), KRef(h)}))
  {
    assert HandleOk(s, n, h) && LogOk(s, n, h) && QueueOk(s, n, q);
    var s', n' := CreateQueue(s, h, q), Change(n, multiset{KMake(h)}, multiset{KNew(q), KHome(h), KRef(h)});
    forall x: nat ensures LogOk(s', n', x) { assert LogOk(s, n, x); }
    forall x: nat, y ensures PendOk(s', n', x, y) { assert PendOk(s, n, x, y); }
  }

  lemma CreateKeeps(s: Memory, n: multiset<Key>, h: nat, q: nat)
    requires Inv(s, n) && n[KMake(h)] > 0 && q !in s.queues
    ensures Held(s, h) && h !in s.logs
    ensures Inv(CreateQueue(s, h, q), Change(n, multiset{KMake(h)}, multiset{KNew(q), KHome(h), KRef(h)}))
  {
    CreateKeepsHandles(s, n, h, q);
    CreateKeepsQueues(s, n, h, q);
    CreateKeepsLogged(s, n, h, q);
  }
}
