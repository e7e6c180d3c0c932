/** The worker scheduler of skynet_mq.c and skynet_server.c as a machine of atomic steps.

    Any number of threads run; each has a stack of calls, and one step is what the topmost
    call does under one lock or by one atomic operation.  User code (a message callback, the init and
    release functions of a service, a drop function) may send, launch and kill at will. */
module Scheduler {
  import opened Mailbox
  import opened Counting

  /** A call in progress, by what it does next. */
  datatype Frame =
    | End                                                     // code outside the scheduler
    | Worker                                                  // a worker without a queue
    | Dispatch(q: nat)                                        // skynet_context_message_dispatch
    | Loop(q: nat, h: nat, i: nat, n: nat)
    | Measure(q: nat, h: nat, m: Message, weight: nat)
    | Deliver(q: nat, h: nat, m: Message, i: nat, n: nat)
    | Running(q: nat, h: nat, i: nat, n: nat)                 // inside the callback
    | Finish(q: nat, h: nat)
    | Requeue(q: nat, nq: nat, h: nat)
    | Unref(h: nat)                                           // skynet_context_release
    | Mark(h: nat)                                            // delete_context
    | Delete(h: nat)
    | Release(q: nat)                                         // skynet_mq_release
    | Drop(q: nat)
    | Free(q: nat)
    | Send(h: nat, m: Message)                                // skynet_context_push
    | Push(h: nat, m: Message)
    | Retire(h: nat)                                          // skynet_handle_retire
    | Create(h: nat)                                          // skynet_context_new
    | Init(h: nat, q: nat)
    | Ready(h: nat, q: nat)
    | Publish(q: nat)
    | Undo(h: nat, q: nat)
    | Announce(h: nat)                                        // skynet_error, after the launch
    | Sign(h: nat, logger: nat)
    | Answer(h: nat)                                          // the caller of skynet_context_new

  /** A context is visible once its handle is set; `made` tells that its queue is set, too. */
  datatype Context = Context(queue: nat, ref: nat, init: bool, made: bool)

  /** The history of a handle: the address of its mailbox, the messages pushed, those taken
      out, and those whose handling (callback or drop) has begun. */
  datatype Log = Log(queue: nat, pushed: seq<Message>, taken: seq<Message>, begun: seq<Message>)

  /** Mailboxes are keyed by address, which may be used again after `free`; contexts by
      handle; `table` is the set of registered handles. */
  datatype Memory = Memory(
    global: seq<nat>, queues: map<nat, Queue>, ctxs: map<nat, Context>, table: set<nat>, logs: map<nat, Log>)

  datatype State = State(mem: Memory, threads: seq<seq<Frame>>)

  /** What the environment decides in a step. */
  datatype Choice =
    | Go(ok: bool, weight: int, addr: nat)  // return from user code; result of init or of a lookup; worker weight;
                                            // what malloc or the lookup gives
    | Post(h: nat, m: Message)              // user code sends
    | Kill(h: nat)                          // user code retires a handle
    | Launch(h: nat)                        // user code starts a service

  predicate UserCode(p: Frame) { p.End? || p.Running? || p.Init? || p.Drop? || p.Mark? }

  // ---------- what a step may touch ----------

  /** The objects the next step of the code dereferences exist, and its assertions hold. */
  ghost predicate Safe(s: Memory, p: Frame) {
    match p
    case Dispatch(q) => q in s.queues && (s.queues[q].handle in s.table ==> s.queues[q].handle in s.ctxs)
    case Loop(q, h, _, _) => Serving(s, q, h)
    case Measure(q, h, _, _) => Serving(s, q, h)
    case Deliver(q, h, _, _, _) => Serving(s, q, h) && s.ctxs[h].init
    case Running(q, h, _, _) => Serving(s, q, h)
    case Finish(q, h) => Serving(s, q, h)
    case Requeue(q, _, h) => Serving(s, q, h) && q !in s.global
    case Unref(h) => Held(s, h)
    case Mark(h) => Alive(s, h) && !s.queues[s.ctxs[h].queue].release && Pushable(s, h)
    case Delete(h) => h in s.ctxs && s.ctxs[h].ref == 0
    case Release(q) => q in s.queues && q !in s.global
    case Drop(q) => q in s.queues && Closed(s, q)
    case Free(q) => q in s.queues && q !in s.global && Closed(s, q) && s.queues[q].msgs == []
    case Send(h, _) => h in s.table ==> h in s.ctxs
    case Push(h, _) => Alive(s, h) && Pushable(s, h)
    case Retire(h) => h in s.table ==> h in s.ctxs
    case Create(h) => Held(s, h) && h !in s.logs
    case Init(h, q) => Held(s, h) && Serving(s, q, h)
    case Ready(h, _) => h in s.ctxs
    case Sign(h, _) => h in s.ctxs
    case Answer(h) => h in s.ctxs
    case Publish(q) => q in s.queues && q !in s.global
    case Undo(h, q) => q in s.queues && (h in s.table ==> h in s.ctxs)
    case _ => true
  }

  /** The context exists and has references left. */
  ghost predicate Held(s: Memory, h: nat) { h in s.ctxs && s.ctxs[h].ref > 0 }

  /** The context exists, and so does its mailbox. */
  ghost predicate Alive(s: Memory, h: nat) {
    h in s.ctxs && s.ctxs[h].made && s.ctxs[h].queue in s.queues && s.queues[s.ctxs[h].queue].handle == h && h in s.logs
  }

  /** If the mailbox has to go to the global queue, it is not there yet. */
  ghost predicate Pushable(s: Memory, h: nat)
    requires Alive(s, h)
  {
    !s.queues[s.ctxs[h].queue].inGlobal ==> s.ctxs[h].queue !in s.global
  }

  /** The dispatcher of `q` holds its context: `assert(q == ctx->queue)`. */
  ghost predicate Serving(s: Memory, q: nat, h: nat) { Alive(s, h) && s.ctxs[h].queue == q }

  /** The context of a mailbox has been deleted, or is about to be freed. */
  ghost predicate Closed(s: Memory, q: nat)
    requires q in s.queues
  {
    var h := s.queues[q].handle;
    && s.queues[q].release && h !in s.table && h in s.logs
    && (h in s.ctxs ==> s.ctxs[h].ref == 0)
  }

  // ---------- effects on the shared memory ----------

  function SetRef(s: Memory, h: nat, ref: nat): Memory
    requires h in s.ctxs
  {
    s.(ctxs := s.ctxs[h := s.ctxs[h].(ref := ref)])
  }

  function AddRef(s: Memory, h: nat): Memory
    requires h in s.ctxs
  {
    SetRef(s, h, s.ctxs[h].ref + 1)
  }

  /** `ATOM_DEC(&ctx->ref)` */
  function DropRef(s: Memory, h: nat): Memory
    requires h in s.ctxs && s.ctxs[h].ref > 0
  {
    SetRef(s, h, s.ctxs[h].ref - 1)
  }

  /** `skynet_globalmq_push` and `skynet_globalmq_pop` */
  function Enqueue(s: Memory, q: nat): Memory { s.(global := s.global + [q]) }

  function Dequeue(s: Memory): Memory
    requires s.global != []
  {
    s.(global := s.global[1..])
  }

  /** A message is popped; `begun` tells that its handling starts at once. */
  function Take(s: Memory, q: nat, begun: bool): Memory
    requires q in s.queues && s.queues[q].handle in s.logs && s.queues[q].msgs != []
  {
    var h, m := s.queues[q].handle, s.queues[q].msgs[0];
    var log := s.logs[h];
    s.(queues := s.queues[q := Popped(s.queues[q])],
       logs := s.logs[h := log.(taken := log.taken + [m], begun := if begun then log.begun + [m] else log.begun)])
  }

  /** A pop finds nothing. */
  function TakeNone(s: Memory, q: nat): Memory
    requires q in s.queues
  {
    s.(queues := s.queues[q := Popped(s.queues[q])])
  }

  function Begin(s: Memory, h: nat, m: Message): Memory
    requires h in s.logs
  {
    s.(logs := s.logs[h := s.logs[h].(begun := s.logs[h].begun + [m])])
  }

  /** `skynet_mq_mark_release` */
  function MarkRelease(s: Memory, q: nat): Memory
    requires q in s.queues
  {
    var s1 := s.(queues := s.queues[q := Marked(s.queues[q])]);
    if s.queues[q].inGlobal then s1 else Enqueue(s1, q)
  }

  /** `skynet_mq_push` */
  function MqPush(s: Memory, q: nat, m: Message): Memory
    requires q in s.queues && s.queues[q].handle in s.logs
  {
    var h := s.queues[q].handle;
    var s1 := s.(queues := s.queues[q := Pushed(s.queues[q], m)],
                 logs := s.logs[h := s.logs[h].(pushed := s.logs[h].pushed + [m])]);
    if s.queues[q].inGlobal then s1 else Enqueue(s1, q)
  }

  function SetInit(s: Memory, h: nat): Memory
    requires h in s.ctxs
  {
    s.(ctxs := s.ctxs[h := s.ctxs[h].(init := true)])
  }

  /** `skynet_context_new` up to `ctx->handle = skynet_handle_register(ctx)`: from then on the context can
      be grabbed. */
  function Register(s: Memory, h: nat): Memory {
    s.(ctxs := s.ctxs[h := Context(0, 2, false, false)], table := s.table + {h})
  }

  /** `ctx->queue = skynet_mq_create(ctx->handle)` */
  function CreateQueue(s: Memory, h: nat, q: nat): Memory
    requires h in s.ctxs
  {
    s.(queues := s.queues[q := Created(h)], ctxs := s.ctxs[h := s.ctxs[h].(queue := q, made := true)],
       logs := s.logs[h := Log(q, [], [], [])])
  }

  function Shifted(n: nat, weight: nat): nat {
    if weight == 0 then n else Shifted(n / 2, weight - 1)
  }

  // ---------- the code of a thread ----------

  function ActLoop(s: Memory, p: Frame, weight: int): (Memory, seq<Frame>)
    requires p.Loop? && Safe(s, p)
  {
    var Loop(q, h, i, n) := p;
    if i >= n then (s, [Finish(q, h)])
    else if s.queues[q].msgs == [] then (TakeNone(s, q), [Worker, Unref(h)])
    else
      var m := s.queues[q].msgs[0];
      (Take(s, q, false), [if i == 0 && weight >= 0 then Measure(q, h, m, weight) else Deliver(q, h, m, i, n)])
  }

  /** `skynet_handle_grab` */
  function ActGrab(s: Memory, h: nat, found: seq<Frame>, missing: seq<Frame>): (Memory, seq<Frame>)
    requires h in s.table ==> h in s.ctxs
  {
    if h in s.table then (AddRef(s, h), found) else (s, missing)
  }

  /** `skynet_handle_retire`: the table gives up its reference to the thread. */
  function ActRetire(s: Memory, h: nat, next: seq<Frame>): (Memory, seq<Frame>) {
    if h in s.table then (s.(table := s.table - {h}), next + [Unref(h)]) else (s, next)
  }

  /** User code calls into the runtime. */
  function ActUser(s: Memory, p: Frame, c: Choice): (Memory, seq<Frame>) {
    match c
    case Go(_, _, _) => (s, [p])
    case Post(h, m) => (s, [p, Send(h, m)])
    case Kill(h) => (s, [p, Retire(h)])
    case Launch(h) => if h in s.logs || h in s.ctxs then (s, [p]) else (Register(s, h), [p, Create(h)])
  }

  /** One step of the topmost call `p` of a thread, and the calls that replace it, the new
      topmost last. */
  function Act(s: Memory, p: Frame, c: Choice): (Memory, seq<Frame>)
    requires Safe(s, p)
  {
    if !c.Go? then
      if UserCode(p) then ActUser(s, p, c) else (s, [p])
    else match p
      case End => (s, [p])
      case Worker => if s.global == [] then (s, [p]) else (Dequeue(s), [Dispatch(s.global[0])])
      case Dispatch(q) =>
        var h := s.queues[q].handle;
        ActGrab(s, h, [Loop(q, h, 0, 1)], [Worker, Release(q)])
      case Loop(_, _, _, _) => ActLoop(s, p, c.weight)
      case Measure(q, h, m, weight) => (s, [Deliver(q, h, m, 0, Shifted(|s.queues[q].msgs|, weight))])
      case Deliver(q, h, m, i, n) => (Begin(s, h, m), [Running(q, h, i, n)])
      case Running(q, h, i, n) => (s, [Loop(q, h, i + 1, n)])
      case Finish(q, h) =>
        if s.global == [] then (s, [Dispatch(q), Unref(h)]) else (Dequeue(s), [Requeue(q, s.global[0], h)])
      case Requeue(q, nq, h) => (Enqueue(s, q), [Dispatch(nq), Unref(h)])
      case Unref(h) => (DropRef(s, h), if s.ctxs[h].ref == 1 then [Mark(h)] else [])
      case Mark(h) => (MarkRelease(s, s.ctxs[h].queue), [Delete(h)])
      case Delete(h) => (s.(ctxs := s.ctxs - {h}), [])
      case Release(q) => if s.queues[q].release then (s, [Drop(q)]) else (Enqueue(s, q), [])
      case Drop(q) => if s.queues[q].msgs == [] then (TakeNone(s, q), [Free(q)]) else (Take(s, q, true), [p])
      case Free(q) => (s.(queues := s.queues - {q}), [])
      case Send(h, m) => ActGrab(s, h, [Push(h, m)], [])
      case Push(h, m) => (MqPush(s, s.ctxs[h].queue, m), [Unref(h)])
      case Retire(h) => ActRetire(s, h, [])
      case Create(h) => if c.addr in s.queues then (s, [p]) else (CreateQueue(s, h, c.addr), [Init(h, c.addr)])
      case Init(h, q) =>
        if !c.ok then (s, [Undo(h, q), Unref(h)])
        else (DropRef(s, h), if s.ctxs[h].ref == 1 then [Publish(q), Mark(h)] else [Ready(h, q)])
      case Ready(h, q) => (SetInit(s, h), [Announce(h), Publish(q)])
      case Publish(q) => (Enqueue(s, q), [])
      case Undo(h, q) => ActRetire(s, h, [Release(q)])
      case Announce(h) => (s, if c.ok then [Answer(h), Sign(h, c.addr)] else [Answer(h)])
      case Sign(h, logger) => (s, [Send(logger, Message(h, 0, 0))])
      case Answer(_) => (s, [])
  }

  /** One step of thread `i`. */
  function Step(s: State, i: nat, c: Choice): State
    requires i < |s.threads| && s.threads[i] != [] && Safe(s.mem, Top(s.threads[i]))
  {
    var (mem, next) := Act(s.mem, Top(s.threads[i]), c);
    State(mem, s.threads[i := Below(s.threads[i]) + next])
  }

  function Top(stack: seq<Frame>): Frame
    requires stack != []
  {
    stack[|stack| - 1]
  }

  function Below(stack: seq<Frame>): seq<Frame>
    requires stack != []
  {
    stack[..|stack| - 1]
  }

  // ---------- counting ----------

  /** What a call holds. */
  datatype Key =
    | KRef(h: nat)                  // any other reference to a context
    | KMark(h: nat) | KDelete(h: nat)
    | KActive(h: nat)               // the reference of the dispatch loop of a service
    | KPend(h: nat, m: Message)     // a message taken but not yet handled
    | KMake(h: nat)                 // the creator's reference, before there is a mailbox
    | KHome(h: nat)                 // the right to publish the mailbox of a new service
    | KOwn(q: nat)                  // a mailbox, by what is done with it
    | KBusy(q: nat) | KNew(q: nat) | KDrop(q: nat) | KFree(q: nat)

  /** What the topmost call holds. */
  function Here(p: Frame): multiset<Key> {
    match p
    case End => multiset{}
    case Worker => multiset{}
    case Dispatch(q) => multiset{KOwn(q)}
    case Loop(q, h, _, _) => multiset{KOwn(q), KActive(h)}
    case Measure(q, h, m, _) => multiset{KBusy(q), KActive(h), KPend(h, m)}
    case Deliver(q, h, m, _, _) => multiset{KBusy(q), KActive(h), KPend(h, m)}
    case Running(q, h, _, _) => multiset{KOwn(q), KActive(h)}
    case Finish(q, h) => multiset{KOwn(q), KActive(h)}
    case Requeue(q, nq, h) => multiset{KOwn(q), KOwn(nq), KActive(h)}
    case Unref(h) => multiset{KRef(h)}
    case Mark(h) => multiset{KMark(h)}
    case Delete(h) => multiset{KDelete(h)}
    case Release(q) => multiset{KOwn(q)}
    case Drop(q) => multiset{KDrop(q)}
    case Free(q) => multiset{KFree(q)}
    case Send(_, _) => multiset{}
    case Push(h, _) => multiset{KRef(h)}
    case Retire(_) => multiset{}
    case Create(h) => multiset{KMake(h)}
    case Init(h, q) => multiset{KNew(q), KHome(h), KRef(h)}
    case Ready(h, q) => multiset{KNew(q), KHome(h)}
    case Publish(q) => multiset{KOwn(q)}
    case Undo(h, q) => multiset{KNew(q), KHome(h)}
    case Announce(_) => multiset{}
    case Sign(_, _) => multiset{}
    case Answer(_) => multiset{}
  }

  /** What a stack of calls holds. */
  function Keys(stack: seq<Frame>): multiset<Key> { Sum(stack, Here) }

  /** What all threads hold. */
  function Total(threads: seq<seq<Frame>>): multiset<Key> { Sum(threads, Keys) }
}
