/** What is sent is handled: callbacks and drops over every run of the scheduler. */
module SchedulerHandling {
  import opened Mailbox
  import opened Counting
  import opened Histories
  import opened Scheduler
  import opened SchedulerProof
  import opened SchedulerTheorem
  import opened SchedulerRuns
  import opened SchedulerSends

  /** The callback of a service starts with a message. */
  function Starts(s: State, m: Move): seq<Mail> {
    var p := TopOf(s, m.i);
    if m.c.Go? && p.Deliver? then [Mail(p.h, p.m)] else []
  }

  /** A message of a retired service is dropped. */
  function Drops(s: State, m: Move): seq<Mail> {
    var p := TopOf(s, m.i);
    if m.c.Go? && p.Drop? && p.q in s.mem.queues && s.mem.queues[p.q].msgs != [] then
      [Mail(s.mem.queues[p.q].handle, s.mem.queues[p.q].msgs[0])]
    else []
  }

  /** A message is handled, one way or the other. */
  function Handles(s: State, m: Move): seq<Mail> { Starts(s, m) + Drops(s, m) }

  /** The messages of a handle whose handling has begun. */
  ghost function BegunFor(s: Memory, h: nat): seq<Message> { if h in s.logs then s.logs[h].begun else [] }

  ghost function BegunLog(h: nat): State -> seq<Message> { (s: State) => BegunFor(s.mem, h) }

  lemma ActBegun(s: Memory, p: Frame, c: Choice, h: nat)
    requires Safe(s, p)
    ensures c.Go? && p.Deliver? && p.h == h ==> BegunFor(Act(s, p, c).0, h) == BegunFor(s, h) + [p.m]
    ensures c.Go? && p.Drop? && s.queues[p.q].msgs != [] && s.queues[p.q].handle == h ==>
              BegunFor(Act(s, p, c).0, h) == BegunFor(s, h) + [s.queues[p.q].msgs[0]]
    ensures
      || (c.Go? && p.Deliver? && p.h == h)
      || (c.Go? && p.Drop? && s.queues[p.q].msgs != [] && s.queues[p.q].handle == h)
      || BegunFor(Act(s, p, c).0, h) == BegunFor(s, h)
  {
  }

  lemma MoveBegun(s: State, m: Move, s': State, h: nat)
    requires Moved(s, m, s')
    ensures Appends(s, m, s', Handles, BegunLog(h), h)
  {
    ActBegun(s.mem, Top(s.threads[m.i]), m.c, h);
  }

  /** The messages of a handle whose handling has begun are those whose callback has started or that were dropped, in
      that order. */
  lemma HandledExactly(ss: seq<State>, ms: seq<Move>, k: nat, h: nat)
    requires Recorded(ss, ms) && k < |ss|
    ensures BegunFor(ss[k].mem, h) == To(Along(ss, ms, k, Handles), h)
  {
    forall j | 0 <= j < |ms| ensures Appends(ss[j], ms[j], ss[j + 1], Handles, BegunLog(h), h) {
      MoveBegun(ss[j], ms[j], ss[j + 1], h);
    }
    AppendsAlong(ss, ms, k, Handles, BegunLog(h), h);
  }

  /** The messages in the mailbox of a handle, and before them the one taken out to be handled at once, if any. */
  ghost function Unhandled(s: Memory, h: nat): seq<Message> {
    if h !in s.logs then []
    else Waiting(s.logs[h]) + (if HasQueue(s, h) then s.queues[s.logs[h].queue].msgs else [])
  }

  lemma WaitsInOrder(ss: seq<State>, ms: seq<Move>, k: nat, h: nat)
    requires Recorded(ss, ms) && k < |ss|
    ensures PushedTo(ss[k].mem, h) == BegunFor(ss[k].mem, h) + Unhandled(ss[k].mem, h)
  {
    RecordedRuns(ss, ms);
    if h in ss[k].mem.logs {
      InOrder(ss, k, h);
      UnhandledLog(ss[k].mem, h);
    }
  }

  lemma UnhandledLog(s: Memory, h: nat)
    requires h in s.logs
    requires var log := s.logs[h];
      log.pushed == log.begun + Waiting(log) + (if HasQueue(s, h) then s.queues[log.queue].msgs else [])
    ensures PushedTo(s, h) == BegunFor(s, h) + Unhandled(s, h)
  {
    var log := s.logs[h];
    var box := if HasQueue(s, h) then s.queues[log.queue].msgs else [];
    assert log.begun + Waiting(log) + box == log.begun + (Waiting(log) + box);
  }

  /** A service handles its messages in the order in which they are pushed. */
  lemma HandledInOrder(ss: seq<State>, ms: seq<Move>, k: nat, h: nat)
    requires Recorded(ss, ms) && k < |ss|
    ensures To(Along(ss, ms, k, Delivers), h) == To(Along(ss, ms, k, Handles), h) + Unhandled(ss[k].mem, h)
  {
    PushedExactly(ss, ms, k, h);
    HandledExactly(ss, ms, k, h);
    WaitsInOrder(ss, ms, k, h);
  }

  lemma {:induction false} ToCounts(mails: seq<Mail>, h: nat, m: Message)
    ensures multiset(To(mails, h))[m] == multiset(mails)[Mail(h, m)]
  {
    if mails != [] {
      var n := |mails| - 1;
      assert mails == mails[..n] + [mails[n]];
      ToCounts(mails[..n], h, m);
    }
  }

  /** Every message that was sent to a registered handle is, exactly once, handled already, waiting to be handled, or
      in the hands of a thread that is about to push it. */
  lemma NothingLost(ss: seq<State>, ms: seq<Move>, k: nat, h: nat, m: Message)
    requires Recorded(ss, ms) && k < |ss|
    ensures multiset(Along(ss, ms, k, Finds))[Mail(h, m)]
         == multiset(Along(ss, ms, k, Handles))[Mail(h, m)] + multiset(Unhandled(ss[k].mem, h))[m] + AllCarrying(ss[k])[Mail(h, m)]
  {
    EverySend(ss, ms, k);
    HandledInOrder(ss, ms, k, h);
    ToCounts(Along(ss, ms, k, Delivers), h, m);
    ToCounts(Along(ss, ms, k, Handles), h, m);
  }

  // ---------- callbacks ----------

  /** A callback is entered. */
  function Enters(s: State, m: Move): seq<nat> { if Starts(s, m) != [] then [Starts(s, m)[0].h] else [] }

  /** A callback returns. */
  function Returns(s: State, m: Move): seq<nat> {
    var p := TopOf(s, m.i);
    if m.c.Go? && p.Running? then [p.h] else []
  }

  function Inside(p: Frame): multiset<nat> { if p.Running? then multiset{p.h} else multiset{} }

  function StackInside(stack: seq<Frame>): multiset<nat> { Sum(stack, Inside) }

  /** The services whose callback is running. */
  function AllInside(s: State): multiset<nat> { Sum(s.threads, StackInside) }

  predicate Outside(next: seq<Frame>) {
    |next| <= 2 && (|next| > 0 ==> !next[0].Running?) && (|next| > 1 ==> !next[1].Running?)
  }

  lemma GoInside(s: Memory, p: Frame, c: Choice)
    requires Safe(s, p) && c.Go?
    ensures if p.Deliver? then Act(s, p, c).1 == [Running(p.q, p.h, p.i, p.n)] else Outside(Act(s, p, c).1)
  {
  }

  lemma UserInside(s: Memory, p: Frame, c: Choice)
    requires Safe(s, p) && !c.Go?
    ensures var next := Act(s, p, c).1;
      next != [] && next[0] == p && |next| <= 2 && (|next| == 2 ==> !next[1].Running?)
  {
  }

  lemma LocalInside(s: State, m: Move)
    requires m.i < |s.threads| && s.threads[m.i] != [] && Safe(s.mem, Top(s.threads[m.i]))
    ensures var p := Top(s.threads[m.i]); var next := Act(s.mem, p, m.c).1;
      && |next| <= 2
      && Hand(Inside, next) + multiset(Returns(s, m)) == multiset(Enters(s, m)) + Inside(p)
  {
    var p := Top(s.threads[m.i]);
    if m.c.Go? { GoInside(s.mem, p, m.c); } else { UserInside(s.mem, p, m.c); }
  }

  lemma MoveInside(s: State, m: Move, s': State)
    requires Moved(s, m, s')
    ensures KeepsCount(s, m, s', Enters, Returns, AllInside)
  {
    var p := Top(s.threads[m.i]);
    LocalInside(s, m);
    HeldStep(s, m.i, m.c, Inside, StackInside);
    Balance(AllInside(s'), Inside(p), AllInside(s), Hand(Inside, Act(s.mem, p, m.c).1),
            multiset(Returns(s, m)), multiset(Enters(s, m)));
  }

  lemma {:induction false} NoneInside(threads: seq<seq<Frame>>)
    requires forall i :: 0 <= i < |threads| ==> threads[i] == [Worker] || threads[i] == [End]
    ensures Sum(threads, StackInside) == multiset{}
    decreases |threads|
  {
    if threads != [] {
      var t := threads[|threads| - 1];
      NoneInside(threads[..|threads| - 1]);
      assert t == [t[0]];
      assert Sum(t, Inside) == Sum(t[..0], Inside) + Inside(t[0]);
    }
  }

  /** Every callback that is entered is running or has returned, each once. */
  lemma EveryCallback(ss: seq<State>, ms: seq<Move>, k: nat)
    requires Recorded(ss, ms) && k < |ss|
    ensures multiset(Along(ss, ms, k, Enters)) == multiset(Along(ss, ms, k, Returns)) + AllInside(ss[k])
  {
    NoneInside(ss[0].threads);
    forall j | 0 <= j < |ms| ensures KeepsCount(ss[j], ms[j], ss[j + 1], Enters, Returns, AllInside) {
      MoveInside(ss[j], ms[j], ss[j + 1]);
    }
    CountAlong(ss, ms, k, Enters, Returns, AllInside);
  }

  // ---------- rounds ----------

  function Most(n: nat): nat { if n == 0 then 1 else n }

  /** A call in the dispatch loop has not gone beyond the number of messages of its round. */
  predicate InRound(p: Frame) {
    match p
    case Loop(_, _, i, n) => i <= Most(n)
    case Deliver(_, _, _, i, n) => i < Most(n)
    case Running(_, _, i, n) => i < Most(n)
    case _ => true
  }

  ghost predicate StackInRound(stack: seq<Frame>) { forall a :: 0 <= a < |stack| ==> InRound(stack[a]) }

  lemma ActInRound(s: Memory, p: Frame, c: Choice)
    requires Safe(s, p) && InRound(p)
    ensures StackInRound(Act(s, p, c).1)
  {
    if !c.Go? { UserNext(s, p, c); }
  }

  /** In every run, a dispatcher handles at most as many messages in one round as its limit says, or one. */
  lemma {:induction false} RoundLimit(ss: seq<State>, ms: seq<Move>, k: nat, i: nat)
    requires Recorded(ss, ms) && k < |ss| && i < |ss[k].threads|
    ensures StackInRound(ss[k].threads[i])
  {
    if k > 0 {
      MoveAt(ss, ms, k);
      var s, m := ss[k - 1], ms[k - 1];
      RoundLimit(ss, ms, k - 1, i);
      if m.i == i {
        var stack := s.threads[i];
        assert InRound(stack[|stack| - 1]);
        ActInRound(s.mem, Top(stack), m.c);
        assert ss[k].threads[i] == Below(stack) + Act(s.mem, Top(stack), m.c).1;
      }
    }
  }

  function Pow2(w: nat): nat { if w == 0 then 1 else 2 * Pow2(w - 1) }

  /** The limit of a round of a worker of weight `w` is the length of the mailbox divided by 2 to the power `w`. */
  lemma {:induction false} ShiftedIs(n: nat, w: nat)
    ensures Shifted(n, w) * Pow2(w) <= n < (Shifted(n, w) + 1) * Pow2(w)
    decreases w
  {
    if w > 0 {
      ShiftedIs(n / 2, w - 1);
      Halves(Shifted(n / 2, w - 1), Pow2(w - 1), n);
    }
  }

  lemma Halves(x: nat, y: nat, n: nat)
    requires x * y <= n / 2 < (x + 1) * y
    ensures x * (2 * y) <= n < (x + 1) * (2 * y)
  {
    assert x * (2 * y) == 2 * (x * y) && (x + 1) * (2 * y) == 2 * ((x + 1) * y);
  }

  /** The limit is set after the first message of the round has been taken out. */
  lemma LimitSet(ss: seq<State>, ms: seq<Move>, k: nat, q: nat, h: nat, m: Message, w: nat)
    requires Recorded(ss, ms) && k < |ms| && ms[k].c.Go? && TopOf(ss[k], ms[k].i) == Measure(q, h, m, w)
    ensures q in ss[k].mem.queues && TopOf(ss[k + 1], ms[k].i).Deliver?
    ensures var len, p := |ss[k].mem.queues[q].msgs|, TopOf(ss[k + 1], ms[k].i);
      p == Deliver(q, h, m, 0, p.n) && p.n * Pow2(w) <= len < (p.n + 1) * Pow2(w)
  {
    MoveAt(ss, ms, k + 1);
    ShiftedIs(|ss[k].mem.queues[q].msgs|, w);
  }
}
