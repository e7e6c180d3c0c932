/** What user code sends arrives: every run of the scheduler with its moves recorded. */
module SchedulerSends {
  import opened Mailbox
  import opened Counting
  import opened Histories
  import opened Scheduler
  import opened SchedulerProof
  import opened SchedulerTheorem
  import opened SchedulerRuns

  /** A step: which thread, and what the environment decides. */
  datatype Move = Move(i: nat, c: Choice)

  /** A message on its way to a handle. */
  datatype Mail = Mail(h: nat, m: Message)

  /** A run and the moves it is made of. */
  ghost predicate Recorded(ss: seq<State>, ms: seq<Move>) {
    && |ss| == |ms| + 1 && Start(ss[0])
    && forall k :: 0 <= k < |ms| ==> Moves(ss[k], ms[k].i, ms[k].c, ss[k + 1])
  }

  lemma RecordedRuns(ss: seq<State>, ms: seq<Move>)
    requires Recorded(ss, ms)
    ensures Run(ss)
  {
    forall k | 0 < k < |ss| ensures Next(ss[k - 1], ss[k]) {
      assert Moves(ss[k - 1], ms[k - 1].i, ms[k - 1].c, ss[k - 1 + 1]);
    }
  }

  /** Every run has a record. */
  lemma {:induction false} RunRecorded(ss: seq<State>) returns (ms: seq<Move>)
    requires Run(ss)
    ensures Recorded(ss, ms)
    decreases |ss|
  {
    if |ss| == 1 {
      ms := [];
    } else {
      var n := |ss| - 1;
      var before := RunRecorded(ss[..n]);
      assert Next(ss[n - 1], ss[n]);
      var i: nat, c :| Moves(ss[n - 1], i, c, ss[n]);
      ms := before + [Move(i, c)];
      forall k | 0 <= k < |ms| ensures Moves(ss[k], ms[k].i, ms[k].c, ss[k + 1]) {
        if k < n - 1 { assert Moves(ss[..n][k], before[k].i, before[k].c, ss[..n][k + 1]); }
      }
    }
  }

  // ---------- what is asked, found, missed and delivered ----------

  type Event<T> = (State, Move) -> seq<T>

  function TopOf(s: State, i: nat): Frame {
    if i < |s.threads| && s.threads[i] != [] then Top(s.threads[i]) else Worker
  }

  /** User code sends, or the creator of a service tells the logger. */
  function Asks(s: State, m: Move): seq<Mail> {
    var p := TopOf(s, m.i);
    if m.c.Post? && UserCode(p) then [Mail(m.c.h, m.c.m)]
    else if m.c.Go? && p.Sign? then [Mail(p.logger, Message(p.h, 0, 0))]
    else []
  }

  /** The lookup of a send finds the handle. */
  function Finds(s: State, m: Move): seq<Mail> {
    var p := TopOf(s, m.i);
    if m.c.Go? && p.Send? && p.h in s.mem.table then [Mail(p.h, p.m)] else []
  }

  /** The lookup of a send does not find the handle: the sender is told so. */
  function Misses(s: State, m: Move): seq<Mail> {
    var p := TopOf(s, m.i);
    if m.c.Go? && p.Send? && p.h !in s.mem.table then [Mail(p.h, p.m)] else []
  }

  /** A send is looked up, with or without success. */
  function Looks(s: State, m: Move): seq<Mail> { Finds(s, m) + Misses(s, m) }

  /** The push of a send is carried out. */
  function Delivers(s: State, m: Move): seq<Mail> {
    var p := TopOf(s, m.i);
    if m.c.Go? && p.Push? then [Mail(p.h, p.m)] else []
  }

  /** What is done by thread `i`. */
  function By<T>(f: Event<T>, i: nat): Event<T> { (s: State, m: Move) => if m.i == i then f(s, m) else [] }

  /** The messages to handle `h`, in order. */
  function To(mails: seq<Mail>, h: nat): seq<Message> {
    if mails == [] then []
    else
      var x, before := mails[|mails| - 1], To(mails[..|mails| - 1], h);
      if x.h == h then before + [x.m] else before
  }

  // ---------- messages in the hands of threads ----------

  function Asking(p: Frame): multiset<Mail> { if p.Send? then multiset{Mail(p.h, p.m)} else multiset{} }

  function Carrying(p: Frame): multiset<Mail> { if p.Push? then multiset{Mail(p.h, p.m)} else multiset{} }

  function StackAsking(stack: seq<Frame>): multiset<Mail> { Sum(stack, Asking) }

  function StackCarrying(stack: seq<Frame>): multiset<Mail> { Sum(stack, Carrying) }

  /** The messages whose lookup is still to come. */
  function AllAsking(s: State): multiset<Mail> { Sum(s.threads, StackAsking) }

  /** The messages that are found, but not yet pushed. */
  function AllCarrying(s: State): multiset<Mail> { Sum(s.threads, StackCarrying) }

  // ---------- one step ----------

  /** What the calls `next` hold that replace a call. */
  ghost function Hand<T>(f: Frame -> multiset<T>, next: seq<Frame>): multiset<T>
    requires |next| <= 2
  {
    if |next| == 0 then multiset{} else if |next| == 1 then f(next[0]) else f(next[0]) + f(next[1])
  }

  lemma HandSum<T>(f: Frame -> multiset<T>, next: seq<Frame>)
    requires |next| <= 2
    ensures Hand(f, next) == Sum(next, f)
  {
    if |next| == 1 {
      assert next == [] + [next[0]];
      SumAppend([], [next[0]], f);
      assert Sum([next[0]], f) == Sum([], f) + f(next[0]);
    } else if |next| == 2 {
      assert next == [next[0]] + [next[1]];
      SumAppend([next[0]], [next[1]], f);
    }
  }

  lemma Instead<T>(n: multiset<T>, b: multiset<T>, x: multiset<T>, y: multiset<T>)
    requires b + x <= n
    ensures x <= n && n - (b + x) + (b + y) + x == n + y
  {
  }

  /** A step changes what the threads hold by what its call and the calls that replace it hold. */
  lemma HeldStep<T>(s: State, i: nat, c: Choice, f: Frame -> multiset<T>, all: seq<Frame> -> multiset<T>)
    requires i < |s.threads| && s.threads[i] != [] && Safe(s.mem, Top(s.threads[i]))
    requires forall stack :: all(stack) == Sum(stack, f)
    requires |Act(s.mem, Top(s.threads[i]), c).1| <= 2
    ensures Sum(Step(s, i, c).threads, all) + f(Top(s.threads[i]))
         == Sum(s.threads, all) + Hand(f, Act(s.mem, Top(s.threads[i]), c).1)
  {
    HeldReplaced(s.threads, i, Act(s.mem, Top(s.threads[i]), c).1, f, all);
  }

  lemma HeldReplaced<T>(threads: seq<seq<Frame>>, i: nat, next: seq<Frame>, f: Frame -> multiset<T>, all: seq<Frame> -> multiset<T>)
    requires i < |threads| && threads[i] != [] && |next| <= 2
    requires forall stack :: all(stack) == Sum(stack, f)
    ensures Sum(threads[i := Below(threads[i]) + next], all) + f(Top(threads[i])) == Sum(threads, all) + Hand(f, next)
  {
    var stack := threads[i];
    SumSet(threads, all, i, Below(stack) + next);
    assert Sum(stack, f) == Sum(Below(stack), f) + f(Top(stack));
    SumAppend(Below(stack), next, f);
    HandSum(f, next);
    Instead(Sum(threads, all), Sum(Below(stack), f), f(Top(stack)), Hand(f, next));
  }

  /** Carries out no request of user code. */
  predicate Idle(p: Frame) { !p.Send? && !p.Push? && !p.Retire? }

  predicate AllIdle(next: seq<Frame>)
  {
    |next| <= 2 && (|next| > 0 ==> Idle(next[0])) && (|next| > 1 ==> Idle(next[1]))
  }

  /** A call that goes on leaves such calls, unless it looks up a handle or signs. */
  lemma GoIdle(s: Memory, p: Frame, c: Choice)
    requires Safe(s, p) && c.Go? && !p.Send? && !p.Sign?
    ensures AllIdle(Act(s, p, c).1)
  {
  }

  lemma GoSend(s: Memory, p: Frame, c: Choice)
    requires Safe(s, p) && c.Go? && p.Send?
    ensures Act(s, p, c).1 == if p.h in s.table then [Push(p.h, p.m)] else []
  {
  }

  /** User code never stands in the middle of a send; what it asks for stands on top of it. */
  lemma UserNext(s: Memory, p: Frame, c: Choice)
    requires Safe(s, p) && !c.Go?
    ensures var next := Act(s, p, c).1;
      if UserCode(p) then
        next != [] && next[0] == p && |next| <= 2 && Idle(p)
        && (if c.Post? then next == [p, Send(c.h, c.m)]
            else if c.Kill? then next == [p, Retire(c.h)]
            else AllIdle(next))
      else next == [p]
  {
  }

  /** One move of a recorded run. */
  ghost predicate Moved(s: State, m: Move, s': State) { Moves(s, m.i, m.c, s') }

  lemma ActAsking(s: Memory, p: Frame, c: Choice)
    requires Safe(s, p)
    ensures |Act(s, p, c).1| <= 2
    ensures c.Go? && !p.Sign? ==> Hand(Asking, Act(s, p, c).1) == multiset{}
    ensures c.Go? && p.Sign? ==> Hand(Asking, Act(s, p, c).1) == multiset{Mail(p.logger, Message(p.h, 0, 0))}
    ensures c.Post? && UserCode(p) ==> Hand(Asking, Act(s, p, c).1) == multiset{Mail(c.h, c.m)}
    ensures !c.Go? && !(c.Post? && UserCode(p)) ==> Hand(Asking, Act(s, p, c).1) == Asking(p)
  {
    if !c.Go? { UserNext(s, p, c); } else if p.Send? { GoSend(s, p, c); } else if !p.Sign? { GoIdle(s, p, c); }
  }

  lemma ActCarrying(s: Memory, p: Frame, c: Choice)
    requires Safe(s, p)
    ensures |Act(s, p, c).1| <= 2
    ensures c.Go? && p.Send? && p.h in s.table ==> Hand(Carrying, Act(s, p, c).1) == multiset{Mail(p.h, p.m)}
    ensures c.Go? && !(p.Send? && p.h in s.table) ==> Hand(Carrying, Act(s, p, c).1) == multiset{}
    ensures !c.Go? ==> Hand(Carrying, Act(s, p, c).1) == Carrying(p)
  {
    if !c.Go? { UserNext(s, p, c); } else if p.Send? { GoSend(s, p, c); } else if !p.Sign? { GoIdle(s, p, c); }
  }

  lemma Balance<T>(a': multiset<T>, x: multiset<T>, a: multiset<T>, y: multiset<T>, d: multiset<T>, q: multiset<T>)
    requires a' + x == a + y && y + d == q + x
    ensures a' + d == a + q
  {
    forall k ensures (a' + d)[k] == (a + q)[k] {
      assert (a' + x)[k] == (a + y)[k] && (y + d)[k] == (q + x)[k];
    }
  }

  lemma LocalAsking(s: State, m: Move)
    requires m.i < |s.threads| && s.threads[m.i] != [] && Safe(s.mem, Top(s.threads[m.i]))
    ensures var p := Top(s.threads[m.i]); var next := Act(s.mem, p, m.c).1;
      && |next| <= 2
      && Hand(Asking, next) + multiset(Looks(s, m)) == multiset(Asks(s, m)) + Asking(p)
  {
    ActAsking(s.mem, Top(s.threads[m.i]), m.c);
  }

  lemma LocalCarrying(s: State, m: Move)
    requires m.i < |s.threads| && s.threads[m.i] != [] && Safe(s.mem, Top(s.threads[m.i]))
    ensures var p := Top(s.threads[m.i]); var next := Act(s.mem, p, m.c).1;
      && |next| <= 2
      && Hand(Carrying, next) + multiset(Delivers(s, m)) == multiset(Finds(s, m)) + Carrying(p)
  {
    ActCarrying(s.mem, Top(s.threads[m.i]), m.c);
  }

  /** What is asked for is found, missed, or still to be looked up. */
  lemma MoveAsking(s: State, m: Move, s': State)
    requires Moved(s, m, s')
    ensures KeepsCount(s, m, s', Asks, Looks, AllAsking)
  {
    var p := Top(s.threads[m.i]);
    LocalAsking(s, m);
    HeldStep(s, m.i, m.c, Asking, StackAsking);
    Balance(AllAsking(s'), Asking(p), AllAsking(s), Hand(Asking, Act(s.mem, p, m.c).1),
            multiset(Looks(s, m)), multiset(Asks(s, m)));
  }

  /** What is found is pushed or still to be pushed. */
  lemma MoveCarrying(s: State, m: Move, s': State)
    requires Moved(s, m, s')
    ensures KeepsCount(s, m, s', Finds, Delivers, AllCarrying)
  {
    var p := Top(s.threads[m.i]);
    LocalCarrying(s, m);
    HeldStep(s, m.i, m.c, Carrying, StackCarrying);
    Balance(AllCarrying(s'), Carrying(p), AllCarrying(s), Hand(Carrying, Act(s.mem, p, m.c).1),
            multiset(Delivers(s, m)), multiset(Finds(s, m)));
  }

  /** The messages pushed for a handle so far. */
  ghost function PushedTo(s: Memory, h: nat): seq<Message> { if h in s.logs then s.logs[h].pushed else [] }

  /** A push writes one message into the history of its handle; no other step of the code does. */
  lemma ActPushed(s: Memory, p: Frame, c: Choice, h: nat)
    requires Safe(s, p)
    ensures PushedTo(Act(s, p, c).0, h) == PushedTo(s, h) + (if c.Go? && p.Push? && p.h == h then [p.m] else [])
  {
  }

  // ---------- over whole runs ----------

  lemma MoveAt(ss: seq<State>, ms: seq<Move>, k: nat)
    requires Recorded(ss, ms) && 0 < k < |ss|
    ensures Moved(ss[k - 1], ms[k - 1], ss[k])
  {
    assert Moves(ss[k - 1], ms[k - 1].i, ms[k - 1].c, ss[k - 1 + 1]);
  }

  lemma {:induction false} StartHolds(threads: seq<seq<Frame>>)
    requires forall i :: 0 <= i < |threads| ==> threads[i] == [Worker] || threads[i] == [End]
    ensures Sum(threads, StackAsking) == multiset{} && Sum(threads, StackCarrying) == multiset{}
    decreases |threads|
  {
    if threads != [] {
      var t := threads[|threads| - 1];
      StartHolds(threads[..|threads| - 1]);
      assert t == [t[0]];
      assert Sum(t, Asking) == Sum(t[..0], Asking) + Asking(t[0]);
      assert Sum(t, Carrying) == Sum(t[..0], Carrying) + Carrying(t[0]);
    }
  }

  /** What user code sends is looked up exactly once, or waits for that in one thread's hands. */
  lemma EveryRequest(ss: seq<State>, ms: seq<Move>, k: nat)
    requires Recorded(ss, ms) && k < |ss|
    ensures multiset(Along(ss, ms, k, Asks)) == multiset(Along(ss, ms, k, Looks)) + AllAsking(ss[k])
  {
    StartHolds(ss[0].threads);
    forall j | 0 <= j < |ms| ensures KeepsCount(ss[j], ms[j], ss[j + 1], Asks, Looks, AllAsking) {
      MoveAsking(ss[j], ms[j], ss[j + 1]);
    }
    CountAlong(ss, ms, k, Asks, Looks, AllAsking);
  }

  /** What is found is pushed exactly once, or waits for that in one thread's hands. */
  lemma EverySend(ss: seq<State>, ms: seq<Move>, k: nat)
    requires Recorded(ss, ms) && k < |ss|
    ensures multiset(Along(ss, ms, k, Finds)) == multiset(Along(ss, ms, k, Delivers)) + AllCarrying(ss[k])
  {
    StartHolds(ss[0].threads);
    forall j | 0 <= j < |ms| ensures KeepsCount(ss[j], ms[j], ss[j + 1], Finds, Delivers, AllCarrying) {
      MoveCarrying(ss[j], ms[j], ss[j + 1]);
    }
    CountAlong(ss, ms, k, Finds, Delivers, AllCarrying);
  }

  /** The history of handle `h` after the one push in `x`, if there is any. */
  function After(log: seq<Message>, x: seq<Mail>, h: nat): seq<Message> {
    if x != [] && x[0].h == h then log + [x[0].m] else log
  }

  lemma {:induction false} ToOne(mails: seq<Mail>, x: seq<Mail>, h: nat)
    requires |x| <= 1
    ensures To(mails + x, h) == After(To(mails, h), x, h)
  {
    if x != [] {
      assert (mails + x)[..|mails + x| - 1] == mails;
    } else {
      assert mails + x == mails;
    }
  }

  /** A history of handle `h` grows by the message of a move. */
  ghost predicate Appends(s: State, m: Move, s': State, does: Event<Mail>, log: State -> seq<Message>, h: nat) {
    |does(s, m)| <= 1 && log(s') == After(log(s), does(s, m), h)
  }

  lemma AppendsLast(s: State, m: Move, s': State, does: Event<Mail>, log: State -> seq<Message>, h: nat, before: seq<Mail>)
    requires Appends(s, m, s', does, log, h) && log(s) == To(before, h)
    ensures log(s') == To(before + does(s, m), h)
  {
    ToOne(before, does(s, m), h);
  }

  lemma {:induction false} AppendsAlong(ss: seq<State>, ms: seq<Move>, k: nat, does: Event<Mail>, log: State -> seq<Message>, h: nat)
    requires k < |ss| == |ms| + 1 && log(ss[0]) == []
    requires forall j :: 0 <= j < |ms| ==> Appends(ss[j], ms[j], ss[j + 1], does, log, h)
    ensures log(ss[k]) == To(Along(ss, ms, k, does), h)
  {
    if k > 0 {
      AppendsAlong(ss, ms, k - 1, does, log, h);
      AppendsLast(ss[k - 1], ms[k - 1], ss[k - 1 + 1], does, log, h, Along(ss, ms, k - 1, does));
    }
  }

  ghost function PushLog(h: nat): State -> seq<Message> { (s: State) => PushedTo(s.mem, h) }

  lemma MoveAppends(s: State, m: Move, s': State, h: nat)
    requires Moved(s, m, s')
    ensures Appends(s, m, s', Delivers, PushLog(h), h)
  {
    ActPushed(s.mem, Top(s.threads[m.i]), m.c, h);
  }

  /** The history of a handle consists of the pushes to it, in their order, and of nothing else. */
  lemma PushedExactly(ss: seq<State>, ms: seq<Move>, k: nat, h: nat)
    requires Recorded(ss, ms) && k < |ss|
    ensures PushedTo(ss[k].mem, h) == To(Along(ss, ms, k, Delivers), h)
  {
    forall j | 0 <= j < |ms| ensures Appends(ss[j], ms[j], ss[j + 1], Delivers, PushLog(h), h) {
      MoveAppends(ss[j], ms[j], ss[j + 1], h);
    }
    AppendsAlong(ss, ms, k, Delivers, PushLog(h), h);
  }

  // ---------- one sender ----------

  /** A request of user code is carried out on top of everything else. */
  ghost predicate OnTop(stack: seq<Frame>) { forall a :: 0 <= a < |stack| - 1 ==> Idle(stack[a]) }

  ghost predicate AllOnTop(s: State) { forall i :: 0 <= i < |s.threads| ==> OnTop(s.threads[i]) }

  lemma NextOnTop(s: Memory, p: Frame, c: Choice)
    requires Safe(s, p)
    ensures OnTop(Act(s, p, c).1) && |Act(s, p, c).1| <= 2
  {
    if !c.Go? { UserNext(s, p, c); } else if p.Send? { GoSend(s, p, c); } else if !p.Sign? { GoIdle(s, p, c); }
  }

  lemma OnTopStep(below: seq<Frame>, p: Frame, next: seq<Frame>)
    requires OnTop(below + [p]) && OnTop(next)
    ensures OnTop(below + next)
  {
    forall a | 0 <= a < |below + next| - 1 ensures Idle((below + next)[a]) {
      if a < |below| { assert Idle((below + [p])[a]); } else { assert Idle(next[a - |below|]); }
    }
  }

  lemma {:induction false} AlwaysOnTop(ss: seq<State>, ms: seq<Move>, k: nat)
    requires Recorded(ss, ms) && k < |ss|
    ensures AllOnTop(ss[k])
  {
    if k > 0 {
      AlwaysOnTop(ss, ms, k - 1);
      MoveAt(ss, ms, k);
      var s, m := ss[k - 1], ms[k - 1];
      var stack := s.threads[m.i];
      NextOnTop(s.mem, Top(stack), m.c);
      assert stack == Below(stack) + [Top(stack)];
      OnTopStep(Below(stack), Top(stack), Act(s.mem, Top(stack), m.c).1);
    }
  }

  /** The call of a thread after its move: the last that replaces the call, or the one below. */
  lemma NextTop(s: State, m: Move, s': State)
    requires Moved(s, m, s') && AllOnTop(s)
    ensures var p := Top(s.threads[m.i]); var next := Act(s.mem, p, m.c).1;
      if next != [] then TopOf(s', m.i) == Top(next) else Idle(TopOf(s', m.i))
  {
    var stack := s.threads[m.i];
    var next := Act(s.mem, Top(stack), m.c).1;
    assert s'.threads[m.i] == Below(stack) + next;
    if next == [] && Below(stack) != [] { assert Idle(stack[|Below(stack)| - 1]); }
  }

  /** What a call in the middle of a send has in hand. */
  function AskedBy(p: Frame): seq<Mail> { if p.Send? then [Mail(p.h, p.m)] else [] }

  function CarriedBy(p: Frame): seq<Mail> { if p.Push? then [Mail(p.h, p.m)] else [] }

  /** What thread `i` has asked for and not looked up. */
  function Asked(i: nat): State -> seq<Mail> { (s: State) => AskedBy(TopOf(s, i)) }

  /** What thread `i` has found and not pushed. */
  function Carried(i: nat): State -> seq<Mail> { (s: State) => CarriedBy(TopOf(s, i)) }

  lemma SenderOwn(s: State, m: Move, s': State)
    requires Moved(s, m, s') && AllOnTop(s)
    ensures AskedBy(TopOf(s, m.i)) + Asks(s, m) == Looks(s, m) + AskedBy(TopOf(s', m.i))
    ensures CarriedBy(TopOf(s, m.i)) + Finds(s, m) == Delivers(s, m) + CarriedBy(TopOf(s', m.i))
  {
    NextTop(s, m, s');
    var p := Top(s.threads[m.i]);
    if !m.c.Go? {
      UserNext(s.mem, p, m.c);
    } else if p.Send? {
      GoSend(s.mem, p, m.c);
    } else if !p.Sign? {
      GoIdle(s.mem, p, m.c);
    }
  }

  lemma SenderMove(s: State, m: Move, s': State, i: nat)
    requires Moved(s, m, s') && AllOnTop(s)
    ensures KeepsOrder(s, m, s', By(Asks, i), By(Looks, i), Asked(i))
    ensures KeepsOrder(s, m, s', By(Finds, i), By(Delivers, i), Carried(i))
  {
    if m.i == i { SenderOwn(s, m, s'); }
  }

  /** Messages of one thread are looked up, and those found are pushed, in the order in which it sends them. */
  lemma SenderOrder(ss: seq<State>, ms: seq<Move>, k: nat, i: nat)
    requires Recorded(ss, ms) && k < |ss|
    ensures Along(ss, ms, k, By(Asks, i)) == Along(ss, ms, k, By(Looks, i)) + Asked(i)(ss[k])
    ensures Along(ss, ms, k, By(Finds, i)) == Along(ss, ms, k, By(Delivers, i)) + Carried(i)(ss[k])
  {
    forall j | 0 <= j < |ms| ensures KeepsOrder(ss[j], ms[j], ss[j + 1], By(Asks, i), By(Looks, i), Asked(i))
                                  && KeepsOrder(ss[j], ms[j], ss[j + 1], By(Finds, i), By(Delivers, i), Carried(i)) {
      AlwaysOnTop(ss, ms, j);
      SenderMove(ss[j], ms[j], ss[j + 1], i);
    }
    OrderAlong(ss, ms, k, By(Asks, i), By(Looks, i), Asked(i));
    OrderAlong(ss, ms, k, By(Finds, i), By(Delivers, i), Carried(i));
  }

  // ---------- the table of handles ----------

  /** A handle is registered for a new service. */
  function Enlists(s: State, m: Move): seq<nat> {
    if m.c.Launch? && UserCode(TopOf(s, m.i)) && m.c.h !in s.mem.logs && m.c.h !in s.mem.ctxs then [m.c.h] else []
  }

  /** A handle is retired, by user code or because the init function of its service fails. */
  function Strikes(s: State, m: Move): seq<nat> {
    var p := TopOf(s, m.i);
    if m.c.Go? && (p.Retire? || p.Undo?) then [p.h] else []
  }

  lemma ActTable(s: State, m: Move, s': State, h: nat)
    requires Moved(s, m, s')
    ensures h in s'.mem.table <==> h in Enlists(s, m) || (h in s.mem.table && h !in Strikes(s, m))
  {
  }

  /** Move `j` registers the handle, and none of the moves after it up to `k` retires it. */
  ghost predicate Stands(ss: seq<State>, ms: seq<Move>, j: nat, k: nat, h: nat)
    requires j < k <= |ms| && k < |ss|
  {
    h in Enlists(ss[j], ms[j]) && forall l :: j < l < k ==> h !in Strikes(ss[l], ms[l])
  }

  lemma TableAt(ss: seq<State>, ms: seq<Move>, k: nat, h: nat)
    requires Recorded(ss, ms) && 0 < k < |ss|
    ensures h in ss[k].mem.table <==>
            h in Enlists(ss[k - 1], ms[k - 1]) || (h in ss[k - 1].mem.table && h !in Strikes(ss[k - 1], ms[k - 1]))
  {
    MoveAt(ss, ms, k);
    ActTable(ss[k - 1], ms[k - 1], ss[k], h);
  }

  ghost predicate Listed(ss: seq<State>, ms: seq<Move>, k: nat, h: nat)
    requires k <= |ms| && k < |ss|
  {
    exists j: nat :: j < k && Stands(ss, ms, j, k, h)
  }

  lemma ListedStep(ss: seq<State>, ms: seq<Move>, k: nat, h: nat)
    requires 0 < k <= |ms| && k < |ss|
    ensures Listed(ss, ms, k, h) <==>
            h in Enlists(ss[k - 1], ms[k - 1]) || (Listed(ss, ms, k - 1, h) && h !in Strikes(ss[k - 1], ms[k - 1]))
  {
    if h in Enlists(ss[k - 1], ms[k - 1]) { assert Stands(ss, ms, k - 1, k, h); }
    if Listed(ss, ms, k - 1, h) && h !in Strikes(ss[k - 1], ms[k - 1]) {
      var j: nat :| j < k - 1 && Stands(ss, ms, j, k - 1, h);
      assert Stands(ss, ms, j, k, h);
    }
    if Listed(ss, ms, k, h) {
      var j: nat :| j < k && Stands(ss, ms, j, k, h);
      if j < k - 1 { assert Stands(ss, ms, j, k - 1, h); }
    }
  }

  /** A send finds its handle exactly from the launch of the service on, until the handle is retired. */
  lemma {:induction false} TableExact(ss: seq<State>, ms: seq<Move>, k: nat, h: nat)
    requires Recorded(ss, ms) && k < |ss|
    ensures h in ss[k].mem.table <==> Listed(ss, ms, k, h)
  {
    if k > 0 {
      TableExact(ss, ms, k - 1, h);
      TableAt(ss, ms, k, h);
      ListedStep(ss, ms, k, h);
    }
  }

  /** User code kills a service. */
  function Kills(s: State, m: Move): seq<nat> { if m.c.Kill? && UserCode(TopOf(s, m.i)) then [m.c.h] else [] }

  function Retires(s: State, m: Move): seq<nat> {
    var p := TopOf(s, m.i);
    if m.c.Go? && p.Retire? then [p.h] else []
  }

  function KillingBy(p: Frame): seq<nat> { if p.Retire? then [p.h] else [] }

  /** The handle that thread `i` is about to retire. */
  function Killing(i: nat): State -> seq<nat> { (s: State) => KillingBy(TopOf(s, i)) }

  lemma KillerOwn(s: State, m: Move, s': State)
    requires Moved(s, m, s') && AllOnTop(s)
    ensures KillingBy(TopOf(s, m.i)) + Kills(s, m) == Retires(s, m) + KillingBy(TopOf(s', m.i))
  {
    NextTop(s, m, s');
    var p := Top(s.threads[m.i]);
    if !m.c.Go? {
      UserNext(s.mem, p, m.c);
    } else if p.Send? {
      GoSend(s.mem, p, m.c);
    } else if !p.Sign? {
      GoIdle(s.mem, p, m.c);
    }
  }

  lemma KillerMove(s: State, m: Move, s': State, i: nat)
    requires Moved(s, m, s') && AllOnTop(s)
    ensures KeepsOrder(s, m, s', By(Kills, i), By(Retires, i), Killing(i))
  {
    if m.i == i { KillerOwn(s, m, s'); }
  }

  /** Each thread retires the handles it kills, in that order. */
  lemma KillsCarriedOut(ss: seq<State>, ms: seq<Move>, k: nat, i: nat)
    requires Recorded(ss, ms) && k < |ss|
    ensures Along(ss, ms, k, By(Kills, i)) == Along(ss, ms, k, By(Retires, i)) + Killing(i)(ss[k])
  {
    forall j | 0 <= j < |ms| ensures KeepsOrder(ss[j], ms[j], ss[j + 1], By(Kills, i), By(Retires, i), Killing(i)) {
      AlwaysOnTop(ss, ms, j);
      KillerMove(ss[j], ms[j], ss[j + 1], i);
    }
    OrderAlong(ss, ms, k, By(Kills, i), By(Retires, i), Killing(i));
  }

  /** The handle has been given to a service. */
  predicate Used(s: Memory, h: nat) { h in s.logs || h in s.ctxs }

  /** The move leaves a handle in use, and does not register it again. */
  ghost predicate KeepsUsed(s: State, m: Move, s': State, h: nat) {
    Used(s.mem, h) ==> Used(s'.mem, h) && h !in Enlists(s, m)
  }

  lemma UsedStays(s: State, m: Move, s': State, h: nat)
    requires Moved(s, m, s') && SystemInv(s)
    ensures KeepsUsed(s, m, s', h)
  {
    var p := Top(s.threads[m.i]);
    assert HandleOk(s.mem, Total(s.threads), h);
    if p.Delete? && p.h == h {
      TopHeld(s, m.i);
      HereWeighs();
      WDelete(Here, h);
    }
  }

  lemma UsedAlways(ss: seq<State>, ms: seq<Move>, h: nat)
    requires Recorded(ss, ms)
    ensures forall k :: 0 <= k < |ms| ==> KeepsUsed(ss[k], ms[k], ss[k + 1], h)
  {
    RecordedRuns(ss, ms);
    forall k | 0 <= k < |ms| ensures KeepsUsed(ss[k], ms[k], ss[k + 1], h) {
      Always(ss, k);
      MoveAt(ss, ms, k + 1);
      UsedStays(ss[k], ms[k], ss[k + 1], h);
    }
  }

  lemma {:induction false} UsedForGood(ss: seq<State>, ms: seq<Move>, j: nat, k: nat, h: nat)
    requires j <= k < |ss| == |ms| + 1 && Used(ss[j].mem, h)
    requires forall k :: 0 <= k < |ms| ==> KeepsUsed(ss[k], ms[k], ss[k + 1], h)
    ensures Used(ss[k].mem, h)
    decreases k
  {
    if j < k {
      UsedForGood(ss, ms, j, k - 1, h);
      assert KeepsUsed(ss[k - 1], ms[k - 1], ss[k - 1 + 1], h);
    }
  }

  /** A handle in use that is retired is never found again. */
  lemma RetiredForGood(ss: seq<State>, ms: seq<Move>, l: nat, k: nat, h: nat)
    requires Recorded(ss, ms) && l < k < |ss| && h in Strikes(ss[l], ms[l]) && Used(ss[l].mem, h)
    ensures h !in ss[k].mem.table
  {
    UsedAlways(ss, ms, h);
    TableExact(ss, ms, k, h);
    if j: nat :| j < k && Stands(ss, ms, j, k, h) {
      assert l <= j;
      UsedForGood(ss, ms, l, j, h);
      assert false;
    }
  }
}
