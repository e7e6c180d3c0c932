/** What becomes of the packages that threads send: every package is accepted, by the route its priority asks for, and
    packages in the low list wait for all others. */
module SocketPriority {
  import opened Counting
  import opened Histories
  import opened SocketStream
  import opened SocketQueue
  import opened SocketProtocol

  /** A call of `socket_server_send` or `socket_server_send_lowpriority`. */
  datatype Want = Want(bytes: seq<Byte>, low: bool)

  type Event<T> = (Machine, Action) -> seq<T>

  /** The states of a run, before, between and after its actions. */
  ghost function States(m: Machine, acts: seq<Action>): (ss: seq<Machine>)
    ensures |ss| == |acts| + 1 && ss[0] == m && ss[|acts|] == Exec(m, acts)
  {
    assert acts[..|acts|] == acts && acts[..0] == [];
    seq(|acts| + 1, k requires 0 <= k <= |acts| => Exec(m, acts[..k]))
  }

  lemma NextState(m: Machine, acts: seq<Action>, k: nat)
    requires k < |acts|
    ensures States(m, acts)[k + 1] == Step(States(m, acts)[k], acts[k])
  {
    assert acts[..k + 1] == acts[..k] + [acts[k]];
    ExecLast(m, acts[..k], acts[k]);
  }

  // ---------- what the actions do ----------

  /** A thread starts to send. */
  function Asks(m: Machine, a: Action): seq<Want> {
    if a.Call? && a.i < |m.senders| && m.senders[a.i] == Away && m.sock.kind != Invalid then [Want(a.bytes, a.low)] else []
  }

  /** A thread writes its package itself. */
  function Writes(m: Machine, a: Action): seq<Want> {
    if a.Go? && a.i < |m.senders| && m.senders[a.i].Going? then [Want(m.senders[a.i].bytes, false)] else []
  }

  /** A thread puts its package into the pipe. */
  function Pipes(m: Machine, a: Action): seq<Want> {
    if a.Go? && a.i < |m.senders| && m.senders[a.i].Entering? then [Want(m.senders[a.i].bytes, m.senders[a.i].low)] else []
  }

  /** The socket thread takes a package out of the pipe. */
  function Serves(m: Machine, a: Action): seq<Want> {
    if a.Serve? && m.server == Idle && m.pipe != [] && m.pipe[0].Send? then [Want(m.pipe[0].bytes, m.pipe[0].low)] else []
  }

  function Does(m: Machine, a: Action): seq<Want> { Writes(m, a) + Serves(m, a) }

  /** The packages that join the stream.  One from the pipe goes to the low list exactly if it was sent with low
      priority and the lists are not both empty on a connected socket; a socket that is closing takes none. */
  function Accepts(m: Machine, a: Action): seq<Package> {
    if Writes(m, a) != [] then [Package(Direct, Writes(m, a)[0].bytes)]
    else if Serves(m, a) != [] && Takes(m.sock.kind) then
      var x := Serves(m, a)[0];
      [Package(if x.low && !(Empty(m.sock) && m.sock.kind == Connected) then Low else High, x.bytes)]
    else []
  }

  // ---------- nothing is lost on the way ----------

  /** What a thread has in hand. */
  function WantOf(x: Sender): seq<Want> {
    match x
    case Away => []
    case Eager(b) => [Want(b, false)]
    case Checking(b) => [Want(b, false)]
    case Seen(b) => [Want(b, false)]
    case Quiet(b) => [Want(b, false)]
    case Going(b) => [Want(b, false)]
    case Late(b, low) => [Want(b, low)]
    case Entering(b, low) => [Want(b, low)]
  }

  function WantedBy(x: Sender): multiset<Want> { multiset(WantOf(x)) }

  /** The packages in the pipe. */
  function Piped(rs: seq<Request>): seq<Want> {
    if rs == [] then [] else if rs[0].Send? then [Want(rs[0].bytes, rs[0].low)] + Piped(rs[1..]) else Piped(rs[1..])
  }

  function InPipe(m: Machine): seq<Want> { Piped(m.pipe) }

  /** What threads have in hand, and what is in the pipe. */
  function OnTheWay(m: Machine): multiset<Want> { Sum(m.senders, WantedBy) + multiset(Piped(m.pipe)) }

  lemma {:induction false} PipedAppend(rs: seq<Request>, r: Request)
    ensures Piped(rs + [r]) == if r.Send? then Piped(rs) + [Want(r.bytes, r.low)] else Piped(rs)
  {
    if rs == [] {
      PipedOne(rs + [r], r);
    } else {
      assert (rs + [r])[1..] == rs[1..] + [r];
      PipedAppend(rs[1..], r);
      if rs[0].Send? && r.Send? { Regroup(Want(rs[0].bytes, rs[0].low), Piped(rs[1..]), Want(r.bytes, r.low)); }
    }
  }

  lemma PipedOne(rs: seq<Request>, r: Request)
    requires rs == [r]
    ensures Piped(rs) == if r.Send? then [Want(r.bytes, r.low)] else []
  {
    assert Piped(rs[1..]) == [];
  }

  lemma Regroup(x: Want, xs: seq<Want>, y: Want)
    ensures [x] + (xs + [y]) == [x] + xs + [y]
  {
  }

  lemma ServerPipe(m: Machine, a: Action)
    requires a.Serve?
    ensures InPipe(m) == Serves(m, a) + InPipe(Step(m, a)) && Step(m, a).senders == m.senders
  {
  }

  lemma OtherPipe(m: Machine, a: Action)
    requires !a.Serve? && !a.Go?
    ensures InPipe(Step(m, a)) == InPipe(m)
  {
    if a.RequestClose? { PipedAppend(m.pipe, Close(a.shutdown)); }
  }

  lemma SenderPipe(m: Machine, a: Action)
    requires a.Go?
    ensures InPipe(Step(m, a)) == InPipe(m) + Pipes(m, a)
  {
    if Pipes(m, a) != [] {
      PipedAppend(m.pipe, Send(m.senders[a.i].bytes, m.senders[a.i].low));
    } else {
      assert InPipe(m) + [] == InPipe(m);
    }
  }

  lemma StepPipe(m: Machine, a: Action)
    ensures InPipe(m) + Pipes(m, a) == Serves(m, a) + InPipe(Step(m, a))
  {
    if a.Serve? { ServerPipe(m, a); } else if a.Go? { SenderPipe(m, a); } else { OtherPipe(m, a); }
  }

  /** The socket thread takes packages out of the pipe in the order in which they were put in. */
  lemma PipeOrder(m: Machine, acts: seq<Action>)
    requires Opened(m)
    ensures Along(States(m, acts), acts, |acts|, Pipes) == Along(States(m, acts), acts, |acts|, Serves) + InPipe(Exec(m, acts))
  {
    var ss := States(m, acts);
    forall k | 0 <= k < |acts| ensures KeepsOrder(ss[k], acts[k], ss[k + 1], Pipes, Serves, InPipe) {
      NextState(m, acts, k);
      StepPipe(ss[k], acts[k]);
    }
    OrderAlong(ss, acts, |acts|, Pipes, Serves, InPipe);
  }

  // ---------- every package is written, taken or on its way ----------

  lemma HeldSet(m: Machine, i: nat, x: Sender)
    requires i < |m.senders|
    ensures Sum(m.senders[i := x], WantedBy) + WantedBy(m.senders[i]) == Sum(m.senders, WantedBy) + WantedBy(x)
  {
    SumSet(m.senders, WantedBy, i, x);
  }

  /** A step of a thread writes what it has in hand, puts it into the pipe, or keeps it. */
  lemma SenderHand(m: Machine, i: nat, w: Written)
    requires i < |m.senders|
    ensures var m', a := StepSender(m, i, w), Go(i, w);
      && |m'.senders| == |m.senders| && m'.senders == m.senders[i := m'.senders[i]]
      && (if Writes(m, a) != [] then Writes(m, a) == WantOf(m.senders[i]) && Pipes(m, a) == [] == WantOf(m'.senders[i])
          else if Pipes(m, a) != [] then Pipes(m, a) == WantOf(m.senders[i]) && WantOf(m'.senders[i]) == []
          else WantOf(m'.senders[i]) == WantOf(m.senders[i]))
  {
  }

  lemma Balance(t': multiset<Want>, x: multiset<Want>, t: multiset<Want>, x': multiset<Want>, q': multiset<Want>, q: multiset<Want>,
                written: multiset<Want>, piped: multiset<Want>)
    requires t' + x == t + x' && x' + written + piped == x && q' == q + piped
    ensures (t' + q') + written == t + q
  {
    forall k ensures ((t' + q') + written)[k] == (t + q)[k] {
      assert (t' + x)[k] == (t + x')[k] && (x' + written + piped)[k] == x[k] && q'[k] == (q + piped)[k];
    }
  }

  lemma HandCount(m: Machine, i: nat, w: Written)
    requires i < |m.senders|
    ensures var m', a := StepSender(m, i, w), Go(i, w);
      && |m'.senders| == |m.senders| && m'.senders == m.senders[i := m'.senders[i]]
      && WantedBy(m'.senders[i]) + multiset(Writes(m, a)) + multiset(Pipes(m, a)) == WantedBy(m.senders[i])
  {
    SenderHand(m, i, w);
  }

  lemma PipeCount(m: Machine, a: Action)
    requires a.Go?
    ensures multiset(InPipe(Step(m, a))) == multiset(InPipe(m)) + multiset(Pipes(m, a))
  {
    SenderPipe(m, a);
  }

  lemma SenderCount(m: Machine, i: nat, w: Written)
    requires i < |m.senders|
    ensures OnTheWay(Step(m, Go(i, w))) + multiset(Writes(m, Go(i, w))) == OnTheWay(m)
  {
    var m', a := StepSender(m, i, w), Go(i, w);
    HandCount(m, i, w);
    HeldSet(m, i, m'.senders[i]);
    PipeCount(m, a);
    Balance(Sum(m'.senders, WantedBy), WantedBy(m.senders[i]), Sum(m.senders, WantedBy), WantedBy(m'.senders[i]),
            multiset(InPipe(m')), multiset(InPipe(m)), multiset(Writes(m, a)), multiset(Pipes(m, a)));
  }

  lemma Gains(t': multiset<Want>, x: multiset<Want>, t: multiset<Want>, x': multiset<Want>, q: multiset<Want>, asked: multiset<Want>)
    requires t' + x == t + x' && x == multiset{} && x' == asked
    ensures t' + q == (t + q) + asked
  {
    assert t' == t' + x;
  }

  lemma CallHand(m: Machine, a: Action)
    requires a.Call? && Asks(m, a) != []
    ensures var m' := Step(m, a);
      && |m'.senders| == |m.senders| && m'.senders == m.senders[a.i := m'.senders[a.i]] && m'.pipe == m.pipe
      && WantOf(m.senders[a.i]) == [] && WantOf(m'.senders[a.i]) == Asks(m, a)
  {
  }

  lemma CallCount(m: Machine, a: Action)
    requires a.Call?
    ensures OnTheWay(Step(m, a)) == OnTheWay(m) + multiset(Asks(m, a))
  {
    if Asks(m, a) != [] {
      var m' := Step(m, a);
      CallHand(m, a);
      HeldSet(m, a.i, m'.senders[a.i]);
      Gains(Sum(m'.senders, WantedBy), WantedBy(m.senders[a.i]), Sum(m.senders, WantedBy), WantedBy(m'.senders[a.i]),
            multiset(InPipe(m)), multiset(Asks(m, a)));
    } else {
      assert Step(m, a) == m;
    }
  }

  lemma ServerCount(m: Machine, a: Action)
    requires a.Serve?
    ensures OnTheWay(Step(m, a)) + multiset(Serves(m, a)) == OnTheWay(m)
  {
    ServerPipe(m, a);
  }

  lemma StepCount(m: Machine, a: Action)
    ensures KeepsCount(m, a, Step(m, a), Asks, Does, OnTheWay)
  {
    match a {
      case Call(_, _, _) => CallKeepsCount(m, a);
      case Go(i, w) => GoKeepsCount(m, a);
      case Serve(_) => ServeKeepsCount(m, a);
      case _ => OtherKeepsCount(m, a);
    }
  }

  lemma OtherKeepsCount(m: Machine, a: Action)
    requires !a.Call? && !a.Go? && !a.Serve?
    ensures KeepsCount(m, a, Step(m, a), Asks, Does, OnTheWay)
  {
    OtherPipe(m, a);
    assert Step(m, a).senders == m.senders && Asks(m, a) == [] && Does(m, a) == [];
  }

  lemma CallKeepsCount(m: Machine, a: Action)
    requires a.Call?
    ensures KeepsCount(m, a, Step(m, a), Asks, Does, OnTheWay)
  {
    CallCount(m, a);
    assert Does(m, a) == [];
  }

  lemma GoKeepsCount(m: Machine, a: Action)
    requires a.Go?
    ensures KeepsCount(m, a, Step(m, a), Asks, Does, OnTheWay)
  {
    assert Does(m, a) == Writes(m, a);
    if a.i < |m.senders| { SenderCount(m, a.i, a.w); }
  }

  lemma ServeKeepsCount(m: Machine, a: Action)
    requires a.Serve?
    ensures KeepsCount(m, a, Step(m, a), Asks, Does, OnTheWay)
  {
    assert Does(m, a) == Serves(m, a);
    ServerCount(m, a);
  }

  lemma OpenedHand(m: Machine)
    requires Opened(m)
    ensures OnTheWay(m) == multiset{}
  {
    NoneHeld(m.senders);
  }

  lemma {:induction false} NoneHeld(xs: seq<Sender>)
    requires forall i :: 0 <= i < |xs| ==> xs[i] == Away
    ensures Sum(xs, WantedBy) == multiset{}
    decreases |xs|
  {
    if xs != [] { NoneHeld(xs[..|xs| - 1]); }
  }

  /** Every package that a thread sends is written by the thread or taken out of the pipe, exactly once, or is on its
      way. */
  lemma EveryPackage(m: Machine, acts: seq<Action>)
    requires Opened(m)
    ensures multiset(Along(States(m, acts), acts, |acts|, Asks))
         == multiset(Along(States(m, acts), acts, |acts|, Does)) + OnTheWay(Exec(m, acts))
  {
    var ss := States(m, acts);
    OpenedHand(m);
    forall k | 0 <= k < |acts| ensures KeepsCount(ss[k], acts[k], ss[k + 1], Asks, Does, OnTheWay) {
      NextState(m, acts, k);
      StepCount(ss[k], acts[k]);
    }
    CountAlong(ss, acts, |acts|, Asks, Does, OnTheWay);
  }

  // ---------- the route of a package ----------

  function AcceptedBy(m: Machine): seq<Package> { m.sock.accepted }

  /** Where a package that joins the stream is put: at the end of the list of its route, if it is not written. */
  ghost predicate PutInPlace(s: Sock, p: Package, s': Sock) {
    match p.route
    case Low => s'.low == s.low + [Buffer(p, 0)] && s'.high == s.high && s'.dw == s.dw
    case High => s'.high == s.high + [Buffer(p, 0)] && s'.low == s.low && s'.dw == s.dw
    case Direct => s'.high == s.high && s'.low == s.low
  }

  lemma SendSocketPut(s: Sock, bytes: seq<Byte>, low: bool)
    requires Takes(s.kind)
    ensures var p, s' := Package(if low && !(Empty(s) && s.kind == Connected) then Low else High, bytes), SendSocket(s, bytes, low).0;
      s'.accepted == s.accepted + [p] && PutInPlace(s, p, s') && s'.started == s.started
  {
  }

  lemma SendLowSame(s: Sock, ks: seq<Written>)
    ensures SendLow(s, ks).0.accepted == s.accepted
  {
  }

  lemma SendBufferSame(s: Sock, ks: seq<Written>)
    ensures SendBuffer(s, ks).0.accepted == s.accepted
  {
    var s0 := Merged(s);
    var r := SendAll(s0.high, ks);
    SendLowSame(Advance(s0, r).(high := r.left), r.ks);
  }

  lemma StepAccepts(m: Machine, a: Action)
    ensures KeepsLog(m, a, Step(m, a), Accepts, AcceptedBy)
    ensures Accepts(m, a) != [] ==> PutInPlace(m.sock, Accepts(m, a)[0], Step(m, a).sock)
  {
    match a {
      case Serve(ks) =>
        SendBufferSame(m.sock, ks);
        if Serves(m, a) != [] && Takes(m.sock.kind) { SendSocketPut(m.sock, m.pipe[0].bytes, m.pipe[0].low); }
      case Writable(ks) => SendBufferSame(m.sock, ks);
      case _ =>
    }
  }

  /** The packages accepted are those sent, each by the route that its priority and the lists ask for, in order. */
  lemma AcceptedExactly(m: Machine, acts: seq<Action>)
    requires Opened(m)
    ensures Exec(m, acts).sock.accepted == Along(States(m, acts), acts, |acts|, Accepts)
  {
    var ss := States(m, acts);
    forall k | 0 <= k < |acts| ensures KeepsLog(ss[k], acts[k], ss[k + 1], Accepts, AcceptedBy) {
      NextState(m, acts, k);
      StepAccepts(ss[k], acts[k]);
    }
    LogAlong(ss, acts, |acts|, Accepts, AcceptedBy);
  }

  /** A package taken out of the pipe by a socket that takes it is queued as low exactly if it was sent with low
      priority and the lists were not both empty on a connected socket; one sent without low priority never is. */
  lemma LowExactly(m: Machine, acts: seq<Action>, k: nat)
    requires k < |acts| && Serves(Exec(m, acts[..k]), acts[k]) != [] && Takes(Exec(m, acts[..k]).sock.kind)
    ensures var s, s', x := Exec(m, acts[..k]).sock, Exec(m, acts[..k + 1]).sock, Serves(Exec(m, acts[..k]), acts[k])[0];
      var isLow := x.low && !(Empty(s) && s.kind == Connected);
      && s'.low == s.low + (if isLow then [Buffer(Package(Low, x.bytes), 0)] else [])
      && s'.high == s.high + (if isLow then [] else [Buffer(Package(High, x.bytes), 0)])
  {
    NextState(m, acts, k);
    StepAccepts(Exec(m, acts[..k]), acts[k]);
  }

  // ---------- the low list waits ----------

  /** In the high list, only a package raised from the low list is low, and that has been begun. */
  ghost predicate RaisedOnly(s: Sock) {
    && (forall k :: 0 <= k < |s.high| ==> s.high[k].pkg.route == Low ==> s.high[k].off > 0)
    && (forall k :: 0 <= k < |s.dw| ==> s.dw[k].pkg.route != Low)
  }

  predicate NoneLow(ps: seq<Package>) { forall k :: 0 <= k < |ps| ==> ps[k].route != Low }

  predicate AllOfLow(ps: seq<Package>) { forall k :: 0 <= k < |ps| ==> ps[k].route == Low }

  /** Sending the high list begins no low package, and leaves no unbegun one. */
  lemma {:induction false} HighBegins(q: seq<Buffer>, ks: seq<Written>)
    requires forall k :: 0 <= k < |q| ==> q[k].pkg.route == Low ==> q[k].off > 0
    ensures var r := SendAll(q, ks);
      NoneLow(r.begun) && forall k :: 0 <= k < |r.left| ==> r.left[k].pkg.route == Low ==> r.left[k].off > 0
    decreases |ks|
  {
    if q != [] && ks != [] {
      if ks[0].Interrupted? {
        HighBegins(q, ks[1..]);
      } else if ks[0].Wrote? {
        HighBegins(q[1..], ks[1..]);
      }
    }
  }

  lemma {:induction false} LowBegins(q: seq<Buffer>, ks: seq<Written>)
    requires AllLow(q)
    ensures AllOfLow(SendAll(q, ks).begun)
    decreases |ks|
  {
    if q != [] && ks != [] {
      if ks[0].Interrupted? {
        LowBegins(q, ks[1..]);
      } else if ks[0].Wrote? {
        LowBegins(q[1..], ks[1..]);
      }
    }
  }

  /** Of every route but `Low`, all packages accepted are among the first `j` begun. */
  ghost predicate AllBegun(started: seq<Package>, j: nat, accepted: seq<Package>)
    requires j <= |started|
  {
    forall p: Package :: p.route != Low ==> multiset(started[..j])[p] == multiset(accepted)[p]
  }

  /** Whatever low package is begun between `s` and `s'`, all others accepted have been begun before it. */
  ghost predicate LowLast(s: Sock, s': Sock) {
    && s.started <= s'.started
    && forall j :: |s.started| <= j < |s'.started| && s'.started[j].route == Low ==> AllBegun(s'.started, j, s.accepted)
  }

  /** Once only low packages are unbegun, all others have been begun. */
  lemma OnlyLowLeft(s: Sock, p: Package)
    requires s.dw == [] && s.high == [] && Streaming(s) && AllLow(s.low) && p.route != Low
    ensures multiset(s.started)[p] == multiset(s.accepted)[p]
  {
    OrderedCounts(Queued(s), s.started, s.accepted);
    assert Queued(s) == s.low;
    assert forall x :: x in Fresh(s.low) ==> x.route == Low;
    assert p !in multiset(Fresh(s.low));
  }

  lemma LowAfter(started: seq<Package>, begun: seq<Package>, accepted: seq<Package>, j: nat)
    requires |started| <= j <= |started + begun| && AllOfLow(begun)
    requires forall p: Package :: p.route != Low ==> multiset(started)[p] == multiset(accepted)[p]
    ensures AllBegun(started + begun, j, accepted)
  {
    var some := begun[..j - |started|];
    assert (started + begun)[..j] == started + some;
    forall p: Package | p.route != Low ensures multiset(started + some)[p] == multiset(accepted)[p] {
      assert p !in some;
    }
  }

  lemma SendLowStarted(s: Sock, ks: seq<Written>)
    ensures SendLow(s, ks).0.started == s.started + SendAll(s.low, ks).begun
    ensures RaisedOnly(s) && s.high == [] ==> RaisedOnly(SendLow(s, ks).0)
  {
  }

  lemma SendLowLast(s: Sock, ks: seq<Written>)
    requires s.dw == [] && s.high == [] && Streaming(s) && AllLow(s.low)
    ensures LowLast(s, SendLow(s, ks).0)
  {
    SendLowStarted(s, ks);
    var begun := SendAll(s.low, ks).begun;
    LowBegins(s.low, ks);
    forall p: Package | p.route != Low ensures multiset(s.started)[p] == multiset(s.accepted)[p] { OnlyLowLeft(s, p); }
    forall j | |s.started| <= j < |s.started + begun| ensures AllBegun(s.started + begun, j, s.accepted) {
      LowAfter(s.started, begun, s.accepted, j);
    }
  }

  /** Packages that are not low are begun first. */
  lemma LowLastAfter(s: Sock, s1: Sock, begun: seq<Package>, s': Sock)
    requires s1.started == s.started + begun && NoneLow(begun) && s1.accepted == s.accepted && LowLast(s1, s')
    ensures LowLast(s, s')
  {
    forall j | |s.started| <= j < |s1.started| ensures s'.started[j].route != Low {
      assert s'.started[j] == s1.started[j] == begun[j - |s.started|];
    }
  }

  /** After the high list. */
  lemma HighSentLast(s: Sock, ks: seq<Written>)
    requires s.dw == [] && Streaming(s) && Tidy(s) && RaisedOnly(s)
    ensures var r := SendAll(s.high, ks);
      var s1 := Advance(s, r).(high := r.left);
      Streaming(s1) && Tidy(s1) && RaisedOnly(s1) && NoneLow(r.begun)
  {
    HighBegins(s.high, ks);
    HighSent(s, ks);
  }

  /** The rest of `send_buffer_`. */
  function AfterHigh(s1: Sock, r: Sent): Sock {
    if r.broken then ForceClose(s1)
    else if r.left != [] then s1
    else if s1.low == [] then Drained(s1).0
    else SendLow(s1, r.ks).0
  }

  lemma AfterHighLast(s1: Sock, r: Sent)
    requires s1.dw == [] && Streaming(s1) && Tidy(s1) && RaisedOnly(s1) && s1.high == r.left
    ensures LowLast(s1, AfterHigh(s1, r)) && RaisedOnly(AfterHigh(s1, r))
  {
    if !r.broken && r.left == [] && s1.low != [] {
      SendLowLast(s1, r.ks);
      SendLowStarted(s1, r.ks);
    }
  }

  lemma SendListsLast(s: Sock, ks: seq<Written>)
    requires s.kind != Invalid && s.dw == [] && Good(s) && RaisedOnly(s)
    ensures LowLast(s, SendLists(s, ks).0) && RaisedOnly(SendLists(s, ks).0)
  {
    HighSentLast(s, ks);
    var r := SendAll(s.high, ks);
    var s1 := Advance(s, r).(high := r.left);
    AfterHighLast(s1, r);
    LowLastAfter(s, s1, r.begun, AfterHigh(s1, r));
    assert SendLists(s, ks).0 == AfterHigh(s1, r);
  }

  lemma SendBufferLast(s: Sock, ks: seq<Written>)
    requires s.kind != Invalid && Good(s) && RaisedOnly(s)
    ensures LowLast(s, SendBuffer(s, ks).0) && RaisedOnly(SendBuffer(s, ks).0)
  {
    MergedGood(s);
    MergedRaised(s);
    SendListsLast(Merged(s), ks);
  }

  lemma MergedRaised(s: Sock)
    requires RaisedOnly(s)
    ensures RaisedOnly(Merged(s))
  {
  }

  lemma SendSocketRaised(s: Sock, bytes: seq<Byte>, low: bool)
    requires RaisedOnly(s)
    ensures RaisedOnly(SendSocket(s, bytes, low).0) && SendSocket(s, bytes, low).0.started == s.started
  {
  }

  lemma ServerLast(m: Machine, ks: seq<Written>)
    requires MachineInv(m) && RaisedOnly(m.sock)
    ensures LowLast(m.sock, StepServer(m, ks).sock) && RaisedOnly(StepServer(m, ks).sock)
  {
    if m.server.Trying? {
      SendBufferLast(m.sock, ks);
    } else if m.server == Idle && m.pipe != [] && m.pipe[0].Send? {
      SendSocketRaised(m.sock, m.pipe[0].bytes, m.pipe[0].low);
    }
  }

  lemma SenderLast(m: Machine, i: nat, w: Written)
    requires i < |m.senders| && RaisedOnly(m.sock)
    ensures LowLast(m.sock, StepSender(m, i, w).sock) && RaisedOnly(StepSender(m, i, w).sock)
  {
    if m.senders[i].Going? {
      var b := Buffer(Package(Direct, m.senders[i].bytes), 0);
      var begun := Begins(b, if w.Wrote? then Taken(b, w.n) else 0);
      var s' := DirectWrite(m.sock, m.senders[i].bytes, w);
      assert s'.started == m.sock.started + begun && NoneLow(begun);
    }
  }

  /** A step that begins a low package has begun all others that were accepted. */
  lemma StepLast(m: Machine, a: Action)
    requires MachineInv(m) && RaisedOnly(m.sock)
    ensures LowLast(m.sock, Step(m, a).sock) && RaisedOnly(Step(m, a).sock)
  {
    match a {
      case Go(i, w) => if i < |m.senders| { SenderLast(m, i, w); }
      case Serve(ks) => ServerLast(m, ks);
      case Writable(ks) => if m.server == Idle && m.sock.kind != Invalid { SendBufferLast(m.sock, ks); }
      case _ =>
    }
  }

  lemma {:induction false} AlwaysRaised(m: Machine, acts: seq<Action>)
    requires Opened(m)
    ensures RaisedOnly(Exec(m, acts).sock)
    decreases |acts|
  {
    if acts != [] {
      var n := |acts| - 1;
      AlwaysRaised(m, acts[..n]);
      Always(m, acts[..n]);
      StepLast(Exec(m, acts[..n]), acts[n]);
    }
  }

  /** In every run, no package that was sent with low priority and queued as low is begun while one that was accepted
      before by another route is still unbegun. */
  lemma LowWaits(m: Machine, acts: seq<Action>, k: nat)
    requires Opened(m) && k < |acts|
    ensures LowLast(Exec(m, acts[..k]).sock, Exec(m, acts[..k + 1]).sock)
  {
    Always(m, acts[..k]);
    AlwaysRaised(m, acts[..k]);
    NextState(m, acts, k);
    StepLast(Exec(m, acts[..k]), acts[k]);
  }

  // ---------- nothing stays behind ----------

  /** The kernel takes all it is given, `n` times at least. */
  ghost predicate TakesAll(ks: seq<Written>, n: nat, max: nat) {
    |ks| >= n && forall k :: 0 <= k < |ks| ==> ks[k] == Wrote(max)
  }

  ghost predicate AtMost(q: seq<Buffer>, max: nat) { forall k :: 0 <= k < |q| ==> Left(q[k]) <= max }

  lemma {:induction false} AllGone(q: seq<Buffer>, ks: seq<Written>, n: nat, max: nat)
    requires TakesAll(ks, |q| + n, max) && AtMost(q, max)
    ensures var r := SendAll(q, ks); r.left == [] && !r.broken && TakesAll(r.ks, n, max)
    decreases |q|
  {
    if q != [] { AllGone(q[1..], ks[1..], n, max); }
  }

  /** All that was accepted has been written, package by package. */
  ghost predicate AllSent(s: Sock) { Queued(s) == [] && s.out == Concat(s.started) && multiset(s.started) == multiset(s.accepted) }

  lemma EmptySent(s: Sock)
    requires Streaming(s) && Queued(s) == []
    ensures AllSent(s)
  {
    OrderedCounts(Queued(s), s.started, s.accepted);
    assert Fresh(Queued(s)) == [];
  }

  lemma DrainedSent(s: Sock)
    requires AllSent(s)
    ensures AllSent(Drained(s).0)
  {
    var s' := Drained(s).0;
    assert s'.out == s.out && s'.started == s.started && s'.accepted == s.accepted;
    assert Queued(s') == [];
  }

  lemma LowFlushed(s: Sock, ks: seq<Written>, max: nat)
    requires s.dw == [] && s.high == [] && Streaming(s) && Tidy(s) && TakesAll(ks, |s.low|, max) && AtMost(s.low, max)
    ensures AllSent(SendLow(s, ks).0)
  {
    AllGone(s.low, ks, 0, max);
    LowSent(s, ks);
    var r := SendAll(s.low, ks);
    EmptySent(Advance(s, r).(low := r.left));
    DrainedSent(Advance(s, r).(low := r.left));
  }

  lemma ListsFlushed(s: Sock, ks: seq<Written>, max: nat)
    requires s.dw == [] && Streaming(s) && Tidy(s) && TakesAll(ks, |s.high| + |s.low|, max) && AtMost(s.high, max) && AtMost(s.low, max)
    ensures AllSent(SendLists(s, ks).0)
  {
    AllGone(s.high, ks, |s.low|, max);
    HighSent(s, ks);
    var r := SendAll(s.high, ks);
    var s1 := Advance(s, r).(high := r.left);
    if s.low == [] {
      EmptySent(s1);
      DrainedSent(s1);
    } else {
      LowFlushed(s1, r.ks, max);
    }
  }

  /** The longest rest of a package. */
  lemma {:induction false} Longest(q: seq<Buffer>) returns (max: nat)
    ensures AtMost(q, max)
    decreases |q|
  {
    max := 0;
    if q != [] {
      max := Longest(q[1..]);
      if max < Left(q[0]) { max := Left(q[0]); }
      assert forall k :: 0 < k < |q| ==> q[k] == q[1..][k - 1];
    }
  }

  lemma FlushLists(s: Sock) returns (ks: seq<Written>)
    requires s.dw == [] && Streaming(s) && Tidy(s)
    ensures AllSent(SendLists(s, ks).0)
  {
    var a := Longest(s.high);
    var b := Longest(s.low);
    var max := a + b;
    ks := seq(|s.high| + |s.low|, _ => Wrote(max));
    ListsFlushed(s, ks, max);
  }

  lemma FlushSock(s: Sock) returns (ks: seq<Written>)
    requires s.kind != Invalid && Good(s)
    ensures AllSent(SendBuffer(s, ks).0)
  {
    MergedGood(s);
    ks := FlushLists(Merged(s));
  }

  /** In every run, one write event is enough to send all that is queued on an open connection, if the kernel takes it. */
  lemma Flushed(m: Machine, acts: seq<Action>) returns (ks: seq<Written>)
    requires Opened(m)
    requires var m' := Exec(m, acts); m'.server == Idle && LockFree(m') && !(m'.sock.kind in {Invalid, Connecting})
    ensures AllSent(Step(Exec(m, acts), Writable(ks)).sock)
  {
    Always(m, acts);
    ks := FlushSock(Exec(m, acts).sock);
  }
}
