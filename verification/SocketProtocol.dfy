/** The threads around one TCP socket of socket_server.c as a machine of atomic steps: any number
    of sending threads, and the socket thread. */
module SocketProtocol {
  import opened SocketStream
  import opened SocketQueue

  /** A thread in `socket_server_send` or `socket_server_send_lowpriority`. */
  datatype Sender =
    | Away
    | Eager(bytes: seq<Byte>)                    // the unlocked check has passed
    | Checking(bytes: seq<Byte>)                 // holds the lock; checks again
    | Seen(bytes: seq<Byte>)                     // holds the lock; found both lists empty
    | Quiet(bytes: seq<Byte>)                    // holds the lock; found nothing else under way
    | Going(bytes: seq<Byte>)                    // holds the lock; about to write
    | Late(bytes: seq<Byte>, low: bool)          // before inc_sending_ref
    | Entering(bytes: seq<Byte>, low: bool)      // before send_request

  predicate Locks(x: Sender) { x.Checking? || x.Seen? || x.Quiet? || x.Going? }

  datatype Request = Send(bytes: seq<Byte>, low: bool) | Close(shutdown: bool)

  /** The socket thread: between two commands, after `send_socket`, in the two halves of
      `close_socket`, in `force_close` waiting for the lock, or in `report_connect` before it looks for queued
      bytes and before it turns the write event off. */
  datatype Server =
    Idle | Answered | Trying(shutdown: bool) | Deciding(shutdown: bool) | Closing | Testing | Calming

  datatype Machine = Machine(sock: Sock, sending: nat, pipe: seq<Request>, senders: seq<Sender>, server: Server)

  datatype Action =
    | Call(i: nat, bytes: seq<Byte>, low: bool)      // a thread starts to send
    | Go(i: nat, w: Written)                         // a sending thread takes a step
    | RequestClose(shutdown: bool)
    | Serve(ks: seq<Written>)                        // the socket thread goes on with a command
    | Writable(ks: seq<Written>)                     // or handles a write event
    | Connect(ok: bool)                              // or the end of a connection attempt
    | Start                                          // or starts an accepted connection
    | Fail                                           // or an error or the end of input

  predicate LockFree(m: Machine) { forall i :: 0 <= i < |m.senders| ==> !Locks(m.senders[i]) }

  /** `nomore_sending_data` */
  predicate NoMore(m: Machine) { Empty(m.sock) && m.sock.dw == [] && m.sending == 0 }

  /** `can_direct_write` */
  predicate CanDirect(m: Machine) { NoMore(m) && m.sock.kind == Connected }

  // ---------- steps ----------

  function Become(m: Machine, i: nat, x: Sender): Machine
    requires i < |m.senders|
  {
    m.(senders := m.senders[i := x])
  }

  function StepSender(m: Machine, i: nat, w: Written): Machine
    requires i < |m.senders|
  {
    match m.senders[i]
    case Away => m
    case Eager(bytes) => if LockFree(m) then Become(m, i, Checking(bytes)) else Become(m, i, Late(bytes, false))
    case Checking(bytes) => Become(m, i, if Empty(m.sock) then Seen(bytes) else Late(bytes, false))
    case Seen(bytes) => Become(m, i, if m.sock.dw == [] && m.sending == 0 then Quiet(bytes) else Late(bytes, false))
    case Quiet(bytes) => Become(m, i, if m.sock.kind == Connected then Going(bytes) else Late(bytes, false))
    case Going(bytes) => Become(m, i, Away).(sock := DirectWrite(m.sock, bytes, w))
    case Late(bytes, low) => if m.sending == 0xffff then m else Become(m, i, Entering(bytes, low)).(sending := m.sending + 1)
    case Entering(bytes, low) => Become(m, i, Away).(pipe := m.pipe + [Send(bytes, low)])
  }

  /** `force_close` up to the lock: the lists are freed. */
  function BeginClose(m: Machine): Machine {
    m.(sock := m.sock.(high := [], low := []), server := Closing)
  }

  function StepServer(m: Machine, ks: seq<Written>): Machine {
    match m.server
    case Answered => if m.sending == 0 then m else m.(sending := m.sending - 1, server := Idle)
    case Trying(shutdown) =>
      if NoMore(m) || !LockFree(m) then m.(server := Deciding(shutdown))
      else
        var (s, e) := SendBuffer(m.sock, ks);
        m.(sock := s, server := if e == Closed then Idle else Deciding(shutdown))
    case Deciding(shutdown) =>
      if shutdown || NoMore(m) then BeginClose(m) else m.(sock := m.sock.(kind := HalfClose), server := Idle)
    case Closing => if LockFree(m) then m.(sock := ForceClose(m.sock), server := Idle) else m
    case Testing => m.(server := if NoMore(m) then Calming else Idle)
    case Calming => m.(sock := m.sock.(watching := false), server := Idle)
    case Idle =>
      if m.pipe == [] then m
      else
        var rest := m.(pipe := m.pipe[1..]);
        match m.pipe[0]
        case Send(bytes, low) => rest.(sock := SendSocket(m.sock, bytes, low).0, server := Answered)
        case Close(shutdown) => if m.sock.kind == Invalid then rest else rest.(server := Trying(shutdown))
  }

  /** `send_buffer` on a write event */
  function StepWritable(m: Machine, ks: seq<Written>): Machine {
    if m.server != Idle || m.sock.kind in {Invalid, Connecting} || !LockFree(m) then m
    else m.(sock := SendBuffer(m.sock, ks).0)
  }

  /** `report_connect` up to its test for queued bytes */
  function StepConnect(m: Machine, ok: bool): Machine {
    if m.server != Idle || m.sock.kind != Connecting then m
    else if !ok then BeginClose(m)
    else m.(sock := m.sock.(kind := Connected), server := Testing)
  }

  function Step(m: Machine, a: Action): Machine {
    match a
    case Call(i, bytes, low) =>
      if i >= |m.senders| || m.senders[i] != Away || m.sock.kind == Invalid then m
      else Become(m, i, if !low && CanDirect(m) then Eager(bytes) else Late(bytes, low))
    case Go(i, w) => if i >= |m.senders| then m else StepSender(m, i, w)
    case RequestClose(shutdown) => m.(pipe := m.pipe + [Close(shutdown)])
    case Serve(ks) => StepServer(m, ks)
    case Writable(ks) => StepWritable(m, ks)
    case Connect(ok) => StepConnect(m, ok)
    case Start => if m.server == Idle && m.sock.kind == Accepting then m.(sock := m.sock.(kind := Connected)) else m
    case Fail => if m.server != Idle || m.sock.kind == Invalid then m else BeginClose(m)
  }

  /** A new socket: connecting, connected at once, or accepted. */
  ghost predicate Opened(m: Machine) {
    && m.sock.kind in {Connecting, Connected, Accepting} && m.sock.watching == (m.sock.kind == Connecting)
    && m.sock == Sock([], [], [], 0, m.sock.kind, m.sock.watching, 0, [], [], [])
    && m.sending == 0 && m.pipe == [] && m.server == Idle
    && forall i :: 0 <= i < |m.senders| ==> m.senders[i] == Away
  }

  // ---------- the invariant ----------

  function One(b: bool): nat { if b then 1 else 0 }

  function CountEntering(xs: seq<Sender>): nat {
    if xs == [] then 0 else CountEntering(xs[..|xs| - 1]) + One(xs[|xs| - 1].Entering?)
  }

  function CountSends(rs: seq<Request>): nat {
    if rs == [] then 0 else One(rs[0].Send?) + CountSends(rs[1..])
  }

  /** At most one thread holds the lock. */
  ghost predicate LockOk(m: Machine) {
    forall i, j :: 0 <= i < |m.senders| && 0 <= j < |m.senders| && Locks(m.senders[i]) && Locks(m.senders[j]) ==> i == j
  }

  /** `sending` counts the packages on their way through the pipe. */
  ghost predicate CountOk(m: Machine) {
    m.sending == CountEntering(m.senders) + CountSends(m.pipe) + One(m.server == Answered) && m.sending <= 0xffff
  }

  /** Only the direct-write buffer is left. */
  ghost predicate Ebbing(s: Sock) {
    && Shaped(s.dw) && Whole(s.dw, s.out, s.started)
    && multiset(s.started) + multiset(Fresh(s.dw)) <= multiset(s.accepted)
  }

  /** While the lists have been freed and the lock is awaited, a part-sent package may be lost; after that
      any byte written is out of place. */
  ghost predicate StageOk(s: Sock, server: Server) {
    if s.kind == Invalid then
      Queued(s) == [] && (Seamless(s.out) ==> Cut(s)) && server in {Idle, Answered}
    else if server == Closing then
      Empty(s) && |s.dw| <= 1 && (Seamless(s.out) ==> Cut(s) && (Unfinished(s.out) || Ebbing(s)))
    else
      && Good(s) && (server.Deciding? || Dialing(s))
      && (server.Testing? || server.Calming? ==> s.kind == Connected) && (server.Calming? ==> Empty(s))
  }

  /** Nothing in the lists has been begun or comes from a direct write. */
  ghost predicate Calm(s: Sock) {
    && (forall k :: 0 <= k < |s.high| ==> s.high[k].off == 0 && s.high[k].pkg.route != Direct)
    && (forall k :: 0 <= k < |s.low| ==> s.low[k].off == 0 && s.low[k].pkg.route != Direct)
  }

  /** What a thread has found out stays true as long as it holds the lock. */
  ghost predicate SenderOk(s: Sock, x: Sender) {
    && (x.Seen? || x.Quiet? || x.Going? ==> Calm(s))
    && (x.Quiet? || x.Going? ==> s.dw == [])
    && (x.Going? ==> s.kind in {Connected, HalfClose})
  }

  ghost predicate MachineInv(m: Machine) {
    && LockOk(m) && CountOk(m) && StageOk(m.sock, m.server)
    && forall i :: 0 <= i < |m.senders| ==> SenderOk(m.sock, m.senders[i])
  }

  lemma {:induction false} CountSet(xs: seq<Sender>, i: nat, x: Sender)
    requires i < |xs|
    ensures CountEntering(xs[i := x]) + One(xs[i].Entering?) == CountEntering(xs) + One(x.Entering?)
    ensures One(xs[i].Entering?) <= CountEntering(xs)
    decreases |xs|
  {
    var n := |xs| - 1;
    if i == n {
      assert xs[i := x][..n] == xs[..n];
    } else {
      assert xs[i := x][..n] == xs[..n][i := x];
      CountSet(xs[..n], i, x);
    }
  }

  lemma {:induction false} CountAppend(rs: seq<Request>, r: Request)
    ensures CountSends(rs + [r]) == CountSends(rs) + One(r.Send?)
  {
    if rs != [] {
      assert (rs + [r])[1..] == rs[1..] + [r];
      CountAppend(rs[1..], r);
    }
  }

  lemma CalmClear(s: Sock)
    requires Calm(s) && s.dw == []
    ensures Clear(s)
  {
  }

  /** A thread learns something, gives up, or takes or leaves the lock. */
  lemma BecomeKeeps(m: Machine, i: nat, x: Sender)
    requires MachineInv(m) && i < |m.senders| && !m.senders[i].Entering? && !x.Entering?
    requires Locks(x) ==> Locks(m.senders[i]) || LockFree(m)
    requires SenderOk(m.sock, x)
    ensures MachineInv(Become(m, i, x))
  {
    CountSet(m.senders, i, x);
  }

  lemma CallKeeps(m: Machine, i: nat, bytes: seq<Byte>, low: bool)
    requires MachineInv(m)
    ensures MachineInv(Step(m, Call(i, bytes, low)))
  {
    if i < |m.senders| && m.senders[i] == Away {
      BecomeKeeps(m, i, Late(bytes, low));
      BecomeKeeps(m, i, Eager(bytes));
    }
  }

  /** A direct write after both lists were found empty. */
  lemma DirectStage(s: Sock, server: Server, bytes: seq<Byte>, w: Written)
    requires StageOk(s, server) && SenderOk(s, Going(bytes))
    ensures StageOk(DirectWrite(s, bytes, w), server)
    ensures server == Closing && Seamless(s.out) ==>
      (Seamless(DirectWrite(s, bytes, w).out) <==> !(Unfinished(s.out) && Puts(bytes, w)))
  {
    CalmClear(s);
    if server != Closing {
      DirectGood(s, bytes, w);
    } else {
      DirectClosing(s, bytes, w);
    }
  }

  /** At least one byte is written. */
  predicate Puts(bytes: seq<Byte>, w: Written) { w.Wrote? && w.n > 0 && bytes != [] }

  lemma DirectClosing(s: Sock, bytes: seq<Byte>, w: Written)
    requires StageOk(s, Closing) && s.kind != Invalid && SenderOk(s, Going(bytes))
    ensures StageOk(DirectWrite(s, bytes, w), Closing)
    ensures Seamless(s.out) ==> (Seamless(DirectWrite(s, bytes, w).out) <==> !(Unfinished(s.out) && Puts(bytes, w)))
  {
    var b := Buffer(Package(Direct, bytes), 0);
    var n := if w.Wrote? then Taken(b, w.n) else 0;
    if !Seamless(s.out) {
      StaysSeamed(s.out, Chunk(b, n));
    } else if Ebbing(s) {
      DirectEbbing(s, bytes, w);
      EbbingCut(s);
      EbbingCut(DirectWrite(s, bytes, w));
      EbbingEnds(s);
    } else if n == 0 {
      assert DirectWrite(s, bytes, w).out == s.out;
      CutLater(s, Begins(b, n), b.pkg);
    } else {
      assert Chunk(b, n) == Wire(b.pkg)[..n];
      BegunInside(s.out, b.pkg, n, []);
      assert s.out + Chunk(b, n) + [] == s.out + Chunk(b, n);
    }
  }

  lemma StaysSeamed(w: seq<Octet>, more: seq<Octet>)
    requires !Seamless(w)
    ensures !Seamless(w + more)
  {
    if Seamless(w + more) { PrefixSeamless(w, w + more); }
  }

  lemma EbbingCut(s: Sock)
    requires Ebbing(s)
    ensures Cut(s) && Seamless(s.out)
  {
    WholePrefix(s.dw, s.out, s.started);
    ConcatSeamless(s.started);
    PrefixSeamless(s.out, Concat(s.started));
  }

  /** With no direct-write buffer left, what has been written ends with a package. */
  lemma EbbingEnds(s: Sock)
    requires Ebbing(s) && s.dw == []
    ensures !Unfinished(s.out)
  {
    ConcatSeamless(s.started);
  }

  /** A package begun without a byte does not matter. */
  lemma CutLater(s: Sock, begun: seq<Package>, p: Package)
    requires Cut(s) && (begun == [] || begun == [p])
    ensures Cut(s.(started := s.started + begun, accepted := s.accepted + [p]))
  {
    if begun == [p] { ConcatLast(s.started, p); } else { assert s.started + begun == s.started; }
    assert multiset(s.started + [p]) == multiset(s.started) + multiset{p};
    assert multiset(s.accepted + [p]) == multiset(s.accepted) + multiset{p};
  }

  lemma DirectEbbing(s: Sock, bytes: seq<Byte>, w: Written)
    requires Empty(s) && s.dw == [] && Ebbing(s)
    ensures Ebbing(DirectWrite(s, bytes, w))
  {
    var b := Buffer(Package(Direct, bytes), 0);
    var n := if w.Wrote? then Taken(b, w.n) else 0;
    DirectBuffer(s, bytes, w, b, n);
    RestWhole([b], n, s.out, s.started);
    RestFresh([b], n);
    CountBegun(Begins(b, n), Fresh(Rest([b], n)), b.pkg, s.started, s.accepted);
  }

  /** What is left of the package in the direct-write buffer. */
  lemma DirectBuffer(s: Sock, bytes: seq<Byte>, w: Written, b: Buffer, n: nat)
    requires s.dw == [] && b == Buffer(Package(Direct, bytes), 0) && n == (if w.Wrote? then Taken(b, w.n) else 0)
    ensures DirectWrite(s, bytes, w).dw == Rest([b], n)
  {
    assert [b][1..] == [];
  }

  lemma CountBegun(begun: seq<Package>, rest: seq<Package>, p: Package, started: seq<Package>, accepted: seq<Package>)
    requires begun + rest == [p] && multiset(started) <= multiset(accepted)
    ensures multiset(started + begun) + multiset(rest) <= multiset(accepted + [p])
  {
    assert multiset(begun) + multiset(rest) == multiset(begun + rest);
    assert multiset(started + begun) == multiset(started) + multiset(begun);
    assert multiset(accepted + [p]) == multiset(accepted) + multiset([p]);
  }

  lemma GoingKeeps(m: Machine, i: nat, w: Written)
    requires MachineInv(m) && i < |m.senders| && m.senders[i].Going?
    ensures MachineInv(StepSender(m, i, w))
  {
    var x, m' := m.senders[i], StepSender(m, i, w);
    CountSet(m.senders, i, Away);
    assert SenderOk(m.sock, x) && x == Going(x.bytes);
    DirectStage(m.sock, m.server, x.bytes, w);
    forall j | 0 <= j < |m'.senders| ensures SenderOk(m'.sock, m'.senders[j]) {
      if j != i { assert !Locks(m.senders[j]); }
    }
  }

  /** A thread without the lock moves its package towards the pipe. */
  lemma PipeChange(m: Machine, i: nat, x: Sender, sending: nat, pipe: seq<Request>)
    requires MachineInv(m) && i < |m.senders| && !Locks(m.senders[i]) && !Locks(x) && sending <= 0xffff
    requires sending == CountEntering(m.senders[i := x]) + CountSends(pipe) + One(m.server == Answered)
    ensures MachineInv(Become(m, i, x).(sending := sending, pipe := pipe))
  {
  }

  lemma LateKeeps(m: Machine, i: nat, w: Written)
    requires MachineInv(m) && i < |m.senders| && m.senders[i].Late?
    ensures MachineInv(StepSender(m, i, w))
  {
    var x := m.senders[i];
    CountSet(m.senders, i, Entering(x.bytes, x.low));
    if m.sending != 0xffff { PipeChange(m, i, Entering(x.bytes, x.low), m.sending + 1, m.pipe); }
  }

  lemma EnteringKeeps(m: Machine, i: nat, w: Written)
    requires MachineInv(m) && i < |m.senders| && m.senders[i].Entering?
    ensures MachineInv(StepSender(m, i, w))
  {
    var x := m.senders[i];
    CountSet(m.senders, i, Away);
    CountAppend(m.pipe, Send(x.bytes, x.low));
    PipeChange(m, i, Away, m.sending, m.pipe + [Send(x.bytes, x.low)]);
  }

  /** The checks before a direct write. */
  lemma CheckOk(m: Machine, i: nat, w: Written)
    requires i < |m.senders| && SenderOk(m.sock, m.senders[i])
    requires var x := m.senders[i]; x.Eager? || x.Checking? || x.Seen? || x.Quiet?
    ensures var x' := StepSender(m, i, w).senders[i];
      && SenderOk(m.sock, x') && !x'.Entering? && (Locks(x') ==> Locks(m.senders[i]) || LockFree(m))
      && StepSender(m, i, w) == Become(m, i, x')
  {
  }

  lemma SenderKeeps(m: Machine, i: nat, w: Written)
    requires MachineInv(m) && i < |m.senders|
    ensures MachineInv(StepSender(m, i, w))
  {
    match m.senders[i] {
      case Away =>
      case Going(_) => GoingKeeps(m, i, w);
      case Late(_, _) => LateKeeps(m, i, w);
      case Entering(_, _) => EnteringKeeps(m, i, w);
      case _ =>
        CheckOk(m, i, w);
        BecomeKeeps(m, i, StepSender(m, i, w).senders[i]);
    }
  }

  // ---------- the socket thread ----------

  /** The socket thread changes the socket and its own state only. */
  lemma ServerChange(m: Machine, s: Sock, server: Server)
    requires MachineInv(m) && m.server != Answered && server != Answered
    requires StageOk(s, server)
    requires forall i :: 0 <= i < |m.senders| ==> SenderOk(s, m.senders[i])
    ensures MachineInv(m.(sock := s, server := server))
  {
  }

  lemma UnlockedOk(m: Machine, s: Sock)
    requires LockFree(m)
    ensures forall i :: 0 <= i < |m.senders| ==> SenderOk(s, m.senders[i])
  {
    forall i | 0 <= i < |m.senders| ensures SenderOk(s, m.senders[i]) {
      assert !Locks(m.senders[i]);
    }
  }

  /** `send_buffer` never leaves the socket half closed, and closes it only as a whole. */
  lemma SendBufferEvent(s: Sock, ks: seq<Written>)
    requires s.kind != Invalid
    ensures var (s1, e) := SendBuffer(s, ks); s1.kind == if e == Closed then Invalid else s.kind
  {
    var s0 := Merged(s);
    var r := SendAll(s0.high, ks);
    var s1 := Advance(s0, r).(high := r.left);
    if !r.broken && r.left == [] {
      if s0.low == [] { DrainedEvent(s1); } else { SendLowEvent(s1, r.ks); }
    }
  }

  lemma DrainedEvent(s: Sock)
    requires s.kind != Invalid
    ensures var (s1, e) := Drained(s); s1.kind == if e == Closed then Invalid else s.kind
  {
  }

  lemma SendLowEvent(s: Sock, ks: seq<Written>)
    requires s.kind != Invalid
    ensures var (s1, e) := SendLow(s, ks); s1.kind == if e == Closed then Invalid else s.kind
  {
    var r := SendAll(s.low, ks);
    if !r.broken && r.left == [] { DrainedEvent(Advance(s, r).(low := r.left)); }
  }

  lemma WritableKeeps(m: Machine, ks: seq<Written>)
    requires MachineInv(m)
    ensures MachineInv(StepWritable(m, ks))
  {
    if m.server == Idle && !(m.sock.kind in {Invalid, Connecting}) && LockFree(m) {
      var s := SendBuffer(m.sock, ks).0;
      SendBufferGood(m.sock, ks);
      SendBufferEvent(m.sock, ks);
      UnlockedOk(m, s);
      ServerChange(m, s, Idle);
    }
  }

  /** The head of the queue is part-sent and will be freed. */
  ghost predicate PartSent(s: Sock) { s.dw == [] && Uncomplete(s.high) }

  lemma BeginCloseStage(s: Sock)
    requires s.kind != Invalid && Good(s)
    ensures var s' := s.(high := [], low := []);
      StageOk(s', Closing) && Seamless(s.out) && (s.dw == [] ==> (Unfinished(s.out) <==> PartSent(s)))
  {
    StreamingCut(s);
    GoodSeamless(s);
    if PartSent(s) {
      PartUnfinished(Queued(s), s.out, s.started);
    } else {
      EbbingLeft(s);
      if s.dw == [] { EbbingEnds(s.(high := [], low := [])); }
    }
  }

  lemma GoodSeamless(s: Sock)
    requires Good(s)
    ensures Seamless(s.out)
  {
    if s.kind != Invalid { StreamingCut(s); }
    ConcatSeamless(s.started);
    PrefixSeamless(s.out, Concat(s.started));
  }

  lemma PartUnfinished(q: seq<Buffer>, out: seq<Octet>, started: seq<Package>)
    requires Uncomplete(q) && Shaped(q) && Whole(q, out, started)
    ensures Unfinished(out)
  {
    assert out[|out| - 1] == Wire(q[0].pkg)[q[0].off - 1];
  }

  /** Freeing the lists leaves the direct-write buffer intact. */
  lemma EbbingLeft(s: Sock)
    requires Good(s) && s.kind != Invalid && !PartSent(s)
    ensures Ebbing(s.(high := [], low := []))
  {
    if s.dw == [] { EbbingNone(s); } else { EbbingOne(s); }
  }

  lemma EbbingNone(s: Sock)
    requires Good(s) && s.kind != Invalid && s.dw == [] && !Uncomplete(s.high)
    ensures Ebbing(s.(high := [], low := []))
  {
    OrderedCounts(Queued(s), s.started, s.accepted);
    assert Queued(s) == s.high + s.low && !Uncomplete(Queued(s));
  }

  lemma EbbingOne(s: Sock)
    requires Good(s) && s.kind != Invalid && s.dw != []
    ensures Ebbing(s.(high := [], low := []))
  {
    var lists := s.high + s.low;
    OrderedCounts(Queued(s), s.started, s.accepted);
    assert Queued(s) == s.dw + lists;
    assert s.dw[0] == Queued(s)[0];
    FreshPrefix(s.dw, lists);
  }

  lemma FreshPrefix(a: seq<Buffer>, b: seq<Buffer>)
    requires |a| == 1
    ensures multiset(Fresh(a)) <= multiset(Fresh(a + b))
  {
    assert (a + b)[1..] == b;
    if !Uncomplete(a) { assert Packages(a + b) == Packages(a) + Packages(b); }
  }

  lemma BeginCloseKeeps(m: Machine)
    requires MachineInv(m) && m.sock.kind != Invalid && !(m.server in {Closing, Answered})
    ensures MachineInv(BeginClose(m))
  {
    BeginCloseStage(m.sock);
    var s := m.sock.(high := [], low := []);
    forall i | 0 <= i < |m.senders| ensures SenderOk(s, m.senders[i]) {
      assert SenderOk(m.sock, m.senders[i]);
    }
    ServerChange(m, s, Closing);
  }

  lemma CalmAppend(s: Sock, bytes: seq<Byte>, low: bool, x: Sender)
    requires SenderOk(s, x)
    ensures SenderOk(SendSocket(s, bytes, low).0, x)
  {
  }

  lemma SendKeeps(m: Machine, ks: seq<Written>)
    requires MachineInv(m) && m.server == Idle && m.pipe != [] && m.pipe[0].Send?
    ensures MachineInv(StepServer(m, ks))
  {
    var Send(bytes, low) := m.pipe[0];
    var s := SendSocket(m.sock, bytes, low).0;
    SendSocketStage(m.sock, bytes, low);
    forall i | 0 <= i < |m.senders| ensures SenderOk(s, m.senders[i]) {
      CalmAppend(m.sock, bytes, low, m.senders[i]);
    }
  }

  lemma SendSocketStage(s: Sock, bytes: seq<Byte>, low: bool)
    requires StageOk(s, Idle)
    ensures StageOk(SendSocket(s, bytes, low).0, Answered)
  {
    if s.kind != Invalid { SendSocketGood(s, bytes, low); }
  }

  /** The assertion of `dec_sending_ref` holds. */
  lemma DecKeeps(m: Machine, ks: seq<Written>)
    requires MachineInv(m) && m.server == Answered
    ensures m.sending != 0 && MachineInv(StepServer(m, ks))
  {
  }

  lemma TryingKeeps(m: Machine, ks: seq<Written>)
    requires MachineInv(m) && m.server.Trying?
    ensures MachineInv(StepServer(m, ks))
  {
    var next := Deciding(m.server.shutdown);
    if NoMore(m) || !LockFree(m) {
      ServerChange(m, m.sock, next);
    } else {
      var (s, e) := SendBuffer(m.sock, ks);
      SendBufferGood(m.sock, ks);
      SendBufferEvent(m.sock, ks);
      UnlockedOk(m, s);
      ServerChange(m, s, if e == Closed then Idle else next);
    }
  }

  lemma HalfCloseStage(s: Sock)
    requires s.kind != Invalid && Good(s)
    ensures StageOk(s.(kind := HalfClose), Idle)
  {
    assert Queued(s.(kind := HalfClose)) == Queued(s);
  }

  lemma DecidingKeeps(m: Machine, ks: seq<Written>)
    requires MachineInv(m) && m.server.Deciding?
    ensures MachineInv(StepServer(m, ks))
  {
    if m.server.shutdown || NoMore(m) {
      BeginCloseKeeps(m);
    } else {
      var s := m.sock.(kind := HalfClose);
      HalfCloseStage(m.sock);
      forall i | 0 <= i < |m.senders| ensures SenderOk(s, m.senders[i]) {
        assert SenderOk(m.sock, m.senders[i]);
      }
      ServerChange(m, s, Idle);
    }
  }

  lemma ClosingKeeps(m: Machine, ks: seq<Written>)
    requires MachineInv(m) && m.server == Closing
    ensures MachineInv(StepServer(m, ks))
  {
    if LockFree(m) {
      UnlockedOk(m, ForceClose(m.sock));
      ServerChange(m, ForceClose(m.sock), Idle);
    }
  }

  lemma CalmingKeeps(m: Machine, ks: seq<Written>)
    requires MachineInv(m) && m.server == Calming
    ensures MachineInv(StepServer(m, ks))
  {
    var s := m.sock.(watching := false);
    assert Queued(s) == Queued(m.sock);
    forall i | 0 <= i < |m.senders| ensures SenderOk(s, m.senders[i]) {
      assert SenderOk(m.sock, m.senders[i]);
    }
    ServerChange(m, s, Idle);
  }

  lemma ServerKeeps(m: Machine, ks: seq<Written>)
    requires MachineInv(m)
    ensures MachineInv(StepServer(m, ks))
  {
    match m.server {
      case Answered => DecKeeps(m, ks);
      case Trying(_) => TryingKeeps(m, ks);
      case Deciding(_) => DecidingKeeps(m, ks);
      case Closing => ClosingKeeps(m, ks);
      case Testing => ServerChange(m, m.sock, if NoMore(m) then Calming else Idle);
      case Calming => CalmingKeeps(m, ks);
      case Idle =>
        if m.pipe != [] {
          if m.pipe[0].Send? { SendKeeps(m, ks); } else { CloseCommandKeeps(m, ks); }
        }
    }
  }

  lemma CloseCommandKeeps(m: Machine, ks: seq<Written>)
    requires MachineInv(m) && m.server == Idle && m.pipe != [] && m.pipe[0].Close?
    ensures MachineInv(StepServer(m, ks))
  {
    ServerChange(m, m.sock, if m.sock.kind == Invalid then Idle else Trying(m.pipe[0].shutdown));
  }

  lemma ConnectKeeps(m: Machine, ok: bool)
    requires MachineInv(m)
    ensures MachineInv(StepConnect(m, ok))
  {
    if m.server == Idle && m.sock.kind == Connecting {
      if !ok {
        BeginCloseKeeps(m);
      } else {
        var s := m.sock.(kind := Connected);
        assert Queued(s) == Queued(m.sock);
        forall i | 0 <= i < |m.senders| ensures SenderOk(s, m.senders[i]) {
          assert SenderOk(m.sock, m.senders[i]);
        }
        ServerChange(m, s, Testing);
      }
    }
  }

  lemma StartedStage(s: Sock)
    requires StageOk(s, Idle) && s.kind == Accepting
    ensures StageOk(s.(kind := Connected), Idle)
  {
    assert Queued(s.(kind := Connected)) == Queued(s);
  }

  lemma StartKeeps(m: Machine)
    requires MachineInv(m)
    ensures MachineInv(Step(m, Start))
  {
    if m.server == Idle && m.sock.kind == Accepting {
      var s := m.sock.(kind := Connected);
      StartedStage(m.sock);
      forall i | 0 <= i < |m.senders| ensures SenderOk(s, m.senders[i]) {
        assert SenderOk(m.sock, m.senders[i]);
      }
      ServerChange(m, s, Idle);
    }
  }

  /** Every step of every thread keeps the invariant. */
  lemma StepKeeps(m: Machine, a: Action)
    requires MachineInv(m)
    ensures MachineInv(Step(m, a))
  {
    match a {
      case Call(i, bytes, low) => CallKeeps(m, i, bytes, low);
      case Go(i, w) => if i < |m.senders| { SenderKeeps(m, i, w); }
      case RequestClose(shutdown) => CountAppend(m.pipe, Close(shutdown));
      case Serve(ks) => ServerKeeps(m, ks);
      case Writable(ks) => WritableKeeps(m, ks);
      case Connect(ok) => ConnectKeeps(m, ok);
      case Start => StartKeeps(m);
      case Fail => if m.server == Idle && m.sock.kind != Invalid { BeginCloseKeeps(m); }
    }
  }

  // ---------- runs ----------

  function Exec(m: Machine, acts: seq<Action>): Machine {
    if acts == [] then m else Step(Exec(m, acts[..|acts| - 1]), acts[|acts| - 1])
  }

  lemma OpenedInv(m: Machine)
    requires Opened(m)
    ensures MachineInv(m)
  {
    OpenedStage(m);
    OpenedThreads(m);
  }

  lemma OpenedThreads(m: Machine)
    requires Opened(m)
    ensures LockOk(m) && CountOk(m) && forall i :: 0 <= i < |m.senders| ==> SenderOk(m.sock, m.senders[i])
  {
    NoneEntering(m.senders);
    assert forall i :: 0 <= i < |m.senders| ==> m.senders[i] == Away && !Locks(m.senders[i]);
  }

  lemma OpenedStage(m: Machine)
    requires Opened(m)
    ensures StageOk(m.sock, m.server)
  {
    NewGood(m.sock.kind, m.sock.watching);
  }

  lemma NewGood(kind: Kind, watching: bool)
    requires kind != Invalid
    ensures Good(Sock([], [], [], 0, kind, watching, 0, [], [], []))
  {
    var s := Sock([], [], [], 0, kind, watching, 0, [], [], []);
    assert Queued(s) == [] && Packages([]) == [];
  }

  lemma {:induction false} NoneEntering(xs: seq<Sender>)
    requires forall i :: 0 <= i < |xs| ==> xs[i] == Away
    ensures CountEntering(xs) == 0
  {
    if xs != [] { NoneEntering(xs[..|xs| - 1]); }
  }

  /** The invariant holds after every run. */
  lemma {:induction false} Always(m: Machine, acts: seq<Action>)
    requires Opened(m)
    ensures MachineInv(Exec(m, acts))
    decreases |acts|
  {
    if acts == [] {
      OpenedInv(m);
    } else {
      Always(m, acts[..|acts| - 1]);
      StepKeeps(Exec(m, acts[..|acts| - 1]), acts[|acts| - 1]);
    }
  }

  /** While a socket is open, the bytes written are whole packages followed by the written part of
      the one that will be finished first; each route is in order; and the size is exact. */
  lemma StreamIntegrity(m: Machine, acts: seq<Action>)
    requires Opened(m)
    ensures var m' := Exec(m, acts);
      m'.sock.kind != Invalid && m'.server != Closing ==>
        && Flow(Queued(m'.sock), m'.sock.out, m'.sock.started, m'.sock.accepted)
        && m'.sock.wbSize == Size(m'.sock.high) + Size(m'.sock.low) && !Uncomplete(m'.sock.low)
  {
    Always(m, acts);
  }

  // ---------- when packages are mixed up ----------

  /** A direct write puts a byte on the wire after `force_close` has freed a part-sent package. */
  ghost predicate Tears(m: Machine, a: Action) {
    && m.server == Closing && Unfinished(m.sock.out)
    && a.Go? && a.i < |m.senders| && m.senders[a.i].Going? && Puts(m.senders[a.i].bytes, a.w)
  }

  /** What has been written is a prefix of whole packages, each accepted. */
  ghost predicate Clean(s: Sock) {
    exists ps :: multiset(ps) <= multiset(s.accepted) && s.out <= Concat(ps)
  }

  lemma CleanIff(m: Machine)
    requires MachineInv(m)
    ensures Clean(m.sock) <==> Seamless(m.sock.out)
  {
    var s := m.sock;
    if ps :| multiset(ps) <= multiset(s.accepted) && s.out <= Concat(ps) {
      ConcatSeamless(ps);
      PrefixSeamless(s.out, Concat(ps));
    }
    if Seamless(s.out) {
      if s.kind != Invalid && m.server != Closing { StreamingCut(s); }
      assert Cut(s);
    }
  }

  /** Only the socket thread's sending and direct writes put bytes on the wire. */
  lemma StillSeamed(m: Machine, a: Action)
    requires MachineInv(m) && !Seamless(m.sock.out)
    ensures !Seamless(Step(m, a).sock.out)
  {
    StageSeamless(m);
    match a {
      case Go(i, w) => if i < |m.senders| { SenderSeamed(m, i, w); }
      case Serve(ks) => ServerSeamed(m, ks);
      case _ =>
    }
  }

  lemma SenderSeamed(m: Machine, i: nat, w: Written)
    requires i < |m.senders| && !Seamless(m.sock.out)
    ensures !Seamless(StepSender(m, i, w).sock.out)
  {
    if m.senders[i].Going? {
      var b := Buffer(Package(Direct, m.senders[i].bytes), 0);
      StaysSeamed(m.sock.out, Chunk(b, if w.Wrote? then Taken(b, w.n) else 0));
    }
  }

  lemma ServerSeamed(m: Machine, ks: seq<Written>)
    requires !Seamless(m.sock.out) && StageOk(m.sock, m.server) && (m.sock.kind == Invalid || m.server == Closing)
    ensures !Seamless(StepServer(m, ks).sock.out)
  {
    if m.server == Idle && m.pipe != [] && m.pipe[0].Send? { SendSocketOut(m.sock, m.pipe[0].bytes, m.pipe[0].low); }
  }

  /** Outside `force_close`, an open socket is in order. */
  lemma StageSeamless(m: Machine)
    requires MachineInv(m)
    ensures m.sock.kind != Invalid && m.server != Closing ==> Seamless(m.sock.out)
  {
    if m.sock.kind != Invalid && m.server != Closing { GoodSeamless(m.sock); }
  }

  lemma SeamlessStep(m: Machine, a: Action)
    requires MachineInv(m) && Seamless(m.sock.out)
    ensures Seamless(Step(m, a).sock.out) <==> !Tears(m, a)
  {
    var m' := Step(m, a);
    if a.Go? && a.i < |m.senders| && m.senders[a.i].Going? {
      StepKeeps(m, a);
      assert SenderOk(m.sock, m.senders[a.i]);
      DirectStage(m.sock, m.server, m.senders[a.i].bytes, a.w);
      StageSeamless(m');
    } else {
      SameOut(m, a);
    }
  }

  lemma SendSocketOut(s: Sock, bytes: seq<Byte>, low: bool)
    ensures SendSocket(s, bytes, low).0.out == s.out
  {
  }

  /** `send_buffer` leaves the stream in order, even if it closes the socket. */
  lemma SendBufferSeamless(s: Sock, ks: seq<Written>)
    requires s.kind != Invalid && Good(s)
    ensures Seamless(SendBuffer(s, ks).0.out)
  {
    SendBufferGood(s, ks);
    GoodSeamless(SendBuffer(s, ks).0);
  }

  lemma ServerOut(m: Machine, ks: seq<Written>)
    requires MachineInv(m) && Seamless(m.sock.out)
    ensures Seamless(StepServer(m, ks).sock.out)
  {
    if m.server.Trying? {
      SendBufferSeamless(m.sock, ks);
    } else {
      ServerSame(m, ks);
    }
  }

  lemma ServerSame(m: Machine, ks: seq<Written>)
    requires !m.server.Trying?
    ensures StepServer(m, ks).sock.out == m.sock.out
  {
    if m.server == Idle && m.pipe != [] && m.pipe[0].Send? { SendSocketOut(m.sock, m.pipe[0].bytes, m.pipe[0].low); }
  }

  lemma WritableOut(m: Machine, ks: seq<Written>)
    requires MachineInv(m) && Seamless(m.sock.out)
    ensures Seamless(StepWritable(m, ks).sock.out)
  {
    if m.server == Idle && m.sock.kind != Invalid { SendBufferSeamless(m.sock, ks); }
  }

  lemma SenderOut(m: Machine, i: nat, w: Written)
    requires i < |m.senders| && !m.senders[i].Going?
    ensures StepSender(m, i, w).sock == m.sock
  {
  }

  lemma OtherOut(m: Machine, a: Action)
    requires !a.Serve? && !a.Writable? && !a.Go?
    ensures Step(m, a).sock.out == m.sock.out
  {
  }

  /** No other step puts a byte out of place. */
  lemma SameOut(m: Machine, a: Action)
    requires MachineInv(m) && Seamless(m.sock.out)
    requires !(a.Go? && a.i < |m.senders| && m.senders[a.i].Going?)
    ensures Seamless(Step(m, a).sock.out)
  {
    match a {
      case Serve(ks) => ServerOut(m, ks);
      case Writable(ks) => WritableOut(m, ks);
      case Go(i, w) => if i < |m.senders| { SenderOut(m, i, w); }
      case _ => OtherOut(m, a);
    }
  }

  /** The `k`-th step of a run tears the stream. */
  ghost predicate TearsAt(m: Machine, acts: seq<Action>, k: nat)
    requires k < |acts|
  {
    Tears(Exec(m, acts[..k]), acts[k])
  }

  /** In every run, what has been written is a prefix of whole packages exactly if no thread has written
      a byte after `force_close` freed a part-sent package. */
  lemma {:induction false} StreamExact(m: Machine, acts: seq<Action>)
    requires Opened(m)
    ensures Clean(Exec(m, acts).sock) <==> forall k :: 0 <= k < |acts| ==> !TearsAt(m, acts, k)
  {
    Always(m, acts);
    CleanIff(Exec(m, acts));
    SeamlessExact(m, acts);
  }

  lemma {:induction false} SeamlessExact(m: Machine, acts: seq<Action>)
    requires Opened(m)
    ensures Seamless(Exec(m, acts).sock.out) <==> forall k :: 0 <= k < |acts| ==> !TearsAt(m, acts, k)
  {
    assert acts[..|acts|] == acts && acts[..0] == [];
    var ok := (k: nat) => k <= |acts| && Seamless(Exec(m, acts[..k]).sock.out);
    var tears := (k: nat) => k < |acts| && TearsAt(m, acts, k);
    forall k: nat | k < |acts| ensures ok(k + 1) <==> ok(k) && !tears(k) { SeamlessNext(m, acts, k); }
    Chain(ok, tears, |acts|);
    assert forall k: nat :: k < |acts| ==> (tears(k) <==> TearsAt(m, acts, k));
  }

  /** What each step keeps, unless it does harm, holds in the end exactly if none did. */
  lemma {:induction false} Chain(ok: nat -> bool, harm: nat -> bool, n: nat)
    requires ok(0) && forall k: nat :: k < n ==> (ok(k + 1) <==> ok(k) && !harm(k))
    ensures ok(n) <==> forall k: nat :: k < n ==> !harm(k)
  {
    if n > 0 {
      Chain(ok, harm, n - 1);
      assert ok(n) <==> ok(n - 1) && !harm(n - 1);
    }
  }

  lemma {:induction false} SeamlessNext(m: Machine, acts: seq<Action>, n: nat)
    requires Opened(m) && n < |acts|
    ensures Seamless(Exec(m, acts[..n + 1]).sock.out) <==> Seamless(Exec(m, acts[..n]).sock.out) && !TearsAt(m, acts, n)
  {
    Always(m, acts[..n]);
    assert acts[..n + 1] == acts[..n] + [acts[n]];
    ExecLast(m, acts[..n], acts[n]);
    if Seamless(Exec(m, acts[..n]).sock.out) {
      SeamlessStep(Exec(m, acts[..n]), acts[n]);
    } else {
      StillSeamed(Exec(m, acts[..n]), acts[n]);
    }
  }

  // ---------- a stream that is torn ----------

  const A := Package(High, [1, 2])
  const B := Package(Direct, [3])

  function SockAt(high: seq<Buffer>, wbSize: int, watching: bool, out: seq<Octet>, started: seq<Package>, accepted: seq<Package>): Sock {
    Sock(high, [], [], wbSize, Connected, watching, 0, out, started, accepted)
  }

  /** Thread 1 passes the first check; thread 0 sends A through the pipe; one byte of A is written;
      thread 1 takes the lock; the socket is shut down; thread 1 writes B. */
  function Torn(k: nat): Machine {
    var empty, appended := SockAt([], 0, false, [], [], []), SockAt([Buffer(A, 0)], 2, true, [], [], [A]);
    var part, freed := SockAt([Buffer(A, 1)], 1, true, [Octet(A, 0)], [A], [A]), SockAt([], 1, true, [Octet(A, 0)], [A], [A]);
    if k == 0 then Machine(empty, 0, [], [Away, Away], Idle)
    else if k == 1 then Machine(empty, 0, [], [Away, Eager([3])], Idle)
    else if k == 2 then Machine(empty, 0, [], [Late([1, 2], true), Eager([3])], Idle)
    else if k == 3 then Machine(empty, 1, [], [Entering([1, 2], true), Eager([3])], Idle)
    else if k == 4 then Machine(empty, 1, [Send([1, 2], true)], [Away, Eager([3])], Idle)
    else if k == 5 then Machine(appended, 1, [], [Away, Eager([3])], Answered)
    else if k == 6 then Machine(appended, 0, [], [Away, Eager([3])], Idle)
    else if k == 7 then Machine(part, 0, [], [Away, Eager([3])], Idle)
    else if k == 8 then Machine(part, 0, [], [Away, Checking([3])], Idle)
    else if k == 9 then Machine(part, 0, [Close(true)], [Away, Checking([3])], Idle)
    else if k == 10 then Machine(part, 0, [], [Away, Checking([3])], Trying(true))
    else if k == 11 then Machine(part, 0, [], [Away, Checking([3])], Deciding(true))
    else if k == 12 then Machine(freed, 0, [], [Away, Checking([3])], Closing)
    else if k == 13 then Machine(freed, 0, [], [Away, Seen([3])], Closing)
    else if k == 14 then Machine(freed, 0, [], [Away, Quiet([3])], Closing)
    else if k == 15 then Machine(freed, 0, [], [Away, Going([3])], Closing)
    else Machine(SockAt([], 1, true, [Octet(A, 0), Octet(B, 0)], [A, B], [A, B]), 0, [], [Away, Away], Closing)
  }

  function TornAction(k: nat): Action {
    if k == 0 then Call(1, [3], false)
    else if k == 1 then Call(0, [1, 2], true)
    else if k == 2 || k == 3 then Go(0, Again)
    else if k == 6 then Writable([Wrote(1)])
    else if k == 8 then RequestClose(true)
    else if k == 7 || k >= 12 then Go(1, Wrote(1))
    else Serve([])
  }

  lemma TornSend(k: nat)
    requires k <= 5
    ensures Step(Torn(k), TornAction(k)) == Torn(k + 1)
  {
  }

  lemma TornWrite(k: nat)
    requires k == 6
    ensures Step(Torn(k), TornAction(k)) == Torn(k + 1)
  {
    TornSent(Torn(k).sock);
  }

  /** One byte of A is taken from the high list. */
  lemma TornSent(s: Sock)
    requires s == SockAt([Buffer(A, 0)], 2, true, [], [], [A])
    ensures SendBuffer(s, [Wrote(1)]).0 == SockAt([Buffer(A, 1)], 1, true, [Octet(A, 0)], [A], [A])
  {
    assert s.dw + s.high == s.high && Merged(s) == s;
    TornChunk(s.high);
    var r := SendAll(s.high, [Wrote(1)]);
    assert s.out + r.bytes == [Octet(A, 0)] && s.started + r.begun == [A];
  }

  lemma TornChunk(q: seq<Buffer>)
    requires q == [Buffer(A, 0)]
    ensures SendAll(q, [Wrote(1)]) == Sent([Buffer(A, 1)], [Octet(A, 0)], [A], [], false)
  {
    assert Rest(q, 1) == [Buffer(A, 1)];
    assert Chunk(q[0], 1) == [Octet(A, 0)];
  }

  lemma TornClose(k: nat)
    requires 7 <= k <= 11
    ensures Step(Torn(k), TornAction(k)) == Torn(k + 1)
  {
    assert Locks(Torn(10).senders[1]);
  }

  lemma TornDirect(k: nat)
    requires 12 <= k <= 15
    ensures Step(Torn(k), TornAction(k)) == Torn(k + 1)
  {
  }

  function TornActions(k: nat): seq<Action> {
    if k == 0 then [] else TornActions(k - 1) + [TornAction(k - 1)]
  }

  lemma ExecLast(m: Machine, acts: seq<Action>, a: Action)
    ensures Exec(m, acts + [a]) == Step(Exec(m, acts), a)
  {
    assert (acts + [a])[..|acts|] == acts;
  }

  lemma {:induction false} TornRun(k: nat)
    requires k <= 16
    ensures Exec(Torn(0), TornActions(k)) == Torn(k)
  {
    if k > 0 {
      TornRun(k - 1);
      ExecLast(Torn(0), TornActions(k - 1), TornAction(k - 1));
      TornStep(k - 1);
    }
  }

  lemma TornStep(k: nat)
    requires k <= 15
    ensures Step(Torn(k), TornAction(k)) == Torn(k + 1)
  {
    if k <= 5 { TornSend(k); } else if k == 6 { TornWrite(k); } else if k <= 11 { TornClose(k); } else { TornDirect(k); }
  }

  /** The bytes written are not a prefix of those of any sequence of the accepted packages. */
  ghost predicate Corrupt(s: Sock) {
    forall ps :: multiset(ps) <= multiset(s.accepted) ==> !(Bytes(s.out) <= Bytes(Concat(ps)))
  }

  lemma {:induction false} ConcatFirst(ps: seq<Package>)
    requires ps != []
    ensures ps[0].bytes <= Bytes(Concat(ps))
  {
    if |ps| > 1 {
      ConcatFirst(ps[..|ps| - 1]);
      PrefixBytes(Concat(ps[..|ps| - 1]), Concat(ps));
    } else {
      assert Concat(ps) == [] + Wire(ps[0]);
    }
  }

  lemma NotBegun(ps: seq<Package>)
    requires ps == [] || ps[0] in [A, B]
    ensures !([1, 3] <= Bytes(Concat(ps)))
  {
    if ps != [] {
      ConcatFirst(ps);
      assert ps[0] == A ==> Bytes(Concat(ps))[1] == A.bytes[1] == 2;
      assert ps[0] == B ==> Bytes(Concat(ps))[0] == B.bytes[0] == 3;
    }
  }

  lemma TornEnd(k: nat)
    requires k == 16
    ensures Opened(Torn(0)) && Corrupt(Torn(k).sock)
  {
    var s := Torn(k).sock;
    assert Bytes(s.out) == [1, 3];
    forall ps | multiset(ps) <= multiset(s.accepted) ensures !(Bytes(s.out) <= Bytes(Concat(ps))) {
      assert forall p :: p in multiset(ps) ==> p in multiset([A, B]);
      assert forall p :: p in multiset([A, B]) ==> p in [A, B];
      assert ps != [] ==> ps[0] in multiset(ps);
      NotBegun(ps);
    }
  }

  /** The stream can be torn: a shutdown that finds a package part-sent lets a thread that holds
      the lock append the bytes of another. */
  lemma TornStream()
    ensures exists m, acts :: Opened(m) && Corrupt(Exec(m, acts).sock)
  {
    TornStreamAfter(16);
  }

  lemma TornStreamAfter(k: nat)
    requires k == 16
    ensures exists m, acts :: Opened(m) && Corrupt(Exec(m, acts).sock)
  {
    TornRun(k);
    TornEnd(k);
  }
}
