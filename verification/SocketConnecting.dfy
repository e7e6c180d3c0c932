/** When queued bytes may be left without a write event: the end of a connection attempt. */
module SocketConnecting {
  import opened SocketStream
  import opened SocketQueue
  import opened SocketProtocol
  import opened SocketClosing

  /** `report_connect` turns the write event off although bytes have been queued since its test. */
  ghost predicate Loses(m: Machine, a: Action) {
    m.server == Calming && a.Serve? && Queued(m.sock) != []
  }

  // ---------- what keeps the write event on ----------

  lemma LeftOver(q: seq<Buffer>, ks: seq<Written>)
    ensures q == [] ==> SendAll(q, ks).left == []
  {
  }

  /** Only a socket with nothing left has its write event turned off. */
  lemma SendListsWaiting(s: Sock, ks: seq<Written>)
    requires s.dw == [] && Waiting(s)
    ensures Waiting(SendLists(s, ks).0)
  {
    LeftOver(s.high, ks);
    var r := SendAll(s.high, ks);
    if !r.broken && r.left == [] && s.low != [] { SendLowWaiting(Advance(s, r).(high := r.left), r.ks); }
  }

  lemma SendLowWaiting(s: Sock, ks: seq<Written>)
    requires s.dw == [] && s.high == [] && Waiting(s)
    ensures Waiting(SendLow(s, ks).0)
  {
    LeftOver(s.low, ks);
  }

  lemma SendBufferWaiting(s: Sock, ks: seq<Written>)
    requires Waiting(s)
    ensures Waiting(SendBuffer(s, ks).0)
  {
    assert Queued(Merged(s)) == Queued(s);
    SendListsWaiting(Merged(s), ks);
  }

  lemma SendSocketWaiting(s: Sock, bytes: seq<Byte>, low: bool)
    requires Waiting(s) && Dialing(s)
    ensures Waiting(SendSocket(s, bytes, low).0)
  {
    if Takes(s.kind) && !(Empty(s) && s.kind == Connected) && s.kind == Connected {
      assert Queued(s) != [];
    }
  }

  lemma DirectWaiting(s: Sock, bytes: seq<Byte>, w: Written)
    requires Waiting(s)
    ensures Waiting(DirectWrite(s, bytes, w))
  {
  }

  lemma ServerWaits(m: Machine, ks: seq<Written>)
    requires MachineInv(m) && Waiting(m.sock)
    ensures Waiting(StepServer(m, ks).sock) <==> !Loses(m, Serve(ks))
  {
    match m.server {
      case Trying(_) => SendBufferWaiting(m.sock, ks);
      case Idle => if m.pipe != [] && m.pipe[0].Send? { SendSocketWaiting(m.sock, m.pipe[0].bytes, m.pipe[0].low); }
      case Calming => assert Queued(StepServer(m, ks).sock) == Queued(m.sock);
      case _ =>
    }
  }

  /** Every other step of every thread leaves queued bytes with a write event. */
  lemma WaitsStep(m: Machine, a: Action)
    requires MachineInv(m) && Waiting(m.sock)
    ensures Waiting(Step(m, a).sock) <==> !Loses(m, a)
  {
    match a {
      case Serve(ks) => ServerWaits(m, ks);
      case Writable(ks) => SendBufferWaiting(m.sock, ks);
      case Go(i, w) =>
        if i < |m.senders| {
          SenderSock(m, i, w);
          if m.senders[i].Going? { DirectWaiting(m.sock, m.senders[i].bytes, w); }
        }
      case _ =>
    }
  }

  ghost predicate LosesAt(m: Machine, acts: seq<Action>, k: nat)
    requires k < |acts|
  {
    Loses(Exec(m, acts[..k]), acts[k])
  }

  /** In every run, queued bytes have had a write event all along exactly if the end of a connection attempt has
      never turned it off over them. */
  lemma {:induction false} WaitsExact(m: Machine, acts: seq<Action>)
    requires Opened(m)
    ensures (forall k :: 0 <= k <= |acts| ==> Waiting(Exec(m, acts[..k]).sock))
      <==> (forall k :: 0 <= k < |acts| ==> !LosesAt(m, acts, k))
  {
    if forall k :: 0 <= k < |acts| ==> !LosesAt(m, acts, k) {
      forall k | 0 <= k <= |acts| ensures Waiting(Exec(m, acts[..k]).sock) { WaitsUpTo(m, acts, k); }
    } else {
      var k :| 0 <= k < |acts| && LosesAt(m, acts, k);
      if Waiting(Exec(m, acts[..k]).sock) { WaitsNext(m, acts, k); }
    }
  }

  lemma {:induction false} WaitsUpTo(m: Machine, acts: seq<Action>, k: nat)
    requires Opened(m) && k <= |acts| && forall j :: 0 <= j < k ==> !LosesAt(m, acts, j)
    ensures Waiting(Exec(m, acts[..k]).sock)
  {
    if k > 0 {
      WaitsUpTo(m, acts, k - 1);
      WaitsNext(m, acts, k - 1);
    }
  }

  lemma {:induction false} WaitsNext(m: Machine, acts: seq<Action>, k: nat)
    requires Opened(m) && k < |acts| && Waiting(Exec(m, acts[..k]).sock)
    ensures Waiting(Exec(m, acts[..k + 1]).sock) <==> !LosesAt(m, acts, k)
  {
    Always(m, acts[..k]);
    assert acts[..k + 1] == acts[..k] + [acts[k]];
    ExecLast(m, acts[..k], acts[k]);
    WaitsStep(Exec(m, acts[..k]), acts[k]);
  }

  // ---------- the test of `report_connect` ----------

  /** The connection is made, and until the write event is off nobody can queue anything. */
  ghost predicate Settled(m: Machine) {
    && MachineInv(m) && Waiting(m.sock) && m.sock.kind != Connecting && m.server != Testing
    && (m.server == Calming ==> m.sock.dw == [] && !SomeoneCanWrite(m))
  }

  /** No step begins a connection attempt. */
  lemma ServerConnected(m: Machine, ks: seq<Written>)
    requires m.sock.kind != Connecting && m.sock.kind != Invalid && m.server != Testing
    ensures var m' := StepServer(m, ks); m'.sock.kind != Connecting && !(m'.server in {Testing, Calming})
  {
    if m.server.Trying? { SendBufferEvent(m.sock, ks); }
  }

  lemma StaysConnected(m: Machine, a: Action)
    requires MachineInv(m) && m.sock.kind != Connecting && m.server != Testing
    ensures var m' := Step(m, a); m'.sock.kind != Connecting && m'.server != Testing
    ensures Step(m, a).server == Calming ==> m.server == Calming && !a.Serve?
  {
    match a {
      case Serve(ks) => if m.sock.kind != Invalid { ServerConnected(m, ks); }
      case Go(i, w) => if i < |m.senders| { SenderServer(m, i, w); GoingKind(m, i, w); }
      case Writable(ks) => if m.sock.kind != Invalid { SendBufferEvent(m.sock, ks); }
      case _ =>
    }
  }

  /** A thread that cannot write leaves the direct-write buffer as it is. */
  lemma NothingQueued(m: Machine, i: nat, w: Written)
    requires i < |m.senders| && !CanWrite(m.senders[i], m.sending, m.sock.kind) && m.sock.dw == []
    ensures StepSender(m, i, w).sock.dw == []
  {
  }

  lemma CalmingStep(m: Machine, a: Action)
    requires Settled(m) && m.server == Calming && !a.Serve?
    ensures Step(m, a).sock.dw == [] && !SomeoneCanWrite(Step(m, a))
  {
    var m' := Step(m, a);
    if a.Go? && a.i < |m.senders| { NothingQueued(m, a.i, a.w); }
    forall i | 0 <= i < |m'.senders| ensures !CanWrite(m'.senders[i], m'.sending, m'.sock.kind) {
      CalmingThread(m, a, i);
    }
  }

  lemma CalmingThread(m: Machine, a: Action, i: nat)
    requires Settled(m) && m.server == Calming && !a.Serve? && i < |Step(m, a).senders| && Step(m, a).sock.dw == []
    ensures var m' := Step(m, a); !CanWrite(m'.senders[i], m'.sending, m'.sock.kind)
  {
    var m' := Step(m, a);
    match a {
      case Go(k, w) =>
        if k < |m.senders| { GoThread(m, k, w, i); }
      case Call(_, _, _) => assert i < |m.senders| && !CanWrite(m.senders[i], m.sending, m.sock.kind);
      case _ => CalmingOthers(m, a);
    }
  }

  lemma GoThread(m: Machine, k: nat, w: Written, i: nat)
    requires MachineInv(m) && !SomeoneCanWrite(m) && k < |m.senders| && StepSender(m, k, w).sock.dw == []
    requires i < |StepSender(m, k, w).senders|
    ensures var m' := StepSender(m, k, w); !CanWrite(m'.senders[i], m'.sending, m'.sock.kind)
  {
    var m' := StepSender(m, k, w);
    assert i < |m.senders| && !CanWrite(m.senders[i], m.sending, m.sock.kind);
    if CanWrite(m'.senders[i], m'.sending, m'.sock.kind) {
      if k == i { StepNoWriter(m, i, w); } else { StepNoOther(m, k, w, i); }
    }
  }

  lemma CalmingOthers(m: Machine, a: Action)
    requires m.server == Calming && !a.Serve? && !a.Go? && !a.Call?
    ensures var m' := Step(m, a); m'.senders == m.senders && m'.sending == m.sending && m'.sock == m.sock
  {
  }

  lemma SettledStep(m: Machine, a: Action)
    requires Settled(m)
    ensures Settled(Step(m, a))
  {
    StepKeeps(m, a);
    StaysConnected(m, a);
    WaitsStep(m, a);
    if m.server == Calming {
      if a.Serve? { assert Queued(m.sock) == []; } else { CalmingStep(m, a); }
    }
  }

  lemma {:induction false} SettledRun(m: Machine, acts: seq<Action>)
    requires Settled(m)
    ensures Settled(Exec(m, acts))
    decreases |acts|
  {
    if acts != [] {
      SettledRun(m, acts[..|acts| - 1]);
      SettledStep(Exec(m, acts[..|acts| - 1]), acts[|acts| - 1]);
    }
  }

  /** A thread that comes to write queues its package just before the write event is turned off. */
  lemma LosesInTheEnd(m: Machine, i: nat)
    requires OnItsWay(m, i) && m.server == Calming
    ensures exists more :: !Waiting(Exec(m, more).sock)
  {
    var acts := Arrives(m, i);
    WritesThenOff(Exec(m, acts), i);
    ExecLast(m, acts, Go(i, Again));
    ExecLast(m, acts + [Go(i, Again)], Serve([]));
  }

  lemma WritesThenOff(m: Machine, i: nat)
    requires OnItsWay(m, i) && m.server == Calming && Distance(m.senders[i]) == 0
    ensures !Waiting(Step(Step(m, Go(i, Again)), Serve([])).sock)
  {
    var s := DirectWrite(m.sock, m.senders[i].bytes, Again);
    assert s.dw != [] && Queued(s)[0] == s.dw[0];
    SenderSock(m, i, Again);
    SenderServer(m, i, Again);
    OffWhileQueued(Step(m, Go(i, Again)));
  }

  lemma OffWhileQueued(m: Machine)
    requires m.server == Calming && Queued(m.sock) != []
    ensures !Waiting(Step(m, Serve([])).sock)
  {
    assert Queued(Step(m, Serve([])).sock) == Queued(m.sock);
  }

  /** When the test finds nothing queued, everyone can still write but those about to announce a package for the
      pipe. */
  lemma WhoCanWrite(m: Machine)
    requires MachineInv(m) && NoMore(m) && m.sock.kind == Connected
    ensures forall i :: 0 <= i < |m.senders| ==> (CanWrite(m.senders[i], m.sending, m.sock.kind) <==> !m.senders[i].Late?)
  {
    forall i | 0 <= i < |m.senders| ensures !m.senders[i].Entering? {
      CountSet(m.senders, i, Away);
    }
  }

  lemma SomeoneLoses(m: Machine, i: nat)
    requires MachineInv(m) && NoMore(m) && m.sock.kind == Connected && m.server == Calming
    requires i < |m.senders| && !m.senders[i].Late?
    ensures exists more :: !Waiting(Exec(m, more).sock)
  {
    WhoCanWrite(m);
    if Locks(m.senders[i]) || LockFree(m) {
      LosesInTheEnd(m, i);
    } else {
      var j :| 0 <= j < |m.senders| && Locks(m.senders[j]);
      LosesInTheEnd(m, j);
    }
  }

  /** Where `report_connect` has found nothing queued and is about to turn the write event off: from then on queued
      bytes always have a write event, whatever the threads and the kernel do, exactly if every thread is past its
      checks, on the way to the pipe. */
  lemma ConnectGuard(m: Machine, acts: seq<Action>)
    requires Opened(m) && Exec(m, acts).server == Testing && NoMore(Exec(m, acts))
    ensures var n := Exec(m, acts);
      (forall more :: Waiting(Exec(Step(n, Serve([])), more).sock)) <==> forall i :: 0 <= i < |n.senders| ==> n.senders[i].Late?
  {
    var n := Exec(m, acts);
    Always(m, acts);
    GuardAt(n);
  }

  lemma GuardAt(n: Machine)
    requires MachineInv(n) && n.server == Testing && NoMore(n)
    ensures (forall more :: Waiting(Exec(Step(n, Serve([])), more).sock)) <==> forall i :: 0 <= i < |n.senders| ==> n.senders[i].Late?
  {
    var c := Step(n, Serve([]));
    StepKeeps(n, Serve([]));
    WhoCanWrite(c);
    if forall i :: 0 <= i < |n.senders| ==> n.senders[i].Late? {
      assert Settled(c);
      forall more ensures Waiting(Exec(c, more).sock) { SettledRun(c, more); }
    } else {
      var i :| 0 <= i < |n.senders| && !n.senders[i].Late?;
      SomeoneLoses(c, i);
    }
  }

  // ---------- a write event that is lost ----------

  lemma Dialled(kind: Kind) returns (m: Machine)
    requires kind == Connecting
    ensures Opened(m) && NoMore(m) && m.sock.kind == Connecting && m.server == Idle && m.senders == [Away]
  {
    m := Machine(Sock([], [], [], 0, kind, true, 0, [], [], []), 0, [], [Away], Idle);
  }

  /** A thread that sends while `report_connect` is between its test and the call can leave bytes queued without a
      write event. */
  lemma LostEvent(kind: Kind)
    requires kind == Connecting
    ensures exists m, acts :: Opened(m) && !Waiting(Exec(m, acts).sock)
  {
    var m := Dialled(kind);
    OpenedInv(m);
    ConnectThenTest(m);
  }

  lemma ConnectThenTest(m: Machine)
    requires MachineInv(m) && NoMore(m) && m.sock.kind == Connecting && m.server == Idle && m.senders == [Away]
    ensures exists acts :: !Waiting(Exec(m, acts).sock)
  {
    var n := Step(m, Connect(true));
    StepKeeps(m, Connect(true));
    GuardAt(n);
    assert n.senders[0] == Away;
    var more :| !Waiting(Exec(Step(n, Serve([])), more).sock);
    ExecFirst(n, Serve([]), more);
    ExecFirst(m, Connect(true), [Serve([])] + more);
  }
}
