/** When closing a socket may mix up packages: the exact condition on the state in which `force_close`
    begins. */
module SocketClosing {
  import opened SocketStream
  import opened SocketQueue
  import opened SocketProtocol

  /** A thread that can still put a byte on the wire: it is past its checks, or the checks will pass. */
  predicate CanWrite(x: Sender, sending: nat, kind: Kind) {
    match x
    case Going(bytes) => bytes != [] || (sending == 0 && kind == Connected)
    case Quiet(bytes) => kind == Connected && (bytes != [] || sending == 0)
    case Late(_, _) => false
    case Entering(_, _) => false
    case _ => sending == 0 && kind == Connected
  }

  ghost predicate SomeoneCanWrite(m: Machine) {
    exists i :: 0 <= i < |m.senders| && CanWrite(m.senders[i], m.sending, m.sock.kind)
  }

  /** `force_close` waits for the lock, a part-sent package is lost, and a thread can still write. */
  ghost predicate Risky(m: Machine) {
    m.server == Closing && m.sock.kind != Invalid && m.sock.dw == [] && Unfinished(m.sock.out) && SomeoneCanWrite(m)
  }

  // ---------- without the risk the stream stays in order ----------

  ghost predicate Harmless(m: Machine) {
    && MachineInv(m) && Seamless(m.sock.out) && (m.sock.kind == Invalid || m.server == Closing)
    && !Risky(m)
  }

  lemma HarmlessNoTear(m: Machine, a: Action)
    requires Harmless(m)
    ensures !Tears(m, a)
  {
    if Tears(m, a) {
      assert SenderOk(m.sock, m.senders[a.i]);
      assert CanWrite(m.senders[a.i], m.sending, m.sock.kind);
    }
  }

  /** While `force_close` waits for the lock, the socket thread can only finish it; once the socket is closed,
      nothing opens it again. */
  lemma ServerCloses(m: Machine, ks: seq<Written>)
    requires Harmless(m)
    ensures var m' := StepServer(m, ks); m'.sock.kind == Invalid || m' == m
  {
  }

  lemma GoingKind(m: Machine, i: nat, w: Written)
    requires i < |m.senders|
    ensures StepSender(m, i, w).sock.kind == m.sock.kind
  {
  }

  lemma ConnectIgnored(m: Machine, ok: bool)
    requires m.sock.kind == Invalid || m.server == Closing
    ensures StepConnect(m, ok) == m
  {
  }

  lemma StillClosing(m: Machine, a: Action)
    requires Harmless(m)
    ensures Step(m, a).sock.kind == Invalid || (Step(m, a).server == Closing && Step(m, a).sock.kind == m.sock.kind)
    ensures !a.Go? && !a.Call? && Step(m, a).sock.kind != Invalid ==>
      Step(m, a).sock == m.sock && Step(m, a).senders == m.senders && Step(m, a).sending == m.sending
  {
    match a {
      case Serve(ks) => ServerCloses(m, ks);
      case Go(i, w) => if i < |m.senders| { SenderServer(m, i, w); GoingKind(m, i, w); }
      case Writable(ks) => assert StepWritable(m, ks) == m;
      case Connect(ok) => ConnectIgnored(m, ok);
      case _ =>
    }
  }

  /** A thread's own step does not make it able to write. */
  lemma StepNoWriter(m: Machine, i: nat, w: Written)
    requires MachineInv(m) && i < |m.senders| && StepSender(m, i, w).sock.dw == []
    requires var m' := StepSender(m, i, w); CanWrite(m'.senders[i], m'.sending, m'.sock.kind)
    ensures CanWrite(m.senders[i], m.sending, m.sock.kind)
  {
    if m.senders[i].Entering? { CountSet(m.senders, i, Away); }
  }

  /** Nor does it enable another. */
  lemma StepNoOther(m: Machine, i: nat, w: Written, j: nat)
    requires i < |m.senders| && j < |m.senders| && i != j
    requires var m' := StepSender(m, i, w); CanWrite(m'.senders[j], m'.sending, m'.sock.kind)
    ensures CanWrite(m.senders[j], m.sending, m.sock.kind)
  {
  }

  /** Nobody comes to be able to write who was not. */
  lemma NoNewWriter(m: Machine, a: Action, i: nat)
    requires Harmless(m) && Step(m, a).sock.kind != Invalid && Step(m, a).sock.dw == []
    requires i < |Step(m, a).senders| && CanWrite(Step(m, a).senders[i], Step(m, a).sending, Step(m, a).sock.kind)
    ensures |Step(m, a).senders| == |m.senders| && CanWrite(m.senders[i], m.sending, m.sock.kind)
  {
    StillClosing(m, a);
    if a.Go? && a.i < |m.senders| {
      if a.i == i { StepNoWriter(m, i, a.w); } else { StepNoOther(m, a.i, a.w, i); }
    }
  }

  /** The direct-write buffer stays. */
  lemma BufferStays(m: Machine, a: Action)
    requires Harmless(m) && Step(m, a).sock.kind != Invalid && Step(m, a).sock.dw == []
    ensures m.sock.dw == []
  {
    StillClosing(m, a);
    if a.Go? && a.i < |m.senders| && m.senders[a.i].Going? { assert SenderOk(m.sock, m.senders[a.i]); }
  }

  /** A direct write that leaves nothing in the buffer ends with a package, unless it does nothing. */
  lemma DirectEnds(s: Sock, bytes: seq<Byte>, w: Written)
    requires StageOk(s, Closing) && s.kind != Invalid && SenderOk(s, Going(bytes)) && Seamless(s.out)
    requires DirectWrite(s, bytes, w).dw == [] && Unfinished(DirectWrite(s, bytes, w).out)
    ensures Unfinished(s.out)
  {
    if !Unfinished(s.out) {
      DirectEbbing(s, bytes, w);
      EbbingEnds(DirectWrite(s, bytes, w));
    }
  }

  lemma SenderSock(m: Machine, i: nat, w: Written)
    requires i < |m.senders|
    ensures StepSender(m, i, w).sock ==
      if m.senders[i].Going? then DirectWrite(m.sock, m.senders[i].bytes, w) else m.sock
  {
  }

  /** A direct write that does not tear leaves an unfinished stream as it is. */
  lemma OutKept(m: Machine, a: Action)
    requires Harmless(m) && Step(m, a).server == Closing && Step(m, a).sock.kind != Invalid
    requires Step(m, a).sock.dw == [] && Unfinished(Step(m, a).sock.out)
    ensures Unfinished(m.sock.out)
  {
    StillClosing(m, a);
    if a.Go? && a.i < |m.senders| {
      SenderSock(m, a.i, a.w);
      SenderServer(m, a.i, a.w);
      if m.senders[a.i].Going? {
        assert SenderOk(m.sock, m.senders[a.i]) && m.senders[a.i] == Going(m.senders[a.i].bytes);
        DirectEnds(m.sock, m.senders[a.i].bytes, a.w);
      }
    }
  }

  lemma HarmlessStep(m: Machine, a: Action)
    requires Harmless(m)
    ensures Harmless(Step(m, a))
  {
    var m' := Step(m, a);
    StepKeeps(m, a);
    HarmlessNoTear(m, a);
    SeamlessStep(m, a);
    StillClosing(m, a);
    if Risky(m') {
      var i :| 0 <= i < |m'.senders| && CanWrite(m'.senders[i], m'.sending, m'.sock.kind);
      OutKept(m, a);
      NoNewWriter(m, a, i);
      BufferStays(m, a);
    }
  }

  lemma {:induction false} HarmlessRun(m: Machine, acts: seq<Action>)
    requires Harmless(m)
    ensures Harmless(Exec(m, acts))
    decreases |acts|
  {
    if acts != [] {
      HarmlessRun(m, acts[..|acts| - 1]);
      HarmlessStep(Exec(m, acts[..|acts| - 1]), acts[|acts| - 1]);
    }
  }

  // ---------- with the risk it may be torn ----------

  ghost predicate CanTear(m: Machine) {
    exists acts :: !Seamless(Exec(m, acts).sock.out)
  }

  lemma {:induction false} ExecFirst(m: Machine, a: Action, acts: seq<Action>)
    ensures Exec(m, [a] + acts) == Exec(Step(m, a), acts)
    decreases |acts|
  {
    if acts == [] {
      assert [a] + acts == [] + [a];
      ExecLast(m, [], a);
    } else {
      var n := |acts| - 1;
      ExecFirst(m, a, acts[..n]);
      assert [a] + acts == [a] + acts[..n] + [acts[n]];
      ExecLast(m, [a] + acts[..n], acts[n]);
      assert acts == acts[..n] + [acts[n]];
      ExecLast(Step(m, a), acts[..n], acts[n]);
    }
  }

  lemma StepCanTear(m: Machine, a: Action)
    requires CanTear(Step(m, a))
    ensures CanTear(m)
  {
    var acts :| !Seamless(Exec(Step(m, a), acts).sock.out);
    ExecFirst(m, a, acts);
  }

  /** How far a thread is from its write; one with an empty package first has to finish that one. */
  function Distance(x: Sender): nat {
    match x
    case Going(bytes) => if bytes != [] then 0 else 6
    case Quiet(bytes) => if bytes != [] then 1 else 7
    case Seen(bytes) => if bytes != [] then 2 else 8
    case Checking(bytes) => if bytes != [] then 3 else 9
    case Eager(bytes) => if bytes != [] then 4 else 10
    case _ => 5
  }

  /** The socket thread waits in a place where both lists are empty, and thread `i` can go on: it has the lock,
      or the lock is free. */
  ghost predicate OnItsWay(m: Machine, i: nat) {
    && MachineInv(m) && m.server in {Closing, Calming} && m.sock.kind != Invalid && m.sock.dw == []
    && i < |m.senders| && CanWrite(m.senders[i], m.sending, m.sock.kind) && (Locks(m.senders[i]) || LockFree(m))
  }

  /** The next step of thread `i` towards its write. */
  function Onwards(m: Machine, i: nat): Action
    requires i < |m.senders|
  {
    match m.senders[i]
    case Away => Call(i, [0], false)
    case Going(bytes) => if bytes != [] then Go(i, Wrote(1)) else Go(i, Again)
    case _ => Go(i, Again)
  }

  lemma OnwardsKeeps(m: Machine, i: nat)
    requires OnItsWay(m, i) && Distance(m.senders[i]) > 0
    ensures OnItsWay(Step(m, Onwards(m, i)), i)
    ensures Distance(Step(m, Onwards(m, i)).senders[i]) < Distance(m.senders[i])
    ensures Step(m, Onwards(m, i)).sock.out == m.sock.out && Step(m, Onwards(m, i)).server == m.server
  {
    StepKeeps(m, Onwards(m, i));
    match m.senders[i] {
      case Away => CallOnwards(m, i);
      case Going(_) => GoingOnwards(m, i);
      case _ => CheckOnwards(m, i);
    }
  }

  lemma CallOnwards(m: Machine, i: nat)
    requires OnItsWay(m, i) && m.senders[i] == Away
    ensures Step(m, Onwards(m, i)) == Become(m, i, Eager([0]))
    ensures LockFree(Become(m, i, Eager([0])))
  {
  }

  lemma GoingOnwards(m: Machine, i: nat)
    requires OnItsWay(m, i) && m.senders[i] == Going([])
    ensures var m' := Step(m, Onwards(m, i));
      m'.senders[i] == Away && LockFree(m') && m' == Become(m, i, Away).(sock := m'.sock)
      && m'.sock.out == m.sock.out && m'.sock.kind == m.sock.kind && m'.sock.dw == []
  {
    FinishedFree(m, i);
    assert m.sock.out + [] == m.sock.out;
  }

  lemma CheckOnwards(m: Machine, i: nat)
    requires OnItsWay(m, i) && !m.senders[i].Away? && !m.senders[i].Going?
    ensures var m' := Step(m, Onwards(m, i));
      m' == Become(m, i, m'.senders[i]) && Locks(m'.senders[i])
      && CanWrite(m'.senders[i], m.sending, m.sock.kind) && Distance(m'.senders[i]) < Distance(m.senders[i])
  {
  }

  /** The holder of the lock leaves it free. */
  lemma FinishedFree(m: Machine, i: nat)
    requires MachineInv(m) && i < |m.senders| && Locks(m.senders[i])
    ensures LockFree(Become(m, i, Away))
  {
  }

  /** It comes to its write, and nothing is written on the way. */
  lemma {:induction false} Arrives(m: Machine, i: nat) returns (acts: seq<Action>)
    requires OnItsWay(m, i)
    ensures var m' := Exec(m, acts);
      OnItsWay(m', i) && Distance(m'.senders[i]) == 0 && m'.sock.out == m.sock.out && m'.server == m.server
    decreases Distance(m.senders[i])
  {
    acts := [];
    if Distance(m.senders[i]) > 0 {
      OnwardsKeeps(m, i);
      var rest := Arrives(Step(m, Onwards(m, i)), i);
      ExecFirst(m, Onwards(m, i), rest);
      acts := [Onwards(m, i)] + rest;
    }
  }

  lemma WritesInTheEnd(m: Machine, i: nat)
    requires OnItsWay(m, i) && m.server == Closing && Unfinished(m.sock.out)
    ensures CanTear(m)
  {
    var acts := Arrives(m, i);
    var m' := Exec(m, acts);
    assert SenderOk(m'.sock, m'.senders[i]);
    var b := Package(Direct, m'.senders[i].bytes);
    BegunInside(m'.sock.out, b, 1, []);
    assert Step(m', Go(i, Wrote(1))).sock.out == m'.sock.out + Wire(b)[..1] + [];
    ExecLast(m, acts, Go(i, Wrote(1)));
  }

  /** If a thread holds the lock, and another could write after it, then so could the holder. */
  lemma RiskyTears(m: Machine)
    requires MachineInv(m) && Risky(m)
    ensures CanTear(m)
  {
    var i :| 0 <= i < |m.senders| && CanWrite(m.senders[i], m.sending, m.sock.kind);
    if Locks(m.senders[i]) || LockFree(m) {
      WritesInTheEnd(m, i);
    } else {
      var j :| 0 <= j < |m.senders| && Locks(m.senders[j]);
      WritesInTheEnd(m, j);
    }
  }

  // ---------- the guard ----------

  /** Where `force_close` begins: if a package is part-sent, and a thread can still write, what is written from
      then on may be torn; otherwise it never is, whatever the threads and the kernel do. */
  lemma CloseGuard(m: Machine, acts: seq<Action>, a: Action)
    requires Opened(m)
    requires var n := Exec(m, acts); n.server != Closing && Step(n, a).server == Closing
    ensures var n := Exec(m, acts);
      (forall more :: Clean(Exec(Step(n, a), more).sock)) <==> !(PartSent(n.sock) && SomeoneCanWrite(n))
  {
    var n := Exec(m, acts);
    Always(m, acts);
    GuardFrom(n, a);
  }

  lemma GuardFrom(n: Machine, a: Action)
    requires MachineInv(n) && n.server != Closing && Step(n, a).server == Closing
    ensures (forall more :: Clean(Exec(Step(n, a), more).sock)) <==> !(PartSent(n.sock) && SomeoneCanWrite(n))
  {
    CloseStep(n, a);
    StepKeeps(n, a);
    if Risky(Step(n, a)) { RiskyUnclean(Step(n, a)); } else { HarmlessClean(Step(n, a)); }
  }

  lemma RiskyUnclean(c: Machine)
    requires MachineInv(c) && Risky(c)
    ensures exists more :: !Clean(Exec(c, more).sock)
  {
    RiskyTears(c);
    var more :| !Seamless(Exec(c, more).sock.out);
    KeepsOn(c, more);
    CleanIff(Exec(c, more));
  }

  lemma HarmlessClean(c: Machine)
    requires Harmless(c)
    ensures forall more :: Clean(Exec(c, more).sock)
  {
    forall more ensures Clean(Exec(c, more).sock) {
      HarmlessRun(c, more);
      CleanIff(Exec(c, more));
    }
  }

  lemma {:induction false} KeepsOn(m: Machine, acts: seq<Action>)
    requires MachineInv(m)
    ensures MachineInv(Exec(m, acts))
    decreases |acts|
  {
    if acts != [] {
      KeepsOn(m, acts[..|acts| - 1]);
      StepKeeps(Exec(m, acts[..|acts| - 1]), acts[|acts| - 1]);
    }
  }

  /** The step that begins `force_close` frees the lists and leaves everything else that matters. */
  lemma CloseStep(n: Machine, a: Action)
    requires MachineInv(n) && n.server != Closing && Step(n, a).server == Closing
    ensures var c := Step(n, a);
      && c.sock.kind != Invalid && Seamless(c.sock.out)
      && (Risky(c) <==> PartSent(n.sock) && SomeoneCanWrite(n))
  {
    var c := Step(n, a);
    CloseBegins(n, a);
    BeginCloseStage(n.sock);
    assert SomeoneCanWrite(c) <==> SomeoneCanWrite(n);
  }

  lemma CloseBegins(n: Machine, a: Action)
    requires MachineInv(n) && n.server != Closing && Step(n, a).server == Closing
    ensures n.sock.kind != Invalid && Good(n.sock) && Step(n, a) == BeginClose(n)
  {
    match a {
      case Serve(ks) => ServerBegins(n, ks);
      case Go(i, w) => if i < |n.senders| { SenderServer(n, i, w); }
      case Connect(ok) => ConnectBegins(n, ok);
      case _ =>
    }
  }

  lemma SenderServer(n: Machine, i: nat, w: Written)
    requires i < |n.senders|
    ensures StepSender(n, i, w).server == n.server
  {
  }

  lemma ConnectBegins(n: Machine, ok: bool)
    requires n.server != Closing && StepConnect(n, ok).server == Closing
    ensures n.sock.kind == Connecting && StepConnect(n, ok) == BeginClose(n)
  {
  }

  lemma ServerBegins(n: Machine, ks: seq<Written>)
    requires MachineInv(n) && n.server != Closing && StepServer(n, ks).server == Closing
    ensures n.sock.kind != Invalid && StepServer(n, ks) == BeginClose(n)
  {
    assert n.server.Deciding?;
  }
}
