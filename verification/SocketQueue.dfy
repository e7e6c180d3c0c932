/** The write path of one TCP socket, socket_server.c, as functions on the state of the socket. */
module SocketQueue {
  import opened SocketStream

  const WARNING_SIZE := 1024 * 1024

  /** `SOCKET_TYPE_*` */
  datatype Kind = Invalid | Listening | Accepting | Connecting | Connected | HalfClose

  /** The write side of `struct socket`; `dw` is the direct-write buffer, if any; `watching` tells
      that the write event is on.  `out` is what the kernel has taken, byte by byte, `started` and `accepted` are
      the histories of packages begun and accepted. */
  datatype Sock = Sock(
    high: seq<Buffer>, low: seq<Buffer>, dw: seq<Buffer>, wbSize: int, kind: Kind, watching: bool, warnSize: int,
    out: seq<Octet>, started: seq<Package>, accepted: seq<Package>)

  datatype Event = Nothing | Closed | Warning(kb: int)

  /** Everything queued, in the order it may be written. */
  function Queued(s: Sock): seq<Buffer> { s.dw + s.high + s.low }

  /** `send_buffer_empty` */
  predicate Empty(s: Sock) { s.high == [] && s.low == [] }

  // ---------- operations ----------

  /** What `send_list_tcp` does to a list: what is left, the bytes written, the packages begun,
      the answers of the kernel not used, and whether the connection broke. */
  datatype Sent = Sent(left: seq<Buffer>, bytes: seq<Octet>, begun: seq<Package>, ks: seq<Written>, broken: bool)

  function SendAll(q: seq<Buffer>, ks: seq<Written>): Sent
    decreases |ks|
  {
    if q == [] || ks == [] then Sent(q, [], [], ks, false)
    else match ks[0]
      case Interrupted => SendAll(q, ks[1..])
      case Again => Sent(q, [], [], ks[1..], false)
      case Broken => Sent(q, [], [], ks[1..], true)
      case Wrote(n) =>
        var m := Taken(q[0], n);
        if m < Left(q[0]) then Sent(Rest(q, m), Chunk(q[0], m), Begins(q[0], m), ks[1..], false)
        else Then(Chunk(q[0], m), Begins(q[0], m), SendAll(q[1..], ks[1..]))
  }

  function Then(bytes: seq<Octet>, begun: seq<Package>, r: Sent): Sent {
    r.(bytes := bytes + r.bytes, begun := begun + r.begun)
  }

  function Advance(s: Sock, r: Sent): Sock {
    s.(out := s.out + r.bytes, started := s.started + r.begun, wbSize := s.wbSize - |r.bytes|)
  }

  function ForceClose(s: Sock): Sock { s.(high := [], low := [], dw := [], kind := Invalid) }

  /** Step 4 of `send_buffer_`: nothing is left. */
  function Drained(s: Sock): (Sock, Event) {
    var s1 := s.(watching := false);
    if s.kind == HalfClose then (ForceClose(s1), Closed)
    else if s.warnSize > 0 then (s1.(warnSize := 0), Warning(0))
    else (s1, Nothing)
  }

  /** Steps 2 to 4 of `send_buffer_`: the high list is empty. */
  function SendLow(s: Sock, ks: seq<Written>): (Sock, Event) {
    var r := SendAll(s.low, ks);
    var s1 := Advance(s, r).(low := r.left);
    if r.broken then (ForceClose(s1), Closed)
    else if Uncomplete(r.left) then (s1.(high := [r.left[0]], low := r.left[1..]), Nothing)
    else if r.left != [] then (s1, Nothing)
    else Drained(s1)
  }

  /** `send_buffer_` */
  function SendLists(s: Sock, ks: seq<Written>): (Sock, Event) {
    var r := SendAll(s.high, ks);
    var s1 := Advance(s, r).(high := r.left);
    if r.broken then (ForceClose(s1), Closed)
    else if r.left != [] then (s1, Nothing)
    else if s.low == [] then Drained(s1)
    else SendLow(s1, r.ks)
  }

  /** `send_buffer` with the lock: the direct-write buffer goes before the high list. */
  function Merged(s: Sock): Sock {
    s.(high := s.dw + s.high, dw := [], wbSize := s.wbSize + Size(s.dw))
  }

  function SendBuffer(s: Sock, ks: seq<Written>): (Sock, Event) { SendLists(Merged(s), ks) }

  /** `append_sendbuffer` and `append_sendbuffer_low` */
  function AppendHigh(s: Sock, bytes: seq<Byte>): Sock {
    var p := Package(High, bytes);
    s.(high := s.high + [Buffer(p, 0)], wbSize := s.wbSize + |bytes|, accepted := s.accepted + [p])
  }

  function AppendLow(s: Sock, bytes: seq<Byte>): Sock {
    var p := Package(Low, bytes);
    s.(low := s.low + [Buffer(p, 0)], wbSize := s.wbSize + |bytes|, accepted := s.accepted + [p])
  }

  predicate Takes(k: Kind) { k == Connecting || k == Connected }

  /** `send_socket` for TCP */
  function Append(s: Sock, bytes: seq<Byte>, low: bool): Sock {
    if Empty(s) && s.kind == Connected then AppendHigh(s, bytes).(watching := true)
    else if low then AppendLow(s, bytes)
    else AppendHigh(s, bytes)
  }

  function Warn(s: Sock): (Sock, Event) {
    if s.wbSize >= WARNING_SIZE && s.wbSize >= s.warnSize then
      (s.(warnSize := if s.warnSize == 0 then WARNING_SIZE * 2 else s.warnSize * 2),
       Warning(if s.wbSize % 1024 == 0 then s.wbSize / 1024 else s.wbSize / 1024 + 1))
    else (s, Nothing)
  }

  function SendSocket(s: Sock, bytes: seq<Byte>, low: bool): (Sock, Event) {
    if !Takes(s.kind) then (s, Nothing) else Warn(Append(s, bytes, low))
  }

  /** The direct write of `socket_server_send`; an error counts as nothing written. */
  function DirectWrite(s: Sock, bytes: seq<Byte>, w: Written): Sock {
    var b := Buffer(Package(Direct, bytes), 0);
    var n := if w.Wrote? then Taken(b, w.n) else 0;
    var s1 := s.(out := s.out + Chunk(b, n), started := s.started + Begins(b, n), accepted := s.accepted + [b.pkg]);
    if n == |bytes| then s1 else s1.(dw := [b.(off := n)], watching := true)
  }

  // ---------- what they keep ----------

  ghost predicate AllLow(q: seq<Buffer>) { forall k :: 0 <= k < |q| ==> q[k].pkg.route == Low }

  ghost predicate Streaming(s: Sock) { Flow(Queued(s), s.out, s.started, s.accepted) }

  /** Sizes and the state of the connection. */
  ghost predicate Tidy(s: Sock) {
    && |s.dw| <= 1 && AllLow(s.low) && !Uncomplete(s.low)
    && s.wbSize == Size(s.high) + Size(s.low)
    && (Queued(s) != [] ==> s.kind in {Connecting, Connected, HalfClose})
  }

  /** The write event is on as long as something is queued. */
  ghost predicate Waiting(s: Sock) { Queued(s) != [] ==> s.watching }

  /** The write event is on while a connection is being made. */
  ghost predicate Dialing(s: Sock) { s.kind == Connecting ==> s.watching }

  /** What a closed socket has sent: whole packages, each accepted and begun once, the last
      perhaps cut short. */
  ghost predicate Cut(s: Sock) {
    s.out <= Concat(s.started) && multiset(s.started) <= multiset(s.accepted)
  }

  /** The invariant of a socket whenever its lock is free. */
  ghost predicate Good(s: Sock) {
    if s.kind == Invalid then Queued(s) == [] && Cut(s) else Streaming(s) && Tidy(s)
  }

  lemma {:induction false} CountOnly(ps: seq<Package>, p: Package)
    ensures multiset(ps)[p] == multiset(Only(ps, p.route))[p]
  {
    if ps != [] {
      CountOnly(ps[1..], p);
      assert ps == [ps[0]] + ps[1..];
    }
  }

  lemma OrderedCounts(q: seq<Buffer>, started: seq<Package>, accepted: seq<Package>)
    requires Ordered(q, started, accepted)
    ensures multiset(started) + multiset(Fresh(q)) == multiset(accepted)
  {
    forall p ensures multiset(started)[p] + multiset(Fresh(q))[p] == multiset(accepted)[p] {
      CountOnly(started, p);
      CountOnly(Fresh(q), p);
      CountOnly(accepted, p);
      assert Only(started, p.route) + Only(Fresh(q), p.route) == Only(accepted, p.route);
    }
  }

  lemma WholePrefix(q: seq<Buffer>, out: seq<Octet>, started: seq<Package>)
    requires Whole(q, out, started)
    ensures out <= Concat(started)
  {
    if Uncomplete(q) {
      ConcatLast(started[..|started| - 1], q[0].pkg);
      assert started == started[..|started| - 1] + [q[0].pkg];
    }
  }

  lemma StreamingCut(s: Sock)
    requires Streaming(s)
    ensures Cut(s)
  {
    WholePrefix(Queued(s), s.out, s.started);
    OrderedCounts(Queued(s), s.started, s.accepted);
  }

  lemma CloseGood(s: Sock)
    requires Streaming(s)
    ensures Good(ForceClose(s))
  {
    StreamingCut(s);
  }

  lemma RestTail(q: seq<Buffer>, tail: seq<Buffer>, n: nat)
    requires q != []
    ensures Rest(q + tail, n) == Rest(q, n) + tail
  {
    assert (q + tail)[1..] == q[1..] + tail;
  }

  lemma ThenAppend(out: seq<Octet>, started: seq<Package>, bytes: seq<Octet>, begun: seq<Package>, r: Sent)
    ensures out + Then(bytes, begun, r).bytes == out + bytes + r.bytes
    ensures started + Then(bytes, begun, r).begun == started + begun + r.begun
  {
  }

  /** Sending from a list that is followed by `tail`. */
  lemma {:induction false} SendAllFlow(q: seq<Buffer>, tail: seq<Buffer>, ks: seq<Written>, out: seq<Octet>, started: seq<Package>, accepted: seq<Package>)
    requires Flow(q + tail, out, started, accepted)
    ensures var r := SendAll(q, ks); Flow(r.left + tail, out + r.bytes, started + r.begun, accepted)
    decreases |ks|
  {
    assert out + [] == out && started + [] == started;
    if q != [] && ks != [] {
      if ks[0].Interrupted? {
        SendAllFlow(q, tail, ks[1..], out, started, accepted);
      } else if ks[0].Wrote? {
        var m := Taken(q[0], ks[0].n);
        assert (q + tail)[0] == q[0];
        WriteFlow(q + tail, m, out, started, accepted);
        RestTail(q, tail, m);
        if m == Left(q[0]) {
          SendAllFlow(q[1..], tail, ks[1..], out + Chunk(q[0], m), started + Begins(q[0], m), accepted);
          ThenAppend(out, started, Chunk(q[0], m), Begins(q[0], m), SendAll(q[1..], ks[1..]));
        }
      }
    }
  }

  lemma {:induction false} SendAllSize(q: seq<Buffer>, ks: seq<Written>)
    ensures var r := SendAll(q, ks); Size(q) == Size(r.left) + |r.bytes|
    decreases |ks|
  {
    if q != [] && ks != [] {
      if ks[0].Interrupted? {
        SendAllSize(q, ks[1..]);
      } else if ks[0].Wrote? {
        SendAllSize(q[1..], ks[1..]);
      }
    }
  }

  /** The assertion before step 4 of `send_buffer_`: all is written. */
  ghost predicate AllWritten(s: Sock) { Empty(s) && s.wbSize == 0 }

  lemma DrainedGood(s: Sock)
    requires s.kind != Invalid && s.dw == [] && Empty(s) && Streaming(s) && Tidy(s)
    ensures AllWritten(s) && Good(Drained(s).0)
  {
    CloseGood(s.(watching := false));
  }

  lemma {:induction false} SendAllLow(q: seq<Buffer>, ks: seq<Written>)
    requires AllLow(q)
    ensures AllLow(SendAll(q, ks).left)
    decreases |ks|
  {
    if q != [] && ks != [] {
      if ks[0].Interrupted? {
        SendAllLow(q, ks[1..]);
      } else if ks[0].Wrote? {
        SendAllLow(q[1..], ks[1..]);
      }
    }
  }

  /** Sending the low list keeps the invariant, except that its head may be part-sent. */
  lemma LowSent(s: Sock, ks: seq<Written>)
    requires s.dw == [] && s.high == [] && Streaming(s) && Tidy(s)
    ensures var r := SendAll(s.low, ks);
      var s1 := Advance(s, r).(low := r.left);
      && Streaming(s1) && AllLow(r.left) && s1.wbSize == Size(r.left)
      && Shaped(r.left) && (r.left != [] ==> s.kind in {Connecting, Connected, HalfClose})
  {
    assert s.low + [] == s.low == Queued(s);
    SendAllFlow(s.low, [], ks, s.out, s.started, s.accepted);
    SendAllSize(s.low, ks);
    SendAllLow(s.low, ks);
    var r := SendAll(s.low, ks);
    assert r.left + [] == r.left == Queued(Advance(s, r).(low := r.left));
    if s.low == [] { assert r.left == []; }
  }

  lemma Raised(low: seq<Buffer>)
    requires low != []
    ensures [] + [] + low == low && [] + [low[0]] + low[1..] == low
    ensures Size([low[0]]) + Size(low[1..]) == Size(low)
  {
    assert [low[0]][1..] == [];
  }

  lemma RaisedGood(s: Sock)
    requires s.dw == [] && s.high == [] && Streaming(s) && AllLow(s.low) && s.wbSize == Size(s.low) && Uncomplete(s.low)
    requires s.kind in {Connecting, Connected, HalfClose}
    ensures Good(s.(high := [s.low[0]], low := s.low[1..]))
  {
    var s1 := s.(high := [s.low[0]], low := s.low[1..]);
    Raised(s.low);
    assert Shaped(s.low);
  }

  lemma SendLowGood(s: Sock, ks: seq<Written>)
    requires s.kind != Invalid && s.dw == [] && s.high == [] && Streaming(s) && Tidy(s)
    ensures Good(SendLow(s, ks).0)
  {
    LowSent(s, ks);
    var r := SendAll(s.low, ks);
    var s1 := Advance(s, r).(low := r.left);
    if r.broken {
      CloseGood(s1);
    } else if Uncomplete(r.left) {
      RaisedGood(s1);
    } else if r.left == [] {
      DrainedGood(s1);
    }
  }

  lemma HighSent(s: Sock, ks: seq<Written>)
    requires s.dw == [] && Streaming(s) && Tidy(s)
    ensures var r := SendAll(s.high, ks);
      var s1 := Advance(s, r).(high := r.left);
      Streaming(s1) && Tidy(s1)
  {
    HighStreaming(s, ks);
    SendAllSize(s.high, ks);
    var r := SendAll(s.high, ks);
    if s.high == [] { assert r.left == []; }
    assert Queued(Advance(s, r).(high := r.left)) != [] ==> Queued(s) != [];
  }

  lemma HighStreaming(s: Sock, ks: seq<Written>)
    requires s.dw == [] && Streaming(s)
    ensures Streaming(Advance(s, SendAll(s.high, ks)).(high := SendAll(s.high, ks).left))
  {
    assert s.high + s.low == Queued(s);
    SendAllFlow(s.high, s.low, ks, s.out, s.started, s.accepted);
    var r := SendAll(s.high, ks);
    assert r.left + s.low == Queued(Advance(s, r).(high := r.left));
  }

  /** `send_buffer_`: the assertion that the low list is not part-sent is part of `Tidy`. */
  lemma SendListsGood(s: Sock, ks: seq<Written>)
    requires s.kind != Invalid && s.dw == [] && Good(s)
    ensures Good(SendLists(s, ks).0)
  {
    HighSent(s, ks);
    var r := SendAll(s.high, ks);
    var s1 := Advance(s, r).(high := r.left);
    if r.broken {
      CloseGood(s1);
    } else if r.left == [] {
      if s.low == [] { DrainedGood(s1); } else { SendLowGood(s1, r.ks); }
    }
  }

  lemma MergedGood(s: Sock)
    requires s.kind != Invalid && Good(s)
    ensures Good(Merged(s)) && Merged(s).dw == []
  {
    assert Queued(Merged(s)) == Queued(s);
    SizeAppend(s.dw, s.high);
  }

  lemma SendBufferGood(s: Sock, ks: seq<Written>)
    requires s.kind != Invalid && Good(s)
    ensures Good(SendBuffer(s, ks).0)
  {
    MergedGood(s);
    SendListsGood(Merged(s), ks);
  }

  // ---------- accepting packages ----------

  lemma PackagesAppend(a: seq<Buffer>, b: seq<Buffer>)
    ensures Packages(a + b) == Packages(a) + Packages(b)
  {
  }

  lemma {:induction false} OnlyOther(q: seq<Buffer>, r: Route)
    requires forall k :: 0 <= k < |q| ==> q[k].pkg.route != r
    ensures Only(Packages(q), r) == []
    decreases |q|
  {
    if q != [] {
      OnlyOther(q[1..], r);
      assert Packages(q)[1..] == Packages(q[1..]);
    }
  }

  /** A new package inserted between `a` and `b`, where nothing of its route follows. */
  lemma InsertFlow(a: seq<Buffer>, b: seq<Buffer>, p: Package, out: seq<Octet>, started: seq<Package>, accepted: seq<Package>)
    requires Flow(a + b, out, started, accepted) && !Uncomplete(b)
    requires forall k :: 0 <= k < |b| ==> b[k].pkg.route != p.route
    ensures Flow(a + [Buffer(p, 0)] + b, out, started, accepted + [p])
  {
    InsertShaped(a, b, p);
    FreshInsert(a, b, p);
    assert Uncomplete(a + b) == Uncomplete(a + [Buffer(p, 0)] + b) == Uncomplete(a);
    forall r ensures Only(started, r) + Only(Fresh(a + [Buffer(p, 0)] + b), r) == Only(accepted + [p], r) {
      assert Only(started, r) + Only(Fresh(a + b), r) == Only(accepted, r);
      if r == p.route { OnlyOther(b, r); }
      InsertOrdered(Packages(Unbegun(a)), Packages(b), p, r, started, accepted);
    }
  }

  lemma InsertShaped(a: seq<Buffer>, b: seq<Buffer>, p: Package)
    requires Shaped(a + b) && !Uncomplete(b)
    ensures Shaped(a + [Buffer(p, 0)] + b)
  {
    var q, q' := a + b, a + [Buffer(p, 0)] + b;
    forall k | 0 <= k < |q'| ensures Sound(q'[k]) && (k > 0 ==> q'[k].off == 0) {
      if k < |a| { assert q'[k] == q[k]; } else if k > |a| { assert q'[k] == q[k - 1]; }
    }
  }

  lemma InsertOrdered(a: seq<Package>, b: seq<Package>, p: Package, r: Route, started: seq<Package>, accepted: seq<Package>)
    requires Only(started, r) + Only(a + b, r) == Only(accepted, r) && (r == p.route ==> Only(b, r) == [])
    ensures Only(started, r) + Only(a + [p] + b, r) == Only(accepted + [p], r)
  {
    OnlyInsert(a, b, p, r);
    OnlyAppend(accepted, [p], r);
  }

  /** The part of a queue of which nothing has been written. */
  function Unbegun(q: seq<Buffer>): seq<Buffer> { if Uncomplete(q) then q[1..] else q }

  lemma FreshAppend(a: seq<Buffer>, b: seq<Buffer>)
    requires !Uncomplete(b)
    ensures Fresh(a + b) == Packages(Unbegun(a)) + Packages(b)
  {
    if a == [] {
      assert a + b == b;
    } else {
      assert (a + b)[0] == a[0] && (a + b)[1..] == a[1..] + b;
      PackagesAppend(a[1..], b);
      PackagesAppend(a, b);
    }
  }

  lemma FreshInsert(a: seq<Buffer>, b: seq<Buffer>, p: Package)
    requires !Uncomplete(b)
    ensures Fresh(a + b) == Packages(Unbegun(a)) + Packages(b)
    ensures Fresh(a + [Buffer(p, 0)] + b) == Packages(Unbegun(a)) + [p] + Packages(b)
  {
    FreshAppend(a, b);
    FreshAppend(a, [Buffer(p, 0)] + b);
    PackagesAppend([Buffer(p, 0)], b);
    assert Packages([Buffer(p, 0)]) == [p];
    assert a + [Buffer(p, 0)] + b == a + ([Buffer(p, 0)] + b);
    assert Packages(Unbegun(a)) + [p] + Packages(b) == Packages(Unbegun(a)) + ([p] + Packages(b));
  }

  lemma OnlyInsert(a: seq<Package>, b: seq<Package>, p: Package, r: Route)
    ensures Only(a + b, r) == Only(a, r) + Only(b, r)
    ensures Only(a + [p] + b, r) == Only(a, r) + (if p.route == r then [p] else []) + Only(b, r)
  {
    OnlyAppend(a, b, r);
    OnlyAppend(a + [p], b, r);
    OnlyAppend(a, [p], r);
  }

  lemma AppendHighGood(s: Sock, bytes: seq<Byte>)
    requires Streaming(s) && Tidy(s) && Takes(s.kind)
    ensures var s1 := AppendHigh(s, bytes); Streaming(s1) && Tidy(s1)
  {
    var p := Package(High, bytes);
    InsertFlow(s.dw + s.high, s.low, p, s.out, s.started, s.accepted);
    var s1 := AppendHigh(s, bytes);
    assert Queued(s1) == s.dw + s.high + [Buffer(p, 0)] + s.low;
    SizeAppend(s.high, [Buffer(p, 0)]);
    assert Size([Buffer(p, 0)]) == |bytes|;
  }

  lemma AppendLowGood(s: Sock, bytes: seq<Byte>)
    requires Streaming(s) && Tidy(s) && Takes(s.kind)
    ensures var s1 := AppendLow(s, bytes); Streaming(s1) && Tidy(s1)
  {
    var p := Package(Low, bytes);
    assert Queued(s) + [] == Queued(s);
    InsertFlow(Queued(s), [], p, s.out, s.started, s.accepted);
    var s1 := AppendLow(s, bytes);
    assert Queued(s1) == Queued(s) + [Buffer(p, 0)] + [];
    SizeAppend(s.low, [Buffer(p, 0)]);
    assert Size([Buffer(p, 0)]) == |bytes|;
  }

  lemma SendSocketGood(s: Sock, bytes: seq<Byte>, low: bool)
    requires Good(s) && Dialing(s)
    ensures Good(SendSocket(s, bytes, low).0) && Dialing(SendSocket(s, bytes, low).0)
  {
    if Takes(s.kind) {
      AppendHighGood(s, bytes);
      AppendLowGood(s, bytes);
      var s1 := Append(s, bytes, low);
      assert Queued(s1) == Queued(s1.(watching := s.watching));
      assert Queued(Warn(s1).0) == Queued(s1);
    }
  }

  /** The state in which the code writes directly: nothing is part-sent, and no direct write is
      under way. */
  ghost predicate Clear(s: Sock) {
    s.dw == [] && !Uncomplete(Queued(s)) && forall k :: 0 <= k < |Queued(s)| ==> Queued(s)[k].pkg.route != Direct
  }

  lemma DirectQueue(s: Sock, bytes: seq<Byte>, w: Written)
    requires s.dw == []
    ensures var b := Buffer(Package(Direct, bytes), 0);
      Queued(DirectWrite(s, bytes, w)) == Rest([b] + Queued(s), if w.Wrote? then Taken(b, w.n) else 0)
  {
    var b := Buffer(Package(Direct, bytes), 0);
    var n := if w.Wrote? then Taken(b, w.n) else 0;
    var q := Queued(s);
    assert q == s.high + s.low;
    assert ([b] + q)[0] == b && ([b] + q)[1..] == q;
    if n != |bytes| { Grouped([b.(off := n)], s.high, s.low); }
  }

  lemma Grouped<T>(a: seq<T>, b: seq<T>, c: seq<T>)
    ensures a + b + c == a + (b + c)
  {
  }

  lemma FrontFlow(q: seq<Buffer>, p: Package, out: seq<Octet>, started: seq<Package>, accepted: seq<Package>)
    requires Flow(q, out, started, accepted) && !Uncomplete(q)
    requires forall k :: 0 <= k < |q| ==> q[k].pkg.route != p.route
    ensures Flow([Buffer(p, 0)] + q, out, started, accepted + [p])
  {
    assert [] + q == q;
    InsertFlow([], q, p, out, started, accepted);
    assert [] + [Buffer(p, 0)] + q == [Buffer(p, 0)] + q;
  }

  lemma DirectFlow(s: Sock, bytes: seq<Byte>, w: Written)
    requires Streaming(s) && Clear(s)
    ensures Streaming(DirectWrite(s, bytes, w))
  {
    var b := Buffer(Package(Direct, bytes), 0);
    FrontFlow(Queued(s), b.pkg, s.out, s.started, s.accepted);
    WriteFlow([b] + Queued(s), if w.Wrote? then Taken(b, w.n) else 0, s.out, s.started, s.accepted + [b.pkg]);
    DirectQueue(s, bytes, w);
  }

  lemma DirectGood(s: Sock, bytes: seq<Byte>, w: Written)
    requires Good(s) && s.kind in {Connecting, Connected, HalfClose} && Clear(s)
    ensures Good(DirectWrite(s, bytes, w))
  {
    DirectFlow(s, bytes, w);
  }
}
