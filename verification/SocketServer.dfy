/** The write side of a TCP socket as socket_server.c changes it in place. */
module SocketServer {
  import opened SocketStream
  import opened SocketQueue

  class TcpSocket {
    var high: seq<Buffer>
    var low: seq<Buffer>
    var dw: seq<Buffer>            // dw_buffer with dw_offset, if any
    var wbSize: int
    var kind: Kind
    var watching: bool             // sp_write
    var warnSize: int
    var out: seq<Octet>            // what the kernel has taken
    var kernel: seq<Written>       // what the kernel is going to answer
    ghost var started: seq<Package>
    ghost var accepted: seq<Package>

    ghost function Content(): Sock
      reads this
    {
      Sock(high, low, dw, wbSize, kind, watching, warnSize, out, started, accepted)
    }

    /** `new_fd` */
    constructor (k: Kind, answers: seq<Written>)
      requires k in {Connecting, Connected, Accepting}
      ensures Good(Content()) && Dialing(Content()) && kind == k && kernel == answers
    {
      high, low, dw, wbSize, warnSize := [], [], [], 0, 0;
      kind, watching, out, kernel := k, k == Connecting, [], answers;
      started, accepted := [], [];
      new;
      assert Queued(Content()) == [] && Packages([]) == [];
    }

    /** `send_list_tcp`: writes as much of a list as the kernel takes. */
    method SendListTcp(list: seq<Buffer>) returns (left: seq<Buffer>, broken: bool, ghost r: Sent)
      modifies this`out, this`wbSize, this`kernel, this`started
      ensures r == SendAll(list, old(kernel)) && left == r.left && broken == r.broken && kernel == r.ks
      ensures out == old(out) + r.bytes && started == old(started) + r.begun && wbSize == old(wbSize) - |r.bytes|
    {
      left, broken := list, false;
      r := Sent(list, [], [], kernel, false);
      while left != [] && kernel != []
        invariant !broken && !r.broken && r.left == left && r.ks == kernel && Toward(r, SendAll(list, old(kernel)))
        invariant out == old(out) + r.bytes && started == old(started) + r.begun && wbSize == old(wbSize) - |r.bytes|
        decreases |kernel|
      {
        var answer, b := kernel[0], left[0];
        ghost var was := r;
        Answered(r, SendAll(list, old(kernel)));
        kernel := kernel[1..];
        r := r.(ks := kernel);
        match answer {
          case Interrupted =>
          case Again =>
            return;
          case Broken =>
            broken := true;
            r := r.(broken := true);
            return;
          case Wrote(n) =>
            var sz := Taken(b, n);
            TakeBytes(b, sz);
            r := Wrote1(was, sz);
            Regroup(old(out), was.bytes, Chunk(b, sz));
            Regroup(old(started), was.begun, Begins(b, sz));
            left := Rest(left, sz);
            if sz != Left(b) {
              return;
            }
        }
      }
      Finished(r, SendAll(list, old(kernel)));
    }

    /** The kernel takes `sz` bytes of the buffer. */
    method TakeBytes(b: Buffer, sz: nat)
      requires sz <= Left(b)
      modifies this`out, this`wbSize, this`started
      ensures out == old(out) + Chunk(b, sz) && started == old(started) + Begins(b, sz)
      ensures wbSize == old(wbSize) - sz && |Chunk(b, sz)| == sz
    {
      out := out + Chunk(b, sz);
      wbSize := wbSize - sz;
      started := started + Begins(b, sz);
    }

    /** `force_close` */
    method ForceCloseSocket()
      modifies this`high, this`low, this`dw, this`kind
      ensures Content() == ForceClose(old(Content()))
    {
      high, low, dw := [], [], [];
      kind := Invalid;
    }

    /** `raise_uncomplete` */
    method RaiseUncomplete()
      requires high == [] && low != []
      modifies this`high, this`low
      ensures Content() == old(Content()).(high := [old(low)[0]], low := old(low)[1..])
    {
      var tmp := low[0];
      low := low[1..];
      high := [tmp];
    }

    /** `send_buffer_`, with its assertions. */
    method SendBufferLists() returns (e: Event)
      requires kind != Invalid && dw == [] && Streaming(Content()) && Tidy(Content())
      modifies this
      ensures (Content(), e) == SendLists(old(Content()), old(kernel))
    {
      HighSent(Content(), kernel);
      assert !Uncomplete(low);
      ghost var s := Content();
      var broken;
      ghost var r;
      high, broken, r := SendListTcp(high);
      assert Content() == Advance(s, r).(high := r.left);
      if broken {
        ForceCloseSocket();
        return Closed;
      }
      if high != [] {
        return Nothing;
      }
      if low != [] {
        e := SendLowList();
        return;
      }
      e := Finish();
    }

    /** Steps 2 and 3. */
    method SendLowList() returns (e: Event)
      requires kind != Invalid && dw == [] && high == [] && Streaming(Content()) && Tidy(Content())
      modifies this
      ensures (Content(), e) == SendLow(old(Content()), old(kernel))
    {
      LowSent(Content(), kernel);
      ghost var s := Content();
      var broken;
      ghost var r;
      low, broken, r := SendListTcp(low);
      assert Content() == Advance(s, r).(low := r.left);
      if broken {
        ForceCloseSocket();
        return Closed;
      }
      if Uncomplete(low) {
        RaiseUncomplete();
        return Nothing;
      }
      if low != [] {
        return Nothing;
      }
      e := Finish();
    }

    /** Step 4. */
    method Finish() returns (e: Event)
      requires kind != Invalid && dw == [] && Empty(Content()) && Streaming(Content()) && Tidy(Content())
      modifies this`high, this`low, this`dw, this`kind, this`watching, this`warnSize
      ensures (Content(), e) == Drained(old(Content()))
    {
      assert high == [] && low == [] && wbSize == 0;
      watching := false;
      if kind == HalfClose {
        ForceCloseSocket();
        return Closed;
      }
      if warnSize > 0 {
        warnSize := 0;
        return Warning(0);
      }
      return Nothing;
    }

    /** `send_buffer`, once it has the lock. */
    method SendBufferLocked() returns (e: Event)
      requires kind != Invalid && Good(Content())
      modifies this
      ensures (Content(), e) == SendBuffer(old(Content()), old(kernel))
      ensures Good(Content())
    {
      SendBufferGood(Content(), kernel);
      MergedGood(Content());
      Merge();
      e := SendBufferLists();
    }

    /** The direct-write buffer goes before the high list. */
    method Merge()
      requires |dw| <= 1
      modifies this`high, this`dw, this`wbSize
      ensures Content() == Merged(old(Content()))
    {
      assert [] + high == high;
      if dw != [] {
        assert dw[1..] == [] && dw + [] == dw && Size(dw) == Left(dw[0]);
        wbSize := wbSize + Left(dw[0]);
        if high == [] {
          high := dw;
        } else {
          high := dw + high;
        }
        dw := [];
      }
    }

    /** `send_socket` */
    method SendPackage(bytes: seq<Byte>, lowPriority: bool) returns (e: Event)
      requires Good(Content()) && Dialing(Content())
      modifies this`high, this`low, this`wbSize, this`accepted, this`watching, this`warnSize
      ensures (Content(), e) == SendSocket(old(Content()), bytes, lowPriority)
      ensures Good(Content()) && Dialing(Content())
    {
      SendSocketGood(Content(), bytes, lowPriority);
      e := Nothing;
      if !(kind == Invalid || kind == HalfClose || kind == Accepting || kind == Listening) {
        e := AppendPackage(bytes, lowPriority);
      }
    }

    /** The part of `send_socket` for a socket that takes packages. */
    method AppendPackage(bytes: seq<Byte>, lowPriority: bool) returns (e: Event)
      modifies this`high, this`low, this`wbSize, this`accepted, this`watching, this`warnSize
      ensures (Content(), e) == Warn(Append(old(Content()), bytes, lowPriority))
    {
      if high == [] && low == [] && kind == Connected {
        AppendHighBuffer(bytes);
        watching := true;
      } else if lowPriority {
        AppendLowBuffer(bytes);
      } else {
        AppendHighBuffer(bytes);
      }
      if wbSize >= WARNING_SIZE && wbSize >= warnSize {
        warnSize := if warnSize == 0 then WARNING_SIZE * 2 else warnSize * 2;
        return Warning(if wbSize % 1024 == 0 then wbSize / 1024 else wbSize / 1024 + 1);
      }
      return Nothing;
    }

    /** `append_sendbuffer` */
    method AppendHighBuffer(bytes: seq<Byte>)
      modifies this`high, this`wbSize, this`accepted
      ensures Content() == AppendHigh(old(Content()), bytes)
    {
      high := high + [Buffer(Package(High, bytes), 0)];
      wbSize := wbSize + |bytes|;
      accepted := accepted + [Package(High, bytes)];
    }

    /** `append_sendbuffer_low` */
    method AppendLowBuffer(bytes: seq<Byte>)
      modifies this`low, this`wbSize, this`accepted
      ensures Content() == AppendLow(old(Content()), bytes)
    {
      low := low + [Buffer(Package(Low, bytes), 0)];
      wbSize := wbSize + |bytes|;
      accepted := accepted + [Package(Low, bytes)];
    }
  }

  lemma Regroup<T>(a: seq<T>, b: seq<T>, c: seq<T>)
    ensures (a + b) + c == a + (b + c)
  {
  }

  /** What has been sent so far leads to the final result. */
  ghost predicate Toward(r: Sent, final: Sent) { Then(r.bytes, r.begun, SendAll(r.left, r.ks)) == final }

  /** One answer of the kernel is used to write `sz` bytes. */
  ghost function Wrote1(r: Sent, sz: nat): Sent
    requires r.left != [] && r.ks != [] && sz <= Left(r.left[0])
  {
    var b := r.left[0];
    r.(left := Rest(r.left, sz), bytes := r.bytes + Chunk(b, sz), begun := r.begun + Begins(b, sz), ks := r.ks[1..])
  }

  lemma Answered(r: Sent, final: Sent)
    requires r.left != [] && r.ks != [] && !r.broken && Toward(r, final)
    ensures var b, r' := r.left[0], r.(ks := r.ks[1..]);
      match r.ks[0]
      case Interrupted => Toward(r', final)
      case Again => r' == final
      case Broken => r'.(broken := true) == final
      case Wrote(n) =>
        if Taken(b, n) < Left(b) then Wrote1(r, Taken(b, n)) == final else Toward(Wrote1(r, Left(b)), final)
  {
    if r.ks[0].Wrote? {
      AnsweredWrote(r, r.ks[0].n, final);
    } else {
      assert r.bytes + [] == r.bytes && r.begun + [] == r.begun;
    }
  }

  lemma AnsweredWrote(r: Sent, n: nat, final: Sent)
    requires r.left != [] && r.ks != [] && r.ks[0] == Wrote(n) && !r.broken && Toward(r, final)
    ensures var b := r.left[0];
      if Taken(b, n) < Left(b) then Wrote1(r, Taken(b, n)) == final else Toward(Wrote1(r, Left(b)), final)
  {
    var b := r.left[0];
    if Taken(b, n) == Left(b) {
      ThenThen(r.bytes, r.begun, Chunk(b, Left(b)), Begins(b, Left(b)), SendAll(r.left[1..], r.ks[1..]));
    }
  }

  lemma ThenThen(a: seq<Octet>, b: seq<Package>, c: seq<Octet>, d: seq<Package>, r: Sent)
    ensures Then(a, b, Then(c, d, r)) == Then(a + c, b + d, r)
  {
    assert a + (c + r.bytes) == a + c + r.bytes;
    assert b + (d + r.begun) == b + d + r.begun;
  }

  lemma Finished(r: Sent, final: Sent)
    requires (r.left == [] || r.ks == []) && !r.broken && Toward(r, final)
    ensures r == final
  {
    assert r.bytes + [] == r.bytes && r.begun + [] == r.begun;
  }
}
