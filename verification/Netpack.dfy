/** Stream deframing of lua-netpack.c: the bytes of many sockets arrive in chunks; packages with a
    two-byte length come out. */
module Netpack {
  import opened RingBuffer

  const QUEUESIZE := 1024
  const HASHSIZE := 4096

  type Byte = x: nat | x < 256

  /** A delivered package. */
  datatype Pack = Pack(fd: nat, data: seq<Byte>)

  // ---------- frames ----------

  datatype Parsed = Parsed(packs: seq<Pack>, rest: seq<Byte>)

  /** Length of the first package, from its two-byte header. */
  function SizeOf(b: seq<Byte>): nat
    requires |b| >= 2
  {
    var high: int := b[0];
    high * 256 + b[1]
  }

  predicate HasPack(b: seq<Byte>) { |b| >= 2 && |b| >= 2 + SizeOf(b) }

  /** The packages of a socket's stream, and what remains. */
  function Frames(fd: nat, b: seq<Byte>): Parsed
    decreases |b|, fd
  {
    if !HasPack(b) then Parsed([], b)
    else
      var n := SizeOf(b);
      Then([Pack(fd, b[2..2 + n])], Frames(fd, b[2 + n..]))
  }

  /** Packages `packs`, then those of `p`. */
  function Then(packs: seq<Pack>, p: Parsed): Parsed { Parsed(packs + p.packs, p.rest) }

  lemma {:induction false} ThenThen(x: Pack, packs: seq<Pack>, p: Parsed)
    ensures Then([x], Then(packs, p)) == Then([x] + packs, p)
    ensures Then([], p) == p
  {
    assert [x] + (packs + p.packs) == [x] + packs + p.packs;
    assert [] + p.packs == p.packs;
  }

  lemma {:induction false} FirstPack(a: seq<Byte>, b: seq<Byte>)
    requires HasPack(a)
    ensures HasPack(a + b) && SizeOf(a + b) == SizeOf(a)
    ensures var n := SizeOf(a); (a + b)[2 + n..] == a[2 + n..] + b && (a + b)[2..2 + n] == a[2..2 + n]
  {
  }

  /** Cutting a stream in two does not change its packages. */
  lemma {:induction false} FramesAppend(fd: nat, a: seq<Byte>, b: seq<Byte>)
    ensures Frames(fd, a + b) == Then(Frames(fd, a).packs, Frames(fd, Frames(fd, a).rest + b))
    decreases |a|
  {
    if HasPack(a) {
      var n := SizeOf(a);
      FirstPack(a, b);
      FramesAppend(fd, a[2 + n..], b);
      var p := Frames(fd, a[2 + n..]);
      ThenThen(Pack(fd, a[2..2 + n]), p.packs, Frames(fd, p.rest + b));
    } else {
      ThenThen(Pack(fd, []), [], Frames(fd, a + b));
    }
  }

  /** All packages are for the socket. */
  ghost predicate AllFor(fd: nat, packs: seq<Pack>) { forall k :: 0 <= k < |packs| ==> packs[k].fd == fd }

  lemma {:induction false} FramesFor(fd: nat, b: seq<Byte>)
    ensures AllFor(fd, Frames(fd, b).packs) && !HasPack(Frames(fd, b).rest)
    decreases |b|
  {
    if HasPack(b) { FramesFor(fd, b[2 + SizeOf(b)..]); }
  }

  // ---------- partial records ----------

  /** `uncomplete`: half a header, or a header and the first bytes of a package. */
  datatype Partial = Half(id: nat, header: Byte) | Part(id: nat, size: nat, data: seq<Byte>)

  /** The bytes a partial record stands for. */
  function BytesOf(u: Partial): seq<Byte> {
    match u
    case Half(_, h) => [h]
    case Part(_, size, data) =>
      seq(2 + |data|, k requires 0 <= k < 2 + |data| => if k == 0 then size / 256 % 256 else if k == 1 then size % 256 else data[k - 2])
  }

  ghost predicate Short(u: Partial) { u.Part? ==> |u.data| < u.size < 65536 }

  function Hash(fd: nat): nat { (fd / 16777216 + fd / 4096 + fd) % HASHSIZE }

  /** The hash table: lists of partial records, at most one for each socket. */
  ghost predicate Table(hash: seq<seq<Partial>>) {
    |hash| == HASHSIZE && forall h :: 0 <= h < HASHSIZE ==> ListOk(hash[h], h)
  }

  /** Position of a socket's record in a list, or the length of the list. */
  function Find(list: seq<Partial>, fd: nat): (k: nat)
    ensures k <= |list| && (k < |list| ==> list[k].id == fd)
    ensures forall z :: 0 <= z < k ==> list[z].id != fd
  {
    if list == [] then 0 else if list[0].id == fd then 0 else 1 + Find(list[1..], fd)
  }

  /** The bytes kept for a socket. */
  function Kept(hash: seq<seq<Partial>>, fd: nat): seq<Byte>
    requires |hash| == HASHSIZE
  {
    var list := hash[Hash(fd)];
    var k := Find(list, fd);
    if k < |list| then BytesOf(list[k]) else []
  }

  // ---------- what records and frames have to do with each other ----------

  /** A stream without a whole package is kept as a partial record, unless it is empty. */
  lemma {:induction false} KeepStart(fd: nat, b: seq<Byte>)
    requires b != [] && !HasPack(b)
    ensures Frames(fd, b) == Parsed([], b)
    ensures |b| == 1 ==> BytesOf(Half(fd, b[0])) == b
    ensures |b| >= 2 ==> var u := Part(fd, SizeOf(b), b[2..]); Short(u) && BytesOf(u) == b
  {
    if |b| >= 2 { SizeDigits(b); }
  }

  lemma {:induction false} SizeDigits(b: seq<Byte>)
    requires |b| >= 2
    ensures SizeOf(b) < 65536 && SizeOf(b) / 256 == b[0] && SizeOf(b) % 256 == b[1]
  {
  }

  lemma {:induction false} HeaderOf(fd: nat, size: nat, data: seq<Byte>)
    requires size < 65536
    ensures var all := BytesOf(Part(fd, size, data)); |all| == 2 + |data| && SizeOf(all) == size && all[2..] == data
  {
  }

  /** A package with header and the bytes `data`, followed by `b`: still not enough, */
  lemma {:induction false} FillShort(fd: nat, size: nat, data: seq<Byte>, b: seq<Byte>)
    requires |data| + |b| < size < 65536
    ensures Frames(fd, BytesOf(Part(fd, size, data)) + b) == Parsed([], BytesOf(Part(fd, size, data + b)))
  {
    PartAppend(fd, size, data, b);
    HeaderOf(fd, size, data + b);
  }

  lemma {:induction false} PartAppend(fd: nat, size: nat, data: seq<Byte>, b: seq<Byte>)
    ensures BytesOf(Part(fd, size, data)) + b == BytesOf(Part(fd, size, data + b))
  {
  }

  /** or enough. */
  lemma {:induction false} FillDone(fd: nat, size: nat, data: seq<Byte>, b: seq<Byte>)
    requires |data| <= size < 65536 && |data| + |b| >= size
    ensures var need := size - |data|;
      Frames(fd, BytesOf(Part(fd, size, data)) + b) == Then([Pack(fd, data + b[..need])], Frames(fd, b[need..]))
  {
    HeaderOf(fd, size, data);
    Whole(fd, BytesOf(Part(fd, size, data)), size, data, b, size - |data|);
  }

  lemma {:induction false} Whole(fd: nat, bytes: seq<Byte>, size: nat, data: seq<Byte>, b: seq<Byte>, need: nat)
    requires |bytes| == 2 + |data| && SizeOf(bytes) == size && bytes[2..] == data && size == |data| + need && need <= |b|
    ensures Frames(fd, bytes + b) == Then([Pack(fd, data + b[..need])], Frames(fd, b[need..]))
  {
    var all := bytes + b;
    assert all[0] == bytes[0] && all[1] == bytes[1] && SizeOf(all) == size;
    assert all[2..] == bytes[2..] + b;
    Slices(all, data + b, size);
    Cut(data, b, need);
  }

  lemma Slices(all: seq<Byte>, body: seq<Byte>, size: nat)
    requires |all| >= 2 && all[2..] == body && size <= |body|
    ensures all[2..2 + size] == body[..size] && all[2 + size..] == body[size..]
  {
    assert all[2 + size..] == all[2..][size..];
    assert all[2..2 + size] == all[2..][..size];
  }

  lemma Cut(data: seq<Byte>, b: seq<Byte>, need: nat)
    requires need <= |b|
    ensures (data + b)[..|data| + need] == data + b[..need] && (data + b)[|data| + need..] == b[need..]
  {
  }

  /** Half a header and the next byte. */
  lemma {:induction false} FillHeader(fd: nat, h: Byte, b: seq<Byte>)
    requires b != []
    ensures var size := SizeOf([h, b[0]]);
      size < 65536 && BytesOf(Half(fd, h)) + b == BytesOf(Part(fd, size, [])) + b[1..]
  {
    SizeDigits([h, b[0]]);
  }

  // ---------- the hash table ----------

  /** `save_uncomplete` */
  function Saved(hash: seq<seq<Partial>>, u: Partial): seq<seq<Partial>>
    requires |hash| == HASHSIZE
  {
    var h := Hash(u.id);
    hash[h := [u] + hash[h]]
  }

  function Removed(hash: seq<seq<Partial>>, fd: nat, k: nat): seq<seq<Partial>>
    requires |hash| == HASHSIZE && k < |hash[Hash(fd)]|
  {
    var h := Hash(fd);
    hash[h := hash[h][..k] + hash[h][k + 1..]]
  }

  lemma {:induction false} SavedTable(hash: seq<seq<Partial>>, u: Partial)
    requires Table(hash) && Short(u) && Find(hash[Hash(u.id)], u.id) == |hash[Hash(u.id)]|
    ensures Table(Saved(hash, u)) && Kept(Saved(hash, u), u.id) == BytesOf(u)
    ensures forall fd: nat :: fd != u.id ==> Kept(Saved(hash, u), fd) == Kept(hash, fd)
  {
    var h := Hash(u.id);
    SavedList(hash[h], u);
    forall fd: nat | fd != u.id ensures Kept(Saved(hash, u), fd) == Kept(hash, fd) {
      if Hash(fd) == h { FindBehind(hash[h], u, fd); }
    }
  }

  lemma {:induction false} SavedList(list: seq<Partial>, u: Partial)
    requires ListOk(list, Hash(u.id)) && Short(u) && Find(list, u.id) == |list|
    ensures ListOk([u] + list, Hash(u.id))
  {
  }

  lemma {:induction false} FindBehind(list: seq<Partial>, u: Partial, fd: nat)
    ensures Find([u] + list, u.id) == 0
    ensures fd != u.id ==> Find([u] + list, fd) == 1 + Find(list, fd)
  {
    assert ([u] + list)[1..] == list;
  }

  lemma {:induction false} FindAt(list: seq<Partial>, fd: nat, k: nat)
    requires k < |list| && list[k].id == fd && forall z :: 0 <= z < k ==> list[z].id != fd
    ensures Find(list, fd) == k
  {
  }

  /** The lists of the table. */
  ghost predicate ListOk(list: seq<Partial>, h: nat) {
    && (forall k :: 0 <= k < |list| ==> Hash(list[k].id) == h && Short(list[k]))
    && (forall i, j :: 0 <= i < j < |list| ==> list[i].id != list[j].id)
  }

  lemma {:induction false} RemovedList(list: seq<Partial>, h: nat, fd: nat, k: nat)
    requires ListOk(list, h) && k < |list| && list[k].id == fd
    ensures var list' := list[..k] + list[k + 1..]; ListOk(list', h) && Find(list', fd) == |list'|
  {
    var list' := list[..k] + list[k + 1..];
    assert forall z :: 0 <= z < |list'| ==> list'[z] == list[if z < k then z else z + 1];
  }

  lemma {:induction false} RemovedTable(hash: seq<seq<Partial>>, fd: nat, k: nat)
    requires Table(hash) && k == Find(hash[Hash(fd)], fd) < |hash[Hash(fd)]|
    ensures Table(Removed(hash, fd, k)) && Find(Removed(hash, fd, k)[Hash(fd)], fd) == |Removed(hash, fd, k)[Hash(fd)]|
  {
    RemovedList(hash[Hash(fd)], Hash(fd), fd, k);
    forall h | 0 <= h < HASHSIZE ensures ListOk(Removed(hash, fd, k)[h], h) { assert ListOk(hash[h], h); }
  }

  lemma {:induction false} RemovedKept(hash: seq<seq<Partial>>, fd: nat, k: nat, x: nat)
    requires Table(hash) && k == Find(hash[Hash(fd)], fd) < |hash[Hash(fd)]| && x != fd
    ensures Kept(Removed(hash, fd, k), x) == Kept(hash, x)
  {
    if Hash(x) == Hash(fd) { FindRemoved(hash[Hash(fd)], k, x); }
  }

  lemma {:induction false} FindRemoved(list: seq<Partial>, k: nat, x: nat)
    requires k < |list| && list[k].id != x
    ensures var list', z := list[..k] + list[k + 1..], Find(list, x);
      if z < |list| then Find(list', x) < |list'| && list'[Find(list', x)] == list[z] else Find(list', x) == |list'|
  {
    var list' := list[..k] + list[k + 1..];
    if k == 0 {
      assert list' == list[1..];
    } else if list[0].id != x {
      assert list'[1..] == list[1..][..k - 1] + list[1..][k..];
      FindRemoved(list[1..], k - 1, x);
    }
  }

  lemma {:induction false} PacksFirst(x: Pack, packs: seq<Pack>, before: seq<Pack>)
    ensures before + [x] + packs == before + ([x] + packs)
  {
  }

  /** The answer of `filter_data_`: nothing yet, one package, or packages in the queue. */
  datatype Reply = Nothing | Data(pack: seq<Byte>) | More

  /** The answer and the queue hold the packages of `p`. */
  ghost predicate Replies(p: Parsed, r: Reply, fd: nat, before: seq<Pack>, after: seq<Pack>) {
    match r
    case Nothing => p.packs == [] && after == before
    case Data(x) => p.packs == [Pack(fd, x)] && after == before
    case More => after == before + p.packs
  }

  class PackFilter {
    var hash: seq<seq<Partial>>
    var cap: nat
    var head: nat
    var tail: nat
    var queue: seq<Pack>

    ghost predicate Valid()
      reads this
    {
      Table(hash) && 0 < cap == |queue| && head < cap && tail < cap
    }

    ghost function Waiting(): seq<Pack>
      requires Valid()
      reads this
    {
      Ring(queue, head, if head <= tail then tail - head else tail + cap - head)
    }

    /** Only the record of `fd` may have changed. */
    twostate predicate OthersKept(fd: nat)
      reads this
    {
      |old(hash)| == HASHSIZE && |hash| == HASHSIZE && forall x: nat :: x != fd ==> Kept(hash, x) == old(Kept(hash, x))
    }

    /** `get_queue` */
    constructor ()
      ensures Valid() && Waiting() == [] && forall fd: nat :: Kept(hash, fd) == []
    {
      hash := seq(HASHSIZE, _ => []);
      cap, head, tail := QUEUESIZE, 0, 0;
      queue := seq(QUEUESIZE, _ => Pack(0, []));
    }

    /** `push_data` with `expand_queue` */
    method PushData(fd: nat, data: seq<Byte>)
      requires Valid()
      modifies this`head, this`tail, this`cap, this`queue
      ensures Valid() && Waiting() == old(Waiting()) + [Pack(fd, data)]
    {
      PushRing(queue, head, if head <= tail then tail - head else tail + cap - head, Pack(fd, data));
      queue := queue[tail := Pack(fd, data)];
      tail := tail + 1;
      if tail >= cap {
        tail := tail - cap;
      }
      if head == tail {
        ExpandQueue();
      }
    }

    method ExpandQueue()
      requires Valid() && head == tail
      modifies this`head, this`tail, this`cap, this`queue
      ensures Valid() && Waiting() == old(Ring(queue, head, cap))
    {
      var cells := [];
      for i := 0 to cap
        invariant |cells| == i && forall k :: 0 <= k < i ==> cells[k] == queue[Index(head, k, cap)]
        modifies {}
      {
        IndexIsMod(head, i, cap);
        cells := cells + [queue[(head + i) % cap]];
      }
      ghost var was := Ring(queue, head, cap);
      assert cells == was;
      tail := cap;
      cap := cap + QUEUESIZE;
      head := 0;
      queue := cells + seq(QUEUESIZE, _ => Pack(0, []));
      assert Waiting() == was;
    }

    /** `lpop` */
    method Pop() returns (found: bool, p: Pack)
      requires Valid()
      modifies this`head
      ensures Valid() && (found <==> old(Waiting()) != [])
      ensures found ==> old(Waiting()) == [p] + Waiting()
      ensures !found ==> head == old(head)
    {
      found, p := head != tail, Pack(0, []);
      if found {
        PopRing(queue, head, if head <= tail then tail - head else tail + cap - head);
        p := queue[head];
        head := head + 1;
        if head >= cap {
          head := 0;
        }
      }
    }

    /** `find_uncomplete`: takes a socket's record out of its list. */
    method FindUncomplete(fd: nat) returns (found: bool, u: Partial)
      requires Valid()
      modifies this`hash
      ensures Valid() && OthersKept(fd) && NoRecord(fd)
      ensures found <==> !old(NoRecord(fd))
      ensures found ==> u.id == fd && Short(u) && BytesOf(u) == old(Kept(hash, fd))
      ensures !found ==> hash == old(hash) && Kept(hash, fd) == []
    {
      var h, k := Hash(fd), 0;
      u := Half(fd, 0);
      while k < |hash[h]| && hash[h][k].id != fd
        invariant k <= |hash[h]| && forall z :: 0 <= z < k ==> hash[h][z].id != fd
        modifies {}
      {
        k := k + 1;
      }
      found := k < |hash[h]|;
      if found {
        u := hash[h][k];
        FindAt(hash[h], fd, k);
        RemovedTable(hash, fd, k);
        forall x: nat | x != fd ensures Kept(Removed(hash, fd, k), x) == Kept(hash, x) { RemovedKept(hash, fd, k, x); }
        hash := hash[h := hash[h][..k] + hash[h][k + 1..]];
      }
    }

    ghost predicate NoRecord(fd: nat)
      requires |hash| == HASHSIZE
      reads this
    {
      Find(hash[Hash(fd)], fd) == |hash[Hash(fd)]|
    }

    /** `save_uncomplete` */
    method SaveUncomplete(u: Partial)
      requires Valid() && Short(u) && NoRecord(u.id)
      modifies this`hash
      ensures Valid() && OthersKept(u.id) && Kept(hash, u.id) == BytesOf(u)
    {
      SavedTable(hash, u);
      var h := Hash(u.id);
      hash := hash[h := [u] + hash[h]];
    }

    /** `push_more` */
    method PushMore(fd: nat, buffer: seq<Byte>)
      requires Valid() && buffer != [] && NoRecord(fd)
      modifies this
      ensures Valid() && OthersKept(fd)
      ensures Kept(hash, fd) == Frames(fd, buffer).rest && Waiting() == old(Waiting()) + Frames(fd, buffer).packs
      decreases |buffer|
    {
      if !HasPack(buffer) { KeepStart(fd, buffer); }
      if |buffer| == 1 {
        SaveUncomplete(Half(fd, buffer[0]));
        return;
      }
      var size := SizeOf(buffer);
      if |buffer| - 2 < size {
        SaveUncomplete(Part(fd, size, buffer[2..]));
        return;
      }
      PacksFirst(Pack(fd, buffer[2..2 + size]), Frames(fd, buffer[2 + size..]).packs, Waiting());
      PushData(fd, buffer[2..2 + size]);
      if |buffer| > 2 + size {
        PushMore(fd, buffer[2 + size..]);
      }
    }

    /** `filter_data_`: the packages of what was kept and the new bytes come out, the rest is kept. */
    method FilterData(fd: nat, chunk: seq<Byte>) returns (r: Reply)
      requires Valid() && chunk != []
      modifies this
      ensures Valid() && OthersKept(fd)
      ensures var p := Frames(fd, old(Kept(hash, fd)) + chunk);
        Kept(hash, fd) == p.rest && Replies(p, r, fd, old(Waiting()), Waiting())
    {
      var found, u := FindUncomplete(fd);
      if found {
        r := Continue(fd, u, chunk);
      } else {
        assert [] + chunk == chunk;
        r := Begin(fd, chunk);
      }
    }

    /** The branch for a socket without a record. */
    method Begin(fd: nat, buffer: seq<Byte>) returns (r: Reply)
      requires Valid() && buffer != [] && NoRecord(fd)
      modifies this
      ensures Valid() && OthersKept(fd)
      ensures Kept(hash, fd) == Frames(fd, buffer).rest && Replies(Frames(fd, buffer), r, fd, old(Waiting()), Waiting())
    {
      if !HasPack(buffer) { KeepStart(fd, buffer); }
      assert Waiting() + [] == Waiting();
      if |buffer| == 1 {
        SaveUncomplete(Half(fd, buffer[0]));
        return Nothing;
      }
      var size := SizeOf(buffer);
      if |buffer| - 2 < size {
        SaveUncomplete(Part(fd, size, buffer[2..]));
        return Nothing;
      }
      if |buffer| - 2 == size {
        assert Frames(fd, buffer[2 + size..]) == Parsed([], []) && buffer[2..2 + size] == buffer[2..];
        assert [Pack(fd, buffer[2..])] + [] == [Pack(fd, buffer[2..])];
        return Data(buffer[2..]);
      }
      PacksFirst(Pack(fd, buffer[2..2 + size]), Frames(fd, buffer[2 + size..]).packs, Waiting());
      PushData(fd, buffer[2..2 + size]);
      PushMore(fd, buffer[2 + size..]);
      return More;
    }

    /** The branch that fills a socket's record. */
    method Continue(fd: nat, u: Partial, chunk: seq<Byte>) returns (r: Reply)
      requires Valid() && chunk != [] && NoRecord(fd) && u.id == fd && Short(u)
      modifies this
      ensures Valid() && OthersKept(fd)
      ensures var p := Frames(fd, BytesOf(u) + chunk);
        Kept(hash, fd) == p.rest && Replies(p, r, fd, old(Waiting()), Waiting())
    {
      var size, data, buffer := 0, [], chunk;
      if u.Half? {
        FillHeader(fd, u.header, chunk);
        size, buffer := SizeOf([u.header, chunk[0]]), chunk[1..];
      } else {
        size, data := u.size, u.data;
      }
      assert BytesOf(u) + chunk == BytesOf(Part(fd, size, data)) + buffer;
      r := Complete(fd, size, data, buffer);
    }

    /** Its end: the package is still short, done, or done and followed by more. */
    method Complete(fd: nat, size: nat, data: seq<Byte>, buffer: seq<Byte>) returns (r: Reply)
      requires Valid() && NoRecord(fd) && |data| <= size < 65536
      modifies this
      ensures Valid() && OthersKept(fd)
      ensures var p := Frames(fd, BytesOf(Part(fd, size, data)) + buffer);
        Kept(hash, fd) == p.rest && Replies(p, r, fd, old(Waiting()), Waiting())
    {
      var need := size - |data|;
      assert Waiting() + [] == Waiting();
      if |buffer| < need {
        FillShort(fd, size, data, buffer);
        SaveUncomplete(Part(fd, size, data + buffer));
        return Nothing;
      }
      FillDone(fd, size, data, buffer);
      var pack := data + buffer[..need];
      if |buffer| == need {
        assert Frames(fd, buffer[need..]) == Parsed([], []) && [Pack(fd, pack)] + [] == [Pack(fd, pack)];
        return Data(pack);
      }
      PacksFirst(Pack(fd, pack), Frames(fd, buffer[need..]).packs, Waiting());
      PushData(fd, pack);
      PushMore(fd, buffer[need..]);
      return More;
    }

    /** Taking everything out of the queue. */
    method Drain() returns (out: seq<Pack>)
      requires Valid()
      modifies this`head
      ensures Valid() && out == old(Waiting()) && Waiting() == []
    {
      out := [];
      ghost var was := Waiting();
      var found, p := Pop();
      while found
        invariant Valid() && was == out + (if found then [p] else []) + Waiting() && (!found ==> Waiting() == [])
        decreases found, |Waiting()|
      {
        out := out + [p];
        found, p := Pop();
      }
    }

    /** One call of `filter_data_`, and the queue drained after it. */
    method FeedOne(c: Chunk, ghost before: seq<Chunk>, out: seq<Pack>) returns (more: seq<Pack>)
      requires Valid() && Waiting() == [] && c.bytes != []
      requires forall fd: nat :: Fed(fd, Stream(before, fd), Only(out, fd), Kept(hash, fd))
      modifies this
      ensures Valid() && Waiting() == []
      ensures forall fd: nat :: Fed(fd, Stream(before + [c], fd), Only(more, fd), Kept(hash, fd))
    {
      ghost var kept := Kept(hash, c.fd);
      assert Fed(c.fd, Stream(before, c.fd), Only(out, c.fd), kept);
      assert (before + [c])[..|before|] == before;
      var r := FilterData(c.fd, c.bytes);
      var drained := Drain();
      var packs := if r.Data? then [Pack(c.fd, r.pack)] else drained;
      assert packs == Frames(c.fd, kept + c.bytes).packs;
      FedMore(Stream(before, c.fd), out, kept, c.fd, c.bytes);
      FramesFor(c.fd, kept + c.bytes);
      forall fd: nat | fd != c.fd ensures Only(out + packs, fd) == Only(out, fd) {
        OnlyAppend(out, packs, c.fd, fd);
      }
      more := out + packs;
    }

    /** Any interleaving of the streams of any sockets, cut into chunks in any way: every socket's
        packages come out, in order, and the rest of its stream is kept. */
    method Feed(chunks: seq<Chunk>) returns (out: seq<Pack>)
      requires Valid() && Waiting() == [] && forall fd: nat :: Kept(hash, fd) == []
      requires forall k :: 0 <= k < |chunks| ==> chunks[k].bytes != []
      modifies this
      ensures Valid()
      ensures forall fd: nat :: Frames(fd, Stream(chunks, fd)) == Parsed(Only(out, fd), Kept(hash, fd))
    {
      out := [];
      for k := 0 to |chunks|
        invariant Valid() && Waiting() == []
        invariant forall fd: nat :: Fed(fd, Stream(chunks[..k], fd), Only(out, fd), Kept(hash, fd))
      {
        out := FeedOne(chunks[k], chunks[..k], out);
        assert chunks[..k + 1] == chunks[..k] + [chunks[k]];
      }
      assert chunks[..|chunks|] == chunks;
      forall fd: nat ensures Frames(fd, Stream(chunks, fd)) == Parsed(Only(out, fd), Kept(hash, fd)) {
        assert Fed(fd, Stream(chunks, fd), Only(out, fd), Kept(hash, fd));
      }
    }
  }

  /** Bytes that arrive from a socket. */
  datatype Chunk = Chunk(fd: nat, bytes: seq<Byte>)

  /** All bytes of one socket, in order. */
  ghost function Stream(chunks: seq<Chunk>, fd: nat): seq<Byte>
    decreases |chunks|, fd
  {
    if chunks == [] then []
    else
      var c := chunks[|chunks| - 1];
      if c.fd == fd then Stream(chunks[..|chunks| - 1], fd) + c.bytes else Stream(chunks[..|chunks| - 1], fd)
  }

  /** The packages of one socket among those delivered. */
  ghost function Only(out: seq<Pack>, fd: nat): seq<Pack>
    decreases |out|, fd
  {
    if out == [] then []
    else
      var p := out[|out| - 1];
      if p.fd == fd then Only(out[..|out| - 1], fd) + [p] else Only(out[..|out| - 1], fd)
  }

  ghost predicate Fed(fd: nat, stream: seq<Byte>, packs: seq<Pack>, kept: seq<Byte>) { Frames(fd, stream) == Parsed(packs, kept) }

  lemma {:induction false} OnlyAppend(out: seq<Pack>, packs: seq<Pack>, fd: nat, x: nat)
    requires AllFor(fd, packs)
    ensures Only(out + packs, x) == if x == fd then Only(out, fd) + packs else Only(out, x)
    decreases |packs|
  {
    if packs == [] {
      assert out + packs == out;
    } else {
      var n := |packs| - 1;
      assert (out + packs)[..|out| + n] == out + packs[..n];
      OnlyAppend(out, packs[..n], fd, x);
      assert packs[..n] + [packs[n]] == packs;
    }
  }

  lemma {:induction false} FedMore(stream: seq<Byte>, out: seq<Pack>, kept: seq<Byte>, fd: nat, b: seq<Byte>)
    requires Fed(fd, stream, Only(out, fd), kept)
    ensures var p := Frames(fd, kept + b); Fed(fd, stream + b, Only(out + p.packs, fd), p.rest)
  {
    FramesAppend(fd, stream, b);
    FramesFor(fd, kept + b);
    OnlyAppend(out, Frames(fd, kept + b).packs, fd, fd);
  }
}
