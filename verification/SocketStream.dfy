/** The bytes and packages of one TCP socket of socket_server.c: what is queued, what has been
    written, and in which order packages reach the wire. */
module SocketStream {

  type Byte = x: nat | x < 256

  /** The way a package takes: appended to the high or the low list, or written directly by
      the sending thread. */
  datatype Route = High | Low | Direct

  datatype Package = Package(route: Route, bytes: seq<Byte>)

  /** `write_buffer`: the first `off` bytes have been written. */
  datatype Buffer = Buffer(pkg: Package, off: nat)

  /** A byte on the wire: the byte at position `at` of a package. */
  datatype Octet = Octet(pkg: Package, at: nat)

  /** A package as it is to go over the wire. */
  function Wire(p: Package): (r: seq<Octet>)
    ensures |r| == |p.bytes|
  {
    seq(|p.bytes|, k requires 0 <= k < |p.bytes| => Octet(p, k))
  }

  /** The bytes themselves. */
  function Bytes(w: seq<Octet>): seq<Byte> {
    seq(|w|, k requires 0 <= k < |w| => if w[k].at < |w[k].pkg.bytes| then w[k].pkg.bytes[w[k].at] else 0)
  }

  /** What `write` may answer: it was interrupted, it would block, the connection is broken, or
      some bytes were taken. */
  datatype Written = Interrupted | Again | Broken | Wrote(n: nat)

  ghost predicate Sound(b: Buffer) { b.off == 0 || b.off < |b.pkg.bytes| }

  function Left(b: Buffer): nat { if b.off <= |b.pkg.bytes| then |b.pkg.bytes| - b.off else 0 }

  function Taken(b: Buffer, n: nat): nat { if n < Left(b) then n else Left(b) }

  /** The next `n` bytes of a buffer. */
  function Chunk(b: Buffer, n: nat): seq<Octet>
    requires n <= Left(b)
  {
    if n == 0 then [] else Wire(b.pkg)[b.off..b.off + n]
  }

  /** `list_uncomplete` */
  predicate Uncomplete(list: seq<Buffer>) { list != [] && list[0].off > 0 }

  function Size(q: seq<Buffer>): nat { if q == [] then 0 else Left(q[0]) + Size(q[1..]) }

  function Concat(ps: seq<Package>): seq<Octet> {
    if ps == [] then [] else Concat(ps[..|ps| - 1]) + Wire(ps[|ps| - 1])
  }

  /** The packages of one route, in order. */
  function Only(ps: seq<Package>, r: Route): seq<Package> {
    if |ps| == 0 then [] else if ps[0].route == r then [ps[0]] + Only(ps[1..], r) else Only(ps[1..], r)
  }

  function Packages(q: seq<Buffer>): seq<Package> {
    seq(|q|, k requires 0 <= k < |q| => q[k].pkg)
  }

  /** The packages of a queue of which nothing has been written. */
  function Fresh(q: seq<Buffer>): seq<Package> {
    if Uncomplete(q) then Packages(q[1..]) else Packages(q)
  }

  /** Only the first buffer may be part-sent. */
  ghost predicate Shaped(q: seq<Buffer>) {
    && (forall k :: 0 <= k < |q| ==> Sound(q[k]))
    && (forall k :: 0 < k < |q| ==> q[k].off == 0)
  }

  /** What has been written is all packages begun, whole, except that the last of them is the
      part-sent buffer at the head of the queue, if there is one. */
  ghost predicate Whole(q: seq<Buffer>, out: seq<Octet>, started: seq<Package>) {
    if Uncomplete(q) then
      && started != [] && started[|started| - 1] == q[0].pkg && q[0].off <= |q[0].pkg.bytes|
      && out == Concat(started[..|started| - 1]) + Wire(q[0].pkg)[..q[0].off]
    else out == Concat(started)
  }

  /** Of each route, packages are begun in the order they were accepted, none is lost, and
      none is begun twice. */
  ghost predicate Ordered(q: seq<Buffer>, started: seq<Package>, accepted: seq<Package>) {
    forall r :: Only(started, r) + Only(Fresh(q), r) == Only(accepted, r)
  }

  ghost predicate Flow(q: seq<Buffer>, out: seq<Octet>, started: seq<Package>, accepted: seq<Package>) {
    Shaped(q) && Whole(q, out, started) && Ordered(q, started, accepted)
  }

  lemma TailAppend<T>(a: seq<T>, b: seq<T>)
    requires a != []
    ensures (a + b)[1..] == a[1..] + b && (a + b)[0] == a[0]
  {
  }

  lemma {:induction false} OnlyAppend(a: seq<Package>, b: seq<Package>, r: Route)
    ensures Only(a + b, r) == Only(a, r) + Only(b, r)
  {
    if |a| == 0 {
      assert a + b == b;
    } else {
      TailAppend(a, b);
      OnlyAppend(a[1..], b, r);
    }
  }

  lemma {:induction false} SizeAppend(a: seq<Buffer>, b: seq<Buffer>)
    ensures Size(a + b) == Size(a) + Size(b)
  {
    if a == [] {
      assert a + b == b;
    } else {
      assert (a + b)[1..] == a[1..] + b;
      SizeAppend(a[1..], b);
    }
  }

  lemma ConcatLast(ps: seq<Package>, p: Package)
    ensures Concat(ps + [p]) == Concat(ps) + Wire(p)
  {
    assert (ps + [p])[..|ps|] == ps;
  }

  /** The head of the queue after `n` of its bytes are written. */
  function Rest(q: seq<Buffer>, n: nat): seq<Buffer>
    requires q != []
  {
    if n < Left(q[0]) then [q[0].(off := q[0].off + n)] + q[1..] else q[1..]
  }

  /** The package that `n` bytes begin, if any. */
  function Begins(b: Buffer, n: nat): seq<Package> {
    if b.off == 0 && (n > 0 || n == Left(b)) then [b.pkg] else []
  }

  lemma RestFresh(q: seq<Buffer>, n: nat)
    requires q != [] && Shaped(q) && n <= Left(q[0])
    ensures Shaped(Rest(q, n)) && Begins(q[0], n) + Fresh(Rest(q, n)) == Fresh(q)
  {
    assert Packages(q) == [q[0].pkg] + Packages(q[1..]);
    if n < Left(q[0]) {
      assert Rest(q, n)[1..] == q[1..];
      if n == 0 { assert Rest(q, n) == q; }
    }
  }

  /** The packages begun before the head of the queue. */
  ghost function Before(b: Buffer, started: seq<Package>): seq<Package> {
    if b.off > 0 && started != [] then started[..|started| - 1] else started
  }

  lemma ChunkWhole(q: seq<Buffer>, n: nat, out: seq<Octet>, started: seq<Package>)
    requires q != [] && Shaped(q) && n <= Left(q[0]) && Whole(q, out, started)
    ensures out + Chunk(q[0], n) == Concat(Before(q[0], started)) + Wire(q[0].pkg)[..q[0].off + n]
    ensures q[0].off > 0 || Begins(q[0], n) != [] ==> started + Begins(q[0], n) == Before(q[0], started) + [q[0].pkg]
  {
    var b := q[0];
    assert Wire(b.pkg)[..b.off] + Chunk(b, n) == Wire(b.pkg)[..b.off + n];
    assert b.off > 0 ==> started == Before(b, started) + [b.pkg];
  }

  lemma RestWhole(q: seq<Buffer>, n: nat, out: seq<Octet>, started: seq<Package>)
    requires q != [] && Shaped(q) && n <= Left(q[0]) && Whole(q, out, started)
    ensures Whole(Rest(q, n), out + Chunk(q[0], n), started + Begins(q[0], n))
  {
    var b := q[0];
    if n == Left(b) {
      RestFinished(q, n, out, started);
    } else if b.off + n > 0 {
      RestBegun(q, n, out, started);
    } else {
      assert Rest(q, n) == q && Begins(b, n) == [] && Chunk(b, n) == [];
      assert out + [] == out && started + [] == started;
    }
  }

  /** The first package is finished. */
  lemma RestFinished(q: seq<Buffer>, n: nat, out: seq<Octet>, started: seq<Package>)
    requires q != [] && Shaped(q) && n == Left(q[0]) && Whole(q, out, started)
    ensures Whole(Rest(q, n), out + Chunk(q[0], n), started + Begins(q[0], n))
  {
    var b := q[0];
    ChunkWhole(q, n, out, started);
    ConcatLast(Before(b, started), b.pkg);
    assert Wire(b.pkg)[..b.off + n] == Wire(b.pkg);
  }

  /** Or a part of it has been written. */
  lemma RestBegun(q: seq<Buffer>, n: nat, out: seq<Octet>, started: seq<Package>)
    requires q != [] && Shaped(q) && n < Left(q[0]) && q[0].off + n > 0 && Whole(q, out, started)
    ensures Whole(Rest(q, n), out + Chunk(q[0], n), started + Begins(q[0], n))
  {
    var before := Before(q[0], started);
    ChunkWhole(q, n, out, started);
    assert (before + [q[0].pkg])[..|before|] == before;
  }

  lemma OnlyMoves(a: seq<Package>, x: seq<Package>, y: seq<Package>, r: Route)
    ensures Only(a + x, r) + Only(y, r) == Only(a, r) + Only(x + y, r)
  {
    OnlyAppend(a, x, r);
    OnlyAppend(x, y, r);
  }

  lemma RestOrdered(q: seq<Buffer>, n: nat, started: seq<Package>, accepted: seq<Package>)
    requires q != [] && Shaped(q) && n <= Left(q[0]) && Ordered(q, started, accepted)
    ensures Ordered(Rest(q, n), started + Begins(q[0], n), accepted)
  {
    RestFresh(q, n);
    forall r ensures Only(started + Begins(q[0], n), r) + Only(Fresh(Rest(q, n)), r) == Only(accepted, r) {
      OnlyMoves(started, Begins(q[0], n), Fresh(Rest(q, n)), r);
    }
  }

  /** Writing `n` bytes of the head of the queue. */
  lemma WriteFlow(q: seq<Buffer>, n: nat, out: seq<Octet>, started: seq<Package>, accepted: seq<Package>)
    requires q != [] && Flow(q, out, started, accepted) && n <= Left(q[0])
    ensures Flow(Rest(q, n), out + Chunk(q[0], n), started + Begins(q[0], n), accepted)
  {
    RestFresh(q, n);
    RestWhole(q, n, out, started);
    RestOrdered(q, n, started, accepted);
  }

  // ---------- packages that are not mixed up ----------

  /** What may come after a byte: the next byte of its package, or, after the last, the first of another. */
  ghost predicate Follows(a: Octet, b: Octet) {
    if a.at + 1 < |a.pkg.bytes| then b == Octet(a.pkg, a.at + 1) else b.at == 0
  }

  /** No package is begun on the wire before the one before it is finished. */
  ghost predicate Seamless(w: seq<Octet>) {
    (w != [] ==> w[0].at == 0) && forall k :: 0 < k < |w| ==> Follows(w[k - 1], w[k])
  }

  /** The wire ends inside a package. */
  ghost predicate Unfinished(w: seq<Octet>) {
    w != [] && w[|w| - 1].at + 1 < |w[|w| - 1].pkg.bytes|
  }

  lemma {:induction false} ConcatSeamless(ps: seq<Package>)
    ensures Seamless(Concat(ps)) && !Unfinished(Concat(ps))
  {
    if ps != [] {
      ConcatSeamless(ps[..|ps| - 1]);
    }
  }

  lemma PrefixSeamless(w: seq<Octet>, v: seq<Octet>)
    requires w <= v && Seamless(v)
    ensures Seamless(w)
  {
  }

  lemma PrefixBytes(w: seq<Octet>, v: seq<Octet>)
    requires w <= v
    ensures Bytes(w) <= Bytes(v)
  {
  }

  /** A package begun inside another one cannot be mended. */
  lemma BegunInside(w: seq<Octet>, p: Package, n: nat, more: seq<Octet>)
    requires Unfinished(w) && 0 < n <= |p.bytes|
    ensures !Seamless(w + Wire(p)[..n] + more)
  {
    var v := w + Wire(p)[..n] + more;
    assert v[|w| - 1] == w[|w| - 1] && v[|w|] == Octet(p, 0);
    assert !Follows(v[|w| - 1], v[|w|]);
  }
}
