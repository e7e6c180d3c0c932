/** The memory pool of skpMallocPoolEx.cpp: blocks of equal size, each tiled by chunks, and large
    allocations of their own. */
module Pool {
  import opened PoolBlock

  const POOL_ALIGNMENT := 16
  const PAGE := 4096

  /** `sizeof(skp_pool_ex_t)` and `sizeof(skp_pool_data_ex_t)`, rounded to the alignment of a chunk. */
  const POOL_HEAD := 128
  const BLOCK_HEAD := 80

  /** `skp_pool_large_ex_t`: its header takes one unit. */
  datatype Large = Large(at: int, size: nat)

  /** Memory from the system: an address, or nothing. */
  datatype Memory = Nothing | Got(at: int)

  function Align(size: nat): nat { (size + POOL_ALIGNMENT - 1) / POOL_ALIGNMENT * POOL_ALIGNMENT }

  ghost predicate Apart(a: int, n: int, b: int, m: int) { a + n <= b || b + m <= a }

  /** The range a block occupies does not meet another range. */
  ghost predicate Clear(b: Block, at: int, n: int) { Apart(b.first, b.end - b.first, at, n) }

  ghost predicate Placed(b: Block, size: nat, max: int) {
    && Valid(b) && b.first < b.head && b.end == b.first + size && b.end - b.head > UNIT && Capacity(b) >= max
  }

  ghost predicate BlocksOk(blocks: seq<Block>, size: nat, max: int) {
    && (forall i :: 0 <= i < |blocks| ==> Placed(blocks[i], size, max))
    && (forall i, j :: 0 <= i < j < |blocks| ==> Clear(blocks[i], blocks[j].first, size))
  }

  ghost predicate LargeOk(blocks: seq<Block>, large: seq<Large>) {
    && (forall i, k :: 0 <= i < |blocks| && 0 <= k < |large| ==> Clear(blocks[i], large[k].at, UNIT + large[k].size))
    && (forall i, j :: 0 <= i < j < |large| ==> Apart(large[i].at, UNIT + large[i].size, large[j].at, UNIT + large[j].size))
  }

  function LargeTotal(large: seq<Large>): nat {
    if large == [] then 0 else LargeTotal(large[..|large| - 1]) + large[|large| - 1].size + UNIT
  }

  /** A chunk header at `a` is in use for `n` bytes; the payload starts one unit behind it. */
  ghost predicate InUse(blocks: seq<Block>, large: seq<Large>, a: int, n: nat) {
    || (exists i :: 0 <= i < |blocks| && HasLive(blocks[i], a, n))
    || (exists k :: 0 <= k < |large| && large[k] == Large(a, n))
  }

  ghost predicate Taken(blocks: seq<Block>, large: seq<Large>, a: int) { exists n: nat :: InUse(blocks, large, a, n) }

  ghost predicate HasLive(b: Block, a: int, n: nat) { a in Live(b) && Live(b)[a] == n }

  /** A live payload in a block and a large allocation. */
  lemma BlockLarge(blocks: seq<Block>, large: seq<Large>, size: nat, max: int, i: nat, a: int, n: nat, k: nat)
    requires BlocksOk(blocks, size, max) && LargeOk(blocks, large)
    requires i < |blocks| && HasLive(blocks[i], a, n) && k < |large|
    ensures Apart(a, UNIT + n, large[k].at, UNIT + large[k].size)
  {
    PayloadInside(blocks[i], a);
    assert Clear(blocks[i], large[k].at, UNIT + large[k].size);
  }

  /** Live payloads in blocks. */
  lemma BlockBlock(blocks: seq<Block>, size: nat, max: int, i: nat, a: int, n: nat, j: nat, a': int, n': nat)
    requires BlocksOk(blocks, size, max) && a != a'
    requires i < |blocks| && HasLive(blocks[i], a, n) && j < |blocks| && HasLive(blocks[j], a', n')
    ensures Apart(a, UNIT + n, a', UNIT + n')
  {
    PayloadInside(blocks[i], a);
    PayloadInside(blocks[j], a');
    if i == j {
      PayloadsDisjoint(blocks[i], a, a');
    } else {
      assert Clear(blocks[if i < j then i else j], blocks[if i < j then j else i].first, size);
    }
  }

  /** Live payloads are disjoint. */
  lemma LiveDisjoint(blocks: seq<Block>, large: seq<Large>, size: nat, max: int, a: int, n: nat, a': int, n': nat)
    requires BlocksOk(blocks, size, max) && LargeOk(blocks, large)
    requires InUse(blocks, large, a, n) && InUse(blocks, large, a', n') && a != a'
    ensures Apart(a, UNIT + n, a', UNIT + n')
  {
    if i :| 0 <= i < |blocks| && HasLive(blocks[i], a, n) {
      if j :| 0 <= j < |blocks| && HasLive(blocks[j], a', n') {
        BlockBlock(blocks, size, max, i, a, n, j, a', n');
      } else {
        var k :| 0 <= k < |large| && large[k] == Large(a', n');
        BlockLarge(blocks, large, size, max, i, a, n, k);
      }
    } else {
      var l :| 0 <= l < |large| && large[l] == Large(a, n);
      if j :| 0 <= j < |blocks| && HasLive(blocks[j], a', n') {
        BlockLarge(blocks, large, size, max, j, a', n', l);
      } else {
        var k :| 0 <= k < |large| && large[k] == Large(a', n');
      }
    }
  }

  /** A chunk header at `a` is in use in some block. */
  ghost predicate InBlocks(blocks: seq<Block>, a: int, n: nat) { exists i :: 0 <= i < |blocks| && HasLive(blocks[i], a, n) }

  /** From one state to the next, exactly the chunk at `a` has come into use, for `n` bytes. */
  ghost predicate Adds(blocks: seq<Block>, large: seq<Large>, blocks': seq<Block>, large': seq<Large>, a: int, n: nat) {
    && (forall m: nat :: !InUse(blocks, large, a, m))
    && (forall x: int, m: nat :: InUse(blocks', large', x, m) <==> InUse(blocks, large, x, m) || (x == a && m == n))
  }

  /** The memory handed out, if any, is what has come into use; it starts behind its header. */
  ghost predicate Hands(blocks: seq<Block>, large: seq<Large>, blocks': seq<Block>, large': seq<Large>, p: Memory, n: nat) {
    if p.Got? then Adds(blocks, large, blocks', large', p.at - UNIT, n) else blocks' == blocks && large' == large
  }

  lemma HandsBack(blocks: seq<Block>, large: seq<Large>, blocks': seq<Block>, large': seq<Large>, p: Memory, at: int, n: nat)
    requires p == Got(at + UNIT) && Adds(blocks, large, blocks', large', at, n)
    ensures Hands(blocks, large, blocks', large', p, n)
  {
    assert p.at - UNIT == at;
  }

  lemma HandsInBlocks(blocks: seq<Block>, large: seq<Large>, blocks': seq<Block>, p: Memory, n: nat)
    requires p.Got? && Hands(blocks, large, blocks', large, p, n)
    ensures InBlocks(blocks', p.at - UNIT, n)
  {
    AddsInBlocks(blocks, large, blocks', p.at - UNIT, n);
  }

  lemma AddsInBlocks(blocks: seq<Block>, large: seq<Large>, blocks': seq<Block>, a: int, n: nat)
    requires Adds(blocks, large, blocks', large, a, n)
    ensures InBlocks(blocks', a, n)
  {
    assert InUse(blocks', large, a, n);
    if k :| 0 <= k < |large| && large[k] == Large(a, n) {
      assert InUse(blocks, large, a, n);
      assert false;
    }
  }

  /** Memory from the system meets nothing that is there. */
  ghost predicate Room(blocks: seq<Block>, large: seq<Large>, mem: Memory, n: nat) {
    mem.Got? ==>
      && (forall i :: 0 <= i < |blocks| ==> Clear(blocks[i], mem.at, n))
      && (forall k :: 0 <= k < |large| ==> Apart(large[k].at, UNIT + large[k].size, mem.at, n))
  }

  /** The free chunk `a` of block `i` is the first that fits. */
  ghost predicate Fits(b: Block, a: int, size: nat) { a in b.free && a in b.chunks && b.chunks[a].alignSize >= MallocUnits(size) }

  lemma SplitBlocks(blocks: seq<Block>, large: seq<Large>, size: nat, max: int, i: nat, a: int, n: nat)
    requires BlocksOk(blocks, size, max) && LargeOk(blocks, large) && i < |blocks| && Fits(blocks[i], a, n)
    ensures var blocks' := blocks[i := Split(blocks[i], a, n)]; BlocksOk(blocks', size, max) && LargeOk(blocks', large)
  {
    var b, b' := blocks[i], Split(blocks[i], a, n);
    var blocks' := blocks[i := b'];
    SplitValid(b, a, n);
    forall x, y | 0 <= x < y < |blocks'| ensures Clear(blocks'[x], blocks'[y].first, size) {
      assert Clear(blocks[x], blocks[y].first, size);
    }
    forall x, k | 0 <= x < |blocks'| && 0 <= k < |large| ensures Clear(blocks'[x], large[k].at, UNIT + large[k].size) {
      assert Clear(blocks[x], large[k].at, UNIT + large[k].size);
    }
  }

  /** A chunk handed out lies inside its block. */
  lemma SplitInside(b: Block, a: int, n: nat)
    requires Serves(b, a, n) && b.end - b.head > UNIT
    ensures b.head <= SplitAt(b, a, n) && SplitAt(b, a, n) + UNIT + n <= b.end
  {
    SplitValid(b, a, n);
    SplitLive(b, a, n);
    PayloadInside(Split(b, a, n), SplitAt(b, a, n));
  }

  lemma SplitAdds(blocks: seq<Block>, large: seq<Large>, size: nat, max: int, i: nat, a: int, n: nat)
    requires BlocksOk(blocks, size, max) && LargeOk(blocks, large) && i < |blocks| && Fits(blocks[i], a, n)
    ensures Adds(blocks, large, blocks[i := Split(blocks[i], a, n)], large, SplitAt(blocks[i], a, n), n)
  {
    var b, at := blocks[i], SplitAt(blocks[i], a, n);
    var blocks' := blocks[i := Split(b, a, n)];
    SplitLive(b, a, n);
    SplitInside(b, a, n);
    forall m: nat ensures !InUse(blocks, large, at, m) { NotElsewhere(blocks, large, size, max, i, at, n, m); }
    forall x: int, m: nat ensures InUse(blocks', large, x, m) <==> InUse(blocks, large, x, m) || (x == at && m == n) {
      assert HasLive(Split(b, a, n), x, m) <==> HasLive(b, x, m) || (x == at && m == n);
      SetBlock(blocks, large, i, Split(b, a, n), x, m);
    }
  }

  /** An address inside block `i` that is not live there is not in use. */
  lemma NotElsewhere(blocks: seq<Block>, large: seq<Large>, size: nat, max: int, i: nat, at: int, n: nat, m: nat)
    requires BlocksOk(blocks, size, max) && LargeOk(blocks, large) && i < |blocks|
    requires at !in Live(blocks[i]) && blocks[i].first <= at < blocks[i].end
    ensures !InUse(blocks, large, at, m)
  {
    forall j | 0 <= j < |blocks| ensures !HasLive(blocks[j], at, m) {
      if j != i {
        assert Clear(blocks[if i < j then i else j], blocks[if i < j then j else i].first, size);
        if HasLive(blocks[j], at, m) { PayloadInside(blocks[j], at); }
      }
    }
    forall k | 0 <= k < |large| ensures large[k] != Large(at, m) {
      assert Clear(blocks[i], large[k].at, UNIT + large[k].size);
    }
  }

  /** Replacing block `i` changes what is in use only there. */
  lemma SetBlock(blocks: seq<Block>, large: seq<Large>, i: nat, b: Block, x: int, m: nat)
    requires i < |blocks|
    ensures InUse(blocks[i := b], large, x, m) || HasLive(blocks[i], x, m) <==> InUse(blocks, large, x, m) || HasLive(b, x, m)
    ensures HasLive(b, x, m) ==> InUse(blocks[i := b], large, x, m)
    ensures HasLive(blocks[i], x, m) ==> InUse(blocks, large, x, m)
  {
    var blocks' := blocks[i := b];
    assert blocks'[i] == b;
    forall j | 0 <= j < |blocks| && j != i ensures blocks'[j] == blocks[j] { }
  }

  /** The blocks and the large allocations of a pool. */
  ghost predicate PoolOk(blocks: seq<Block>, large: seq<Large>, size: nat, max: int, total: int) {
    && blocks != [] && max == Capacity(blocks[0]) && blocks[0].head == blocks[0].first + POOL_HEAD
    && BlocksOk(blocks, size, max) && LargeOk(blocks, large)
    && total == |blocks| * size + LargeTotal(large)
  }

  /** Some block from `from` on can serve the request. */
  ghost predicate CanServe(blocks: seq<Block>, size: nat, from: nat) {
    exists i, a :: from <= i < |blocks| && Fits(blocks[i], a, size)
  }

  /** The request is small enough for a block, and one has room or the system gives memory for a new one. */
  ghost predicate FromBlock(blocks: seq<Block>, max: int, size: nat, from: nat, mem: Memory) {
    MallocUnits(size) <= max && (CanServe(blocks, size, from) || mem.Got?)
  }

  class MallocPool {
    var blocks: seq<Block>
    var large: seq<Large>
    var alignMax: int
    var totleSize: int
    ghost var blockSize: nat

    ghost predicate Ok()
      reads this
    {
      PoolOk(blocks, large, blockSize, alignMax, totleSize)
    }

    /** `create` */
    constructor (size: nat, at: int)
      ensures Ok() && |blocks| == 1 && large == [] && Live(blocks[0]) == map[]
      ensures blocks[0].first == at && blockSize >= size && blockSize >= PAGE && blockSize % POOL_ALIGNMENT == 0
      ensures forall n: nat :: MallocUnits(n) <= alignMax ==> CanServe(blocks, n, 0)
    {
      var max := if size > PAGE then size else PAGE;
      var alignSize := Align(max);
      blocks := [Fresh(at, at + alignSize, at + POOL_HEAD)];
      large := [];
      alignMax := Capacity(Fresh(at, at + alignSize, at + POOL_HEAD));
      totleSize := alignSize;
      blockSize := alignSize;
      new;
      FreshValid(at, at + alignSize, at + POOL_HEAD);
      forall n: nat | MallocUnits(n) <= alignMax ensures CanServe(blocks, n, 0) { assert Fits(blocks[0], blocks[0].head, n); }
    }

    /** The loop of `doMalloc` over the free list of a block: the first chunk that fits. */
    method FindChunk(b: Block, size: nat) returns (found: bool, a: int)
      requires Valid(b)
      ensures found ==> Fits(b, a, size)
      ensures !found ==> forall x :: !Fits(b, x, size)
    {
      var need := MallocUnits(size);
      found, a := false, 0;
      for k := 0 to |b.free|
        invariant forall z :: 0 <= z < k ==> b.free[z] in b.chunks && b.chunks[b.free[z]].alignSize < need
      {
        a := b.free[k];
        assert a in b.free;
        if b.chunks[a].alignSize >= need {
          return true, a;
        }
      }
    }

    /** The search for a block with a chunk that fits. */
    method FindBlock(size: nat, from: nat) returns (i: nat, found: bool, a: int)
      requires Ok()
      ensures found ==> from <= i < |blocks| && Fits(blocks[i], a, size)
      ensures found <==> CanServe(blocks, size, from)
    {
      i, found, a := from, false, 0;
      while i < |blocks| && !found
        invariant from <= i
        invariant found ==> i < |blocks| && Fits(blocks[i], a, size)
        invariant !found ==> forall z, x :: from <= z < i && z < |blocks| ==> !Fits(blocks[z], x, size)
        decreases |blocks| - i, !found
      {
        found, a := FindChunk(blocks[i], size);
        if !found { i := i + 1; }
      }
    }

    /** `doMalloc`; `mem` is what the system would give for a new block. */
    method DoMalloc(size: nat, from: nat, mem: Memory) returns (p: Memory)
      requires Ok() && Room(blocks, large, mem, blockSize)
      modifies this
      ensures Ok() && large == old(large) && blockSize == old(blockSize) && alignMax == old(alignMax)
      ensures p.Got? <==> FromBlock(old(blocks), alignMax, size, from, mem)
      ensures Hands(old(blocks), large, blocks, large, p, size)
      ensures p.Got? ==> |blocks| == old(|blocks|) + (if CanServe(old(blocks), size, from) then 0 else 1)
      decreases if CanServe(blocks, size, from) then 0 else 1, 0
    {
      if MallocUnits(size) > alignMax {
        return Nothing;
      }
      var i, found, a := FindBlock(size, from);
      if found {
        p := Got(SplitAt(blocks[i], a, size) + UNIT);
        ghost var at := SplitAt(blocks[i], a, size);
        Serve(i, a, size);
        HandsBack(old(blocks), large, blocks, large, p, at, size);
      } else {
        p := MallocBlock(size, mem);
      }
    }

    /** Handing out a part of a free chunk. */
    method Serve(i: nat, a: int, size: nat)
      requires Ok() && i < |blocks| && Fits(blocks[i], a, size)
      modifies this`blocks
      ensures Ok() && Adds(old(blocks), large, blocks, large, old(SplitAt(blocks[i], a, size)), size)
      ensures |blocks| == old(|blocks|)
    {
      ServeOk(blocks, large, blockSize, alignMax, totleSize, i, a, size);
      blocks := blocks[i := Split(blocks[i], a, size)];
    }

    /** `mallocBlock`: the new block is as large as the first and has the smaller header, so the
        request fits and the recursion ends. */
    method MallocBlock(size: nat, mem: Memory) returns (p: Memory)
      requires Ok() && Room(blocks, large, mem, blockSize) && MallocUnits(size) <= alignMax
      modifies this
      ensures Ok() && large == old(large) && blockSize == old(blockSize) && alignMax == old(alignMax)
      ensures Hands(old(blocks), large, blocks, large, p, size)
      ensures p.Got? ==> |blocks| == old(|blocks|) + 1
      ensures mem.Got? <==> p.Got?
      decreases 0, 1
    {
      if mem.Nothing? {
        return Nothing;
      }
      ghost var b := AddBlock(mem.at);
      assert Fits(blocks[|blocks| - 1], b.head, size);
      p := DoMalloc(size, |blocks| - 1, Nothing);
      EmptyHands(old(blocks), b, large, blocks, p, size);
    }

    method AddBlock(at: int) returns (ghost added: Block)
      requires Ok() && Room(blocks, large, Got(at), blockSize)
      modifies this`blocks, this`totleSize
      ensures Ok() && blocks == old(blocks) + [added] && Live(added) == map[]
      ensures added.head in added.chunks && added.head in added.free && added.chunks[added.head].alignSize >= alignMax
    {
      var size := blocks[0].end - blocks[0].first;
      AddBlockOk(blocks, large, blockSize, alignMax, totleSize, at);
      var b := Fresh(at, at + size, at + BLOCK_HEAD);
      blocks := blocks + [b];
      totleSize := totleSize + size;
      added := b;
    }

    /** `mallocLarge` */
    method MallocLarge(size: nat, mem: Memory) returns (p: Memory)
      requires Ok() && Room(blocks, large, mem, UNIT + size)
      modifies this`large, this`totleSize
      ensures Ok()
      ensures p == if mem.Got? then Got(mem.at + UNIT) else Nothing
      ensures Hands(blocks, old(large), blocks, large, p, size)
      ensures large == old(large) + (if mem.Got? then [Large(mem.at, size)] else [])
    {
      if mem.Nothing? {
        return Nothing;
      }
      AddLargeOk(blocks, large, blockSize, alignMax, totleSize, mem.at, size);
      large := large + [Large(mem.at, size)];
      totleSize := totleSize + size + UNIT;
      p := Got(mem.at + UNIT);
      HandsBack(blocks, old(large), blocks, large, p, mem.at, size);
    }

    /** `malloc` succeeds in the blocks if the request is small enough for a block, and one has room or the
        system gives memory for a new one, which is asked for only if none has room.  Otherwise, and only
        then, it becomes a large allocation, if the system gives memory for that. */
    method Malloc(size: nat, mem: Memory, mem2: Memory) returns (p: Memory)
      requires Ok() && Room(blocks, large, mem, blockSize) && Room(blocks, large, mem2, UNIT + size)
      modifies this
      ensures Ok() && blockSize == old(blockSize) && alignMax == old(alignMax)
      ensures Hands(old(blocks), old(large), blocks, large, p, size)
      ensures FromBlock(old(blocks), alignMax, size, 0, mem) ==>
        && p.Got? && large == old(large) && InBlocks(blocks, p.at - UNIT, size)
        && |blocks| == old(|blocks|) + (if CanServe(old(blocks), size, 0) then 0 else 1)
      ensures !FromBlock(old(blocks), alignMax, size, 0, mem) ==>
        && blocks == old(blocks) && (p.Got? <==> mem2.Got?)
        && (p.Got? ==> p.at == mem2.at + UNIT && large == old(large) + [Large(mem2.at, size)])
    {
      p := DoMalloc(size, 0, mem);
      if p.Nothing? {
        p := MallocLarge(size, mem2);
      } else {
        HandsInBlocks(old(blocks), large, blocks, p, size);
      }
    }

    /** `free` of what `malloc` returned, of a null pointer, or of a chunk already free. */
    method Free(p: int) returns (ok: bool)
      requires Ok()
      requires p == 0 || Taken(blocks, large, p - UNIT) || FreeHeader(blocks, large, p - UNIT)
      modifies this`blocks, this`large, this`totleSize
      ensures Ok()
      ensures ok <==> p != 0 && old(Taken(blocks, large, p - UNIT))
      ensures ok ==> Removes(old(blocks), old(large), blocks, large, p - UNIT)
      ensures !ok ==> blocks == old(blocks) && large == old(large)
    {
      if p == 0 {
        return false;
      }
      var node := p - UNIT;
      var k := LargeAt(large, node);
      if k < |large| {
        DropLarge(blocks, large, blockSize, alignMax, k);
        totleSize := totleSize - (large[k].size + UNIT);
        large := large[..k] + large[k + 1..];
        return true;
      }
      ok := FreeChunk(node);
    }

    /** The loop of `free` over the blocks. */
    method FreeChunk(node: int) returns (ok: bool)
      requires Ok() && exists i :: 0 <= i < |blocks| && node in blocks[i].chunks
      requires forall k :: 0 <= k < |large| ==> large[k].at != node
      modifies this`blocks
      ensures Ok()
      ensures ok <==> old(Taken(blocks, large, node))
      ensures ok ==> Removes(old(blocks), large, blocks, large, node)
      ensures !ok ==> blocks == old(blocks)
    {
      ghost var at :| 0 <= at < |blocks| && node in blocks[at].chunks;
      ChunkInside(blocks[at], node);
      var i := 0;
      while !(blocks[i].first < node < blocks[i].end)
        invariant 0 <= i <= at
        modifies {}
        decreases at - i
      {
        i := i + 1;
      }
      OneBlock(blocks, large, blockSize, alignMax, at, i, node);
      if blocks[i].chunks[node].isFree {
        return false;
      }
      ReleaseOk(blocks, large, blockSize, alignMax, totleSize, i, node);
      blocks := blocks[i := Release(blocks[i], node)];
      return true;
    }
  }

  /** When nothing is in use, every block is one free chunk of its original size. */
  lemma EverythingFreed(blocks: seq<Block>, large: seq<Large>, size: nat, max: int, i: nat)
    requires BlocksOk(blocks, size, max) && i < |blocks| && forall a, n: nat :: !InUse(blocks, large, a, n)
    ensures var b := blocks[i];
      b.chain == [b.head] == b.free && b.used == [] && b.head in b.chunks && b.chunks[b.head].isFree
      && b.chunks[b.head].alignSize == Capacity(b)
  {
    var b := blocks[i];
    forall a | a in Live(b) ensures false { LiveInUse(blocks, large, i, a); }
    assert Live(b) == map[];
    AllFreed(b);
  }

  lemma LiveInUse(blocks: seq<Block>, large: seq<Large>, i: nat, a: int)
    requires i < |blocks| && a in Live(blocks[i])
    ensures InUse(blocks, large, a, Live(blocks[i])[a])
  {
    assert HasLive(blocks[i], a, Live(blocks[i])[a]);
  }

  /** From one state to the next, exactly the chunk at `a` is no longer in use. */
  ghost predicate Removes(blocks: seq<Block>, large: seq<Large>, blocks': seq<Block>, large': seq<Large>, a: int) {
    forall x: int, m: nat :: InUse(blocks', large', x, m) <==> InUse(blocks, large, x, m) && x != a
  }

  /** The header of a chunk that is free. */
  ghost predicate FreeHeader(blocks: seq<Block>, large: seq<Large>, a: int) {
    && (exists i :: 0 <= i < |blocks| && a in blocks[i].chunks && blocks[i].chunks[a].isFree)
    && forall k :: 0 <= k < |large| ==> large[k].at != a
  }

  /** Index of the large allocation at `a`, told by its flag. */
  function LargeAt(large: seq<Large>, a: int): (k: nat)
    ensures k <= |large| && (k < |large| ==> large[k].at == a)
    ensures k == |large| ==> forall z :: 0 <= z < |large| ==> large[z].at != a
  {
    if large == [] then 0 else if large[0].at == a then 0 else 1 + LargeAt(large[1..], a)
  }

  lemma ChunkInside(b: Block, a: int)
    requires Valid(b) && a in b.chunks && b.end - b.head > UNIT
    ensures b.head <= a < b.end
  {
    var k := IndexOf(b.chain, a);
    assert Meets(b, k);
    if k > 0 { Order(b, 0, k); }
    var last := |b.chain| - 1;
    if k < last { Order(b, k, last); }
    assert Meets(b, 0) && Meets(b, last);
  }

  /** A chunk is in one block only. */
  lemma OneBlock(blocks: seq<Block>, large: seq<Large>, size: nat, max: int, at: nat, i: nat, a: int)
    requires BlocksOk(blocks, size, max) && LargeOk(blocks, large) && at < |blocks| && i < |blocks|
    requires a in blocks[at].chunks && blocks[i].first < a < blocks[i].end
    requires forall k :: 0 <= k < |large| ==> large[k].at != a
    ensures i == at
    ensures blocks[i].chunks[a].isFree ==> forall m: nat :: !InUse(blocks, large, a, m)
  {
    assert i != at ==> Clear(blocks[if i < at then i else at], blocks[if i < at then at else i].first, size);
    ChunkInside(blocks[at], a);
    if blocks[at].chunks[a].isFree {
      forall m: nat ensures !InUse(blocks, large, a, m) { NotElsewhere(blocks, large, size, max, at, a, 0, m); }
    }
  }

  lemma ReleaseBlocks(blocks: seq<Block>, large: seq<Large>, size: nat, max: int, i: nat, a: int)
    requires BlocksOk(blocks, size, max) && LargeOk(blocks, large) && i < |blocks|
    requires a in blocks[i].chunks && !blocks[i].chunks[a].isFree
    ensures a in blocks[i].chain
    ensures var blocks' := blocks[i := Release(blocks[i], a)]; BlocksOk(blocks', size, max) && LargeOk(blocks', large)
  {
    var b := blocks[i];
    assert a in b.used;
    ReleaseValid(b, a);
    var blocks' := blocks[i := Release(b, a)];
    forall x, y | 0 <= x < y < |blocks'| ensures Clear(blocks'[x], blocks'[y].first, size) {
      assert Clear(blocks[x], blocks[y].first, size);
    }
    forall x, k | 0 <= x < |blocks'| && 0 <= k < |large| ensures Clear(blocks'[x], large[k].at, UNIT + large[k].size) {
      assert Clear(blocks[x], large[k].at, UNIT + large[k].size);
    }
  }

  lemma ReleaseRemoves(blocks: seq<Block>, large: seq<Large>, size: nat, max: int, i: nat, a: int)
    requires BlocksOk(blocks, size, max) && LargeOk(blocks, large) && i < |blocks|
    requires a in blocks[i].chunks && !blocks[i].chunks[a].isFree && a in blocks[i].chain
    ensures Removes(blocks, large, blocks[i := Release(blocks[i], a)], large, a)
  {
    var b, b' := blocks[i], Release(blocks[i], a);
    assert a in b.used;
    ReleaseLive(b, a);
    ReleaseBlocks(blocks, large, size, max, i, a);
    ChunkInside(b, a);
    forall x: int, m: nat ensures InUse(blocks[i := b'], large, x, m) <==> InUse(blocks, large, x, m) && x != a {
      SetBlock(blocks, large, i, b', x, m);
      assert HasLive(b', x, m) <==> HasLive(b, x, m) && x != a;
      if x == a { NotElsewhere(blocks[i := b'], large, size, max, i, a, 0, m); }
    }
  }

  /** A large allocation in memory of its own. */
  lemma NewLarge(blocks: seq<Block>, large: seq<Large>, size: nat, max: int, at: int, n: nat)
    requires BlocksOk(blocks, size, max) && LargeOk(blocks, large) && Room(blocks, large, Got(at), UNIT + n)
    ensures LargeOk(blocks, large + [Large(at, n)]) && Adds(blocks, large, blocks, large + [Large(at, n)], at, n)
  {
    var large' := large + [Large(at, n)];
    forall m: nat ensures !InUse(blocks, large, at, m) {
      forall i | 0 <= i < |blocks| ensures !HasLive(blocks[i], at, m) {
        assert Clear(blocks[i], at, UNIT + n);
        if HasLive(blocks[i], at, m) { PayloadInside(blocks[i], at); }
      }
    }
    forall x: int, m: nat ensures InUse(blocks, large', x, m) <==> InUse(blocks, large, x, m) || (x == at && m == n) {
      if k :| 0 <= k < |large| && large[k] == Large(x, m) { assert large'[k] == large[k]; }
      assert large'[|large|] == Large(at, n);
    }
  }

  lemma DropLarge(blocks: seq<Block>, large: seq<Large>, size: nat, max: int, k: nat)
    requires BlocksOk(blocks, size, max) && LargeOk(blocks, large) && k < |large|
    ensures var large' := large[..k] + large[k + 1..];
      && LargeOk(blocks, large') && Removes(blocks, large, blocks, large', large[k].at)
      && LargeTotal(large') == LargeTotal(large) - (large[k].size + UNIT)
    ensures InUse(blocks, large, large[k].at, large[k].size)
  {
    var large', a := large[..k] + large[k + 1..], large[k].at;
    TotalDrop(large, k);
    forall x: int, m: nat ensures InUse(blocks, large', x, m) <==> InUse(blocks, large, x, m) && x != a {
      DropUse(blocks, large, size, max, k, x, m);
    }
  }

  lemma DropUse(blocks: seq<Block>, large: seq<Large>, size: nat, max: int, k: nat, x: int, m: nat)
    requires BlocksOk(blocks, size, max) && LargeOk(blocks, large) && k < |large|
    ensures InUse(blocks, large[..k] + large[k + 1..], x, m) <==> InUse(blocks, large, x, m) && x != large[k].at
  {
    var large' := large[..k] + large[k + 1..];
    if j :| 0 <= j < |large| && j != k && large[j] == Large(x, m) {
      assert large'[if j < k then j else j - 1] == large[j];
      assert Apart(large[if j < k then j else k].at, UNIT + large[if j < k then j else k].size,
                   large[if j < k then k else j].at, UNIT + large[if j < k then k else j].size);
    }
    if x == large[k].at {
      forall i | 0 <= i < |blocks| ensures !HasLive(blocks[i], x, m) {
        assert Clear(blocks[i], x, UNIT + large[k].size);
        if HasLive(blocks[i], x, m) { PayloadInside(blocks[i], x); }
      }
    }
    assert forall j :: 0 <= j < |large'| ==> large'[j] == large[if j < k then j else j + 1];
  }

  lemma {:induction false} TotalDrop(large: seq<Large>, k: nat)
    requires k < |large|
    ensures LargeTotal(large[..k] + large[k + 1..]) == LargeTotal(large) - (large[k].size + UNIT)
    decreases |large|
  {
    var n, large' := |large| - 1, large[..k] + large[k + 1..];
    if k == n {
      assert large' == large[..n];
    } else {
      assert large'[..n - 1] == large[..n][..k] + large[..n][k + 1..];
      TotalDrop(large[..n], k);
    }
  }

  /** A new block with nothing in use. */
  lemma NewBlock(blocks: seq<Block>, large: seq<Large>, size: nat, max: int, at: int)
    requires BlocksOk(blocks, size, max) && LargeOk(blocks, large) && Room(blocks, large, Got(at), size)
    requires blocks != [] && max == Capacity(blocks[0]) && blocks[0].head == blocks[0].first + POOL_HEAD
    ensures var b := Fresh(at, at + size, at + BLOCK_HEAD);
      && BlocksOk(blocks + [b], size, max) && LargeOk(blocks + [b], large)
      && Live(b) == map[] && b.head in b.free && b.chunks[b.head].alignSize >= max
  {
    var b := Fresh(at, at + size, at + BLOCK_HEAD);
    FreshValid(at, at + size, at + BLOCK_HEAD);
    assert Placed(blocks[0], size, max);
    assert Placed(b, size, max);
    forall i, k | 0 <= i < |blocks + [b]| && 0 <= k < |large|
      ensures Clear((blocks + [b])[i], large[k].at, UNIT + large[k].size)
    {
      if i < |blocks| { assert Clear(blocks[i], large[k].at, UNIT + large[k].size); }
    }
  }

  /** What is added behind an empty block is added. */
  lemma EmptyAdds(blocks: seq<Block>, b: Block, large: seq<Large>, blocks': seq<Block>, a: int, n: nat)
    requires Live(b) == map[] && Adds(blocks + [b], large, blocks', large, a, n)
    ensures Adds(blocks, large, blocks', large, a, n)
  {
    forall x: int, m: nat ensures InUse(blocks + [b], large, x, m) <==> InUse(blocks, large, x, m) {
      if i :| 0 <= i < |blocks| && HasLive(blocks[i], x, m) { assert (blocks + [b])[i] == blocks[i]; }
    }
  }

  lemma EmptyHands(blocks: seq<Block>, b: Block, large: seq<Large>, blocks': seq<Block>, p: Memory, n: nat)
    requires Live(b) == map[] && p.Got? && Hands(blocks + [b], large, blocks', large, p, n)
    ensures Hands(blocks, large, blocks', large, p, n)
  {
    EmptyAdds(blocks, b, large, blocks', p.at - UNIT, n);
  }

  // ---------- what each operation keeps ----------

  lemma AddBlockOk(blocks: seq<Block>, large: seq<Large>, size: nat, max: int, total: int, at: int)
    requires PoolOk(blocks, large, size, max, total) && Room(blocks, large, Got(at), size)
    ensures blocks[0].end - blocks[0].first == size
    ensures var b := Fresh(at, at + size, at + BLOCK_HEAD);
      && PoolOk(blocks + [b], large, size, max, total + size)
      && Live(b) == map[] && b.head in b.chunks && b.head in b.free && b.chunks[b.head].alignSize >= max
  {
    NewBlock(blocks, large, size, max, at);
    assert Placed(blocks[0], size, max);
    FreshValid(at, at + size, at + BLOCK_HEAD);
  }

  lemma AddLargeOk(blocks: seq<Block>, large: seq<Large>, size: nat, max: int, total: int, at: int, n: nat)
    requires PoolOk(blocks, large, size, max, total) && Room(blocks, large, Got(at), UNIT + n)
    ensures PoolOk(blocks, large + [Large(at, n)], size, max, total + n + UNIT)
    ensures Adds(blocks, large, blocks, large + [Large(at, n)], at, n)
  {
    NewLarge(blocks, large, size, max, at, n);
    assert (large + [Large(at, n)])[..|large|] == large;
  }

  lemma ServeOk(blocks: seq<Block>, large: seq<Large>, size: nat, max: int, total: int, i: nat, a: int, n: nat)
    requires PoolOk(blocks, large, size, max, total) && i < |blocks| && Fits(blocks[i], a, n)
    ensures PoolOk(blocks[i := Split(blocks[i], a, n)], large, size, max, total)
    ensures Adds(blocks, large, blocks[i := Split(blocks[i], a, n)], large, SplitAt(blocks[i], a, n), n)
  {
    SplitBlocks(blocks, large, size, max, i, a, n);
    SplitAdds(blocks, large, size, max, i, a, n);
  }

  lemma ReleaseOk(blocks: seq<Block>, large: seq<Large>, size: nat, max: int, total: int, i: nat, a: int)
    requires PoolOk(blocks, large, size, max, total) && i < |blocks|
    requires a in blocks[i].chunks && !blocks[i].chunks[a].isFree
    ensures a in blocks[i].chain && Taken(blocks, large, a)
    ensures PoolOk(blocks[i := Release(blocks[i], a)], large, size, max, total)
    ensures Removes(blocks, large, blocks[i := Release(blocks[i], a)], large, a)
  {
    ReleaseBlocks(blocks, large, size, max, i, a);
    ReleaseRemoves(blocks, large, size, max, i, a);
    assert HasLive(blocks[i], a, blocks[i].chunks[a].size);
    assert InUse(blocks, large, a, blocks[i].chunks[a].size);
  }
}
