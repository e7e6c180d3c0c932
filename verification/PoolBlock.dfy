/** One block of the pool of skpMallocPoolEx.cpp: chunks that tile the block, split on malloc and
    coalesced on free.  Addresses are numbers of bytes; the three lists of a block are sequences of
    chunk addresses. */
module PoolBlock {
  import opened PoolQueue

  /** `sizeof(skp_pool_align_head_t)` */
  const UNIT := 64

  /** `SKP_ALIGN_SIZE_EX` and `SKP_ALIGN_MALLOC_SIZE_EX` */
  function Units(size: nat): nat { (size + UNIT - 1) / UNIT }
  function MallocUnits(size: nat): nat { Units(size) + 1 }

  /** A chunk header: `alignSize` counts units, the header's own included. */
  datatype Chunk = Chunk(isFree: bool, alignSize: nat, size: nat)

  datatype Block = Block(
    first: int, end: int, head: int, chunks: map<int, Chunk>, free: seq<int>, used: seq<int>, chain: seq<int>)

  /** Units of the one chunk a fresh block consists of. */
  function Capacity(b: Block): int { (b.end - b.head + UNIT - 1) / UNIT - 1 }

  function Fresh(first: int, end: int, head: int): Block {
    var units := (end - head + UNIT - 1) / UNIT - 1;
    Block(first, end, head, map[head := Chunk(true, if units < 0 then 0 else units, if units < 0 then 0 else units * UNIT)],
          [head], [], [head])
  }

  // ---------- the invariant ----------

  /** The address behind chunk `a`. */
  function After(b: Block, a: int): int
    requires a in b.chunks
  {
    a + UNIT * b.chunks[a].alignSize
  }

  /** Where the `k`-th chunk of the chain ends: at the next one, or at the end of the block. */
  ghost predicate Meets(b: Block, k: int)
    requires 0 <= k < |b.chain|
  {
    var a := b.chain[k];
    && a in b.chunks && b.chunks[a].alignSize >= 1
    && After(b, a) == if k + 1 < |b.chain| then b.chain[k + 1] else b.head + UNIT * Capacity(b)
  }

  /** The chain tiles the block exactly. */
  ghost predicate Tiles(b: Block) {
    && b.chain != [] && b.chain[0] == b.head && Distinct(b.chain)
    && (forall k :: 0 <= k < |b.chain| ==> Meets(b, k))
    && (forall a :: a in b.chunks ==> a in b.chain)
  }

  /** The free list and the malloc list partition the chunks. */
  ghost predicate Lists(b: Block) {
    && Distinct(b.free) && Distinct(b.used)
    && (forall a :: a in b.free <==> a in b.chunks && b.chunks[a].isFree)
    && (forall a :: a in b.used <==> a in b.chunks && !b.chunks[a].isFree)
  }

  ghost predicate IsFree(b: Block, k: int) {
    0 <= k < |b.chain| && b.chain[k] in b.chunks && b.chunks[b.chain[k]].isFree
  }

  /** No two neighbours are both free, except perhaps the pairs from `lo` up to `hi`. */
  ghost predicate Coalesced(b: Block, lo: int, hi: int) {
    forall k :: !(lo <= k < hi) && IsFree(b, k) ==> !IsFree(b, k + 1)
  }

  /** What is handed out is as large as was asked for. */
  ghost predicate Sized(b: Block) {
    forall a :: a in b.chunks && !b.chunks[a].isFree ==> b.chunks[a].alignSize == MallocUnits(b.chunks[a].size)
  }

  ghost predicate Valid(b: Block) { Tiles(b) && Lists(b) && Coalesced(b, 0, 0) && Sized(b) }

  lemma FreshValid(first: int, end: int, head: int)
    requires end - head > UNIT
    ensures Valid(Fresh(first, end, head)) && Capacity(Fresh(first, end, head)) >= 1
  {
  }

  // ---------- lists ----------

  function IndexOf(s: seq<int>, a: int): (k: nat)
    requires a in s
    ensures k < |s| && s[k] == a
  {
    if s[0] == a then 0 else 1 + IndexOf(s[1..], a)
  }

  /** `QUEUE_REMOVE` */
  function Without(s: seq<int>, a: int): seq<int> { if a in s then RemoveAt(s, IndexOf(s, a)) else s }

  lemma RemoveDistinct(s: seq<int>, k: nat)
    requires Distinct(s) && k < |s|
    ensures Distinct(RemoveAt(s, k)) && forall x :: x in RemoveAt(s, k) <==> x in s && x != s[k]
  {
    var r := RemoveAt(s, k);
    forall x | x in s && x != s[k] ensures x in r {
      var i :| 0 <= i < |s| && s[i] == x;
      assert r[if i < k then i else i - 1] == x;
    }
  }

  lemma InsertDistinct(s: seq<int>, k: nat, y: int)
    requires Distinct(s) && k <= |s| && y !in s
    ensures Distinct(InsertAt(s, k, y)) && forall x :: x in InsertAt(s, k, y) <==> x in s || x == y
  {
    var r := InsertAt(s, k, y);
    forall i, j | 0 <= i < j < |r| ensures r[i] != r[j] {
      Position(s, k, y, i);
      Position(s, k, y, j);
    }
    forall x | x in s ensures x in r {
      var i :| 0 <= i < |s| && s[i] == x;
      assert r[if i < k then i else i + 1] == x;
    }
    assert r[k] == y;
  }

  // ---------- malloc ----------

  /** The part of `doMalloc` that serves a request from the free chunk `a`, from its end. */
  function Split(b: Block, a: int, size: nat): Block
    requires a in b.chunks && a in b.chain
  {
    var need, c := MallocUnits(size), b.chunks[a];
    var at := a + UNIT * (c.alignSize - need);
    if at == a then
      b.(chunks := b.chunks[a := Chunk(false, need, size)], free := Without(b.free, a), used := b.used + [a])
    else
      var left := if c.alignSize < need then 0 else c.alignSize - need;
      b.(chunks := b.chunks[a := c.(alignSize := left)][at := Chunk(false, need, size)],
         free := Without(b.free, a) + [a], used := b.used + [at],
         chain := InsertAt(b.chain, IndexOf(b.chain, a) + 1, at))
  }

  /** The address of the chunk that `Split` hands out. */
  function SplitAt(b: Block, a: int, size: nat): int
    requires a in b.chunks
  {
    a + UNIT * (b.chunks[a].alignSize - MallocUnits(size))
  }

  ghost predicate Serves(b: Block, a: int, size: nat) {
    Valid(b) && a in b.free && a in b.chunks && b.chunks[a].alignSize >= MallocUnits(size)
  }

  /** Every chunk ends before the next ones begin. */
  lemma {:induction false} Order(b: Block, i: int, j: int)
    requires Tiles(b) && 0 <= i < j < |b.chain|
    ensures b.chain[i] in b.chunks && b.chain[j] in b.chunks && After(b, b.chain[i]) <= b.chain[j]
    decreases j - i
  {
    assert Meets(b, i) && Meets(b, j);
    if i + 1 < j {
      Order(b, i + 1, j);
      assert Meets(b, i + 1);
    }
  }

  /** An address inside a chunk is not that of another chunk. */
  lemma InsideNew(b: Block, a: int, x: int)
    requires Tiles(b) && a in b.chunks && a < x < After(b, a)
    ensures x !in b.chunks && x !in b.chain
  {
    var i := IndexOf(b.chain, a);
    if x in b.chain {
      var j := IndexOf(b.chain, x);
      if i < j { Order(b, i, j); } else if j < i { Order(b, j, i); }
    }
  }

  lemma SplitMeets(b: Block, a: int, size: nat, z: nat)
    requires Serves(b, a, size) && SplitAt(b, a, size) != a && z <= |b.chain|
    ensures Meets(Split(b, a, size), z)
  {
    var b', k, at := Split(b, a, size), IndexOf(b.chain, a), SplitAt(b, a, size);
    InsideNew(b, a, at);
    assert Meets(b, k);
    Position(b.chain, k + 1, at, z);
    if z < |b.chain| { Position(b.chain, k + 1, at, z + 1); }
    if z < k {
      assert Meets(b, z);
    } else if z > k + 1 {
      assert Meets(b, z - 1);
    }
  }

  lemma SplitTiles(b: Block, a: int, size: nat)
    requires Serves(b, a, size)
    ensures Tiles(Split(b, a, size))
  {
    if SplitAt(b, a, size) == a { WholeTiles(b, a, size); } else { PartTiles(b, a, size); }
  }

  lemma WholeTiles(b: Block, a: int, size: nat)
    requires Serves(b, a, size) && SplitAt(b, a, size) == a
    ensures Tiles(Split(b, a, size))
  {
    var b' := Split(b, a, size);
    forall z | 0 <= z < |b'.chain| ensures Meets(b', z) { assert Meets(b, z); }
  }

  lemma PartTiles(b: Block, a: int, size: nat)
    requires Serves(b, a, size) && SplitAt(b, a, size) != a
    ensures Tiles(Split(b, a, size))
  {
    var b', k, at := Split(b, a, size), IndexOf(b.chain, a), SplitAt(b, a, size);
    assert Meets(b, k);
    InsideNew(b, a, at);
    InsertDistinct(b.chain, k + 1, at);
    forall z | 0 <= z < |b'.chain| ensures Meets(b', z) { SplitMeets(b, a, size, z); }
    Position(b.chain, k + 1, at, 0);
  }

  lemma SplitLists(b: Block, a: int, size: nat)
    requires Serves(b, a, size)
    ensures Lists(Split(b, a, size)) && Sized(Split(b, a, size))
  {
    var at := SplitAt(b, a, size);
    if at != a { InsideNew(b, a, at); }
    RemoveDistinct(b.free, IndexOf(b.free, a));
    InsertDistinct(b.used, |b.used|, at);
    assert InsertAt(b.used, |b.used|, at) == b.used + [at];
    var less := Without(b.free, a);
    InsertDistinct(less, |less|, a);
    assert InsertAt(less, |less|, a) == less + [a];
  }

  lemma SplitCoalesced(b: Block, a: int, size: nat)
    requires Serves(b, a, size)
    ensures Coalesced(Split(b, a, size), 0, 0)
  {
    var b', at := Split(b, a, size), SplitAt(b, a, size);
    if at == a {
      forall z | IsFree(b', z) ensures !IsFree(b', z + 1) { assert IsFree(b, z) && !IsFree(b, z + 1); }
    } else {
      forall z | IsFree(b', z) ensures !IsFree(b', z + 1) { SplitFree(b, a, size, z); }
    }
  }

  lemma SplitFree(b: Block, a: int, size: nat, z: int)
    requires Serves(b, a, size) && SplitAt(b, a, size) != a && IsFree(Split(b, a, size), z)
    ensures !IsFree(Split(b, a, size), z + 1)
  {
    var b', k, at := Split(b, a, size), IndexOf(b.chain, a), SplitAt(b, a, size);
    assert Meets(b, k);
    InsideNew(b, a, at);
    Position(b.chain, k + 1, at, z);
    if z + 1 < |b'.chain| { Position(b.chain, k + 1, at, z + 1); }
    if z < k {
      assert IsFree(b, z) && !IsFree(b, z + 1);
    } else if z > k + 1 {
      assert IsFree(b, z - 1) && !IsFree(b, z);
    }
  }

  lemma SplitValid(b: Block, a: int, size: nat)
    requires Serves(b, a, size)
    ensures Valid(Split(b, a, size))
  {
    SplitTiles(b, a, size);
    SplitLists(b, a, size);
    SplitCoalesced(b, a, size);
  }

  // ---------- free ----------

  /** The node goes from the malloc list to the free list. */
  function Freed(b: Block, a: int): Block
    requires a in b.chunks
  {
    b.(chunks := b.chunks[a := b.chunks[a].(isFree := true)], used := Without(b.used, a), free := b.free + [a])
  }

  /** The `k`-th chunk takes in the one behind it. */
  function Merge(b: Block, k: nat): Block
    requires k + 1 < |b.chain| && b.chain[k] in b.chunks && b.chain[k + 1] in b.chunks
  {
    var a, n := b.chain[k], b.chain[k + 1];
    var units := b.chunks[a].alignSize + b.chunks[n].alignSize;
    b.(chunks := (b.chunks - {n})[a := b.chunks[a].(alignSize := units, size := units * UNIT)],
       free := Without(b.free, n), chain := RemoveAt(b.chain, k + 1))
  }

  predicate FreeAt(b: Block, k: int) { 0 <= k < |b.chain| && b.chain[k] in b.chunks && b.chunks[b.chain[k]].isFree }

  /** `free` inside its block: coalesce with the next chunk, then with the previous one. */
  function Release(b: Block, a: int): Block
    requires a in b.chunks && a in b.chain
  {
    var k := IndexOf(b.chain, a);
    MergeFree(MergeFree(Freed(b, a), k), k - 1)
  }

  /** Coalesce the `k`-th chunk and the next one, if both are free. */
  function MergeFree(b: Block, k: int): Block {
    if FreeAt(b, k) && FreeAt(b, k + 1) then Merge(b, k) else b
  }

  /** All of the invariant but coalescing. */
  ghost predicate Sound(b: Block) { Tiles(b) && Lists(b) && Sized(b) }

  lemma FreedSound(b: Block, a: int)
    requires Valid(b) && a in b.used
    ensures Sound(Freed(b, a))
    ensures var k: int := IndexOf(b.chain, a); IsFree(Freed(b, a), k) && Coalesced(Freed(b, a), k - 1, k + 1)
  {
    var b' := Freed(b, a);
    var k: int := IndexOf(b.chain, a);
    RemoveDistinct(b.used, IndexOf(b.used, a));
    InsertDistinct(b.free, |b.free|, a);
    assert InsertAt(b.free, |b.free|, a) == b.free + [a];
    forall z | 0 <= z < |b'.chain| ensures Meets(b', z) { assert Meets(b, z); }
    forall z | !(k - 1 <= z < k + 1) && IsFree(b', z) ensures !IsFree(b', z + 1) {
      assert IsFree(b, z) && !IsFree(b, z + 1);
    }
  }

  lemma MergeMeets(b: Block, k: nat, z: nat)
    requires Sound(b) && IsFree(b, k) && IsFree(b, k + 1) && z < |b.chain| - 1
    ensures Meets(Merge(b, k), z)
  {
    assert Meets(b, k) && Meets(b, k + 1);
    if z < k {
      assert Meets(b, z);
    } else if z > k {
      assert Meets(b, z + 1);
    }
  }

  lemma MergeSound(b: Block, k: nat)
    requires Sound(b) && IsFree(b, k) && IsFree(b, k + 1)
    ensures Sound(Merge(b, k))
  {
    var b' := Merge(b, k);
    assert Meets(b, k) && Meets(b, k + 1);
    RemoveDistinct(b.chain, k + 1);
    RemoveDistinct(b.free, IndexOf(b.free, b.chain[k + 1]));
    forall z | 0 <= z < |b'.chain| ensures Meets(b', z) { MergeMeets(b, k, z); }
  }

  lemma MergeCoalesced(b: Block, k: nat, lo: int)
    requires Sound(b) && IsFree(b, k) && IsFree(b, k + 1) && lo <= k && Coalesced(b, lo, k + 1)
    ensures IsFree(Merge(b, k), k) && Coalesced(Merge(b, k), lo, k)
  {
    var b' := Merge(b, k);
    assert Meets(b, k) && Meets(b, k + 1);
    forall z | !(lo <= z < k) && IsFree(b', z) ensures !IsFree(b', z + 1) {
      if z < k {
        assert IsFree(b, z) && !IsFree(b, z + 1);
      } else {
        assert IsFree(b, z + 1) && !IsFree(b, z + 2);
      }
    }
  }

  lemma MergeFreeKeeps(b: Block, k: int, lo: int)
    requires Sound(b) && lo <= k && Coalesced(b, lo, k + 1)
    ensures Sound(MergeFree(b, k)) && Coalesced(MergeFree(b, k), lo, k)
  {
    if IsFree(b, k) && IsFree(b, k + 1) {
      MergeSound(b, k);
      MergeCoalesced(b, k, lo);
    }
  }

  lemma ReleaseValid(b: Block, a: int)
    requires Valid(b) && a in b.used
    ensures Valid(Release(b, a))
  {
    var k: int, b1 := IndexOf(b.chain, a), Freed(b, a);
    FreedSound(b, a);
    MergeFreeKeeps(b1, k, k - 1);
    MergeFreeKeeps(MergeFree(b1, k), k - 1, k - 1);
  }

  // ---------- what is live ----------

  /** The chunks handed out, with the sizes asked for. */
  function Live(b: Block): map<int, nat> {
    map a | a in b.chunks && !b.chunks[a].isFree :: b.chunks[a].size
  }

  /** Malloc adds one live chunk, inside what was free, and changes no other. */
  lemma SplitLive(b: Block, a: int, size: nat)
    requires Serves(b, a, size)
    ensures SplitAt(b, a, size) !in Live(b) && Live(Split(b, a, size)) == Live(b)[SplitAt(b, a, size) := size]
  {
    var at := SplitAt(b, a, size);
    if at != a { InsideNew(b, a, at); }
  }

  /** Free removes one live chunk and changes no other. */
  lemma ReleaseLive(b: Block, a: int)
    requires Valid(b) && a in b.used
    ensures Live(Release(b, a)) == Live(b) - {a}
  {
    var k: int, b1 := IndexOf(b.chain, a), Freed(b, a);
    FreedSound(b, a);
    assert Live(b1) == Live(b) - {a};
    MergeFreeLive(b1, k);
    MergeFreeKeeps(b1, k, k - 1);
    MergeFreeLive(MergeFree(b1, k), k - 1);
  }

  lemma MergeFreeLive(b: Block, k: int)
    requires Sound(b)
    ensures Live(MergeFree(b, k)) == Live(b)
  {
    if IsFree(b, k) && IsFree(b, k + 1) { MergeLive(b, k); }
  }

  lemma MergeLive(b: Block, k: nat)
    requires Sound(b) && IsFree(b, k) && IsFree(b, k + 1)
    ensures Live(Merge(b, k)) == Live(b)
  {
  }

  /** The bytes handed out with a live chunk lie inside it, and inside the block. */
  lemma PayloadInside(b: Block, a: int)
    requires Valid(b) && a in Live(b) && b.end - b.head > UNIT
    ensures b.head <= a && a + UNIT + Live(b)[a] <= After(b, a) <= b.end
  {
    var k := IndexOf(b.chain, a);
    assert Meets(b, k);
    if k > 0 { Order(b, 0, k); assert Meets(b, 0); }
    var last := |b.chain| - 1;
    if k < last { Order(b, k, last); }
    assert Meets(b, last);
  }

  /** Two live chunks do not overlap. */
  lemma PayloadsDisjoint(b: Block, a: int, a': int)
    requires Valid(b) && a in Live(b) && a' in Live(b) && a != a'
    ensures After(b, a) <= a' || After(b, a') <= a
  {
    var i, j := IndexOf(b.chain, a), IndexOf(b.chain, a');
    if i < j { Order(b, i, j); } else { Order(b, j, i); }
  }

  lemma Listed(s: seq<int>)
    ensures s != [] ==> s[0] in s
    ensures |s| > 1 && Distinct(s) ==> s[1] in s && s[0] != s[1]
  {
  }

  /** When everything has been freed, the block is one free chunk of its original size. */
  lemma AllFreed(b: Block)
    requires Valid(b) && Live(b) == map[]
    ensures b.chain == [b.head] && b.chunks.Keys == {b.head}
    ensures b.chunks[b.head].isFree && b.chunks[b.head].alignSize == Capacity(b)
    ensures b.free == [b.head] && b.used == []
  {
    AllFree(b);
    OneChunk(b);
    FreeAll(b.free, b.head);
    NoneUsed(b);
  }

  lemma AllFree(b: Block)
    requires Live(b) == map[]
    ensures forall a :: a in b.chunks ==> b.chunks[a].isFree
  {
    forall a | a in b.chunks ensures b.chunks[a].isFree { assert a in Live(b) <==> !b.chunks[a].isFree; }
  }

  /** Chunks that are all free would be neighbours. */
  lemma OneChunk(b: Block)
    requires Valid(b) && forall a :: a in b.chunks ==> b.chunks[a].isFree
    ensures b.chain == [b.head] && b.chunks.Keys == {b.head} && b.chunks[b.head].alignSize == Capacity(b)
  {
    assert Meets(b, 0) && IsFree(b, 0);
    assert |b.chain| > 1 ==> Meets(b, 1) && IsFree(b, 1);
    assert !IsFree(b, 1);
    assert b.chain == [b.head];
    forall a | a in b.chunks.Keys ensures a == b.head { assert a in b.chain; }
    assert b.head in b.chunks.Keys;
  }

  lemma FreeAll(s: seq<int>, x: int)
    requires Distinct(s) && forall a :: a in s <==> a == x
    ensures s == [x]
  {
    Listed(s);
    assert x in s;
  }

  lemma NoneUsed(b: Block)
    requires Lists(b) && forall a :: a in b.chunks ==> b.chunks[a].isFree
    ensures b.used == []
  {
    Listed(b.used);
    assert |b.used| == 0;
  }
}
