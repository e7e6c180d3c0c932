/** Packing and unpacking as lua-seri.c does it: a write cursor over a chain of blocks, which is flattened at
    the end, and a read cursor. */
module LuaSeriStream {
  import opened LuaSeri

  const BLOCK_SIZE := 128

  /** `write_block`; the chain of blocks is given as the sequence of their buffers. */
  class WriteBlock {
    var chain: seq<array<Byte>>
    var ptr: nat
    var len: nat
    ghost var content: seq<Byte>

    ghost predicate Valid()
      reads this, set b | b in chain
    {
      && chain != [] && ptr <= BLOCK_SIZE && len == |content| == BLOCK_SIZE * (|chain| - 1) + ptr
      && (forall i :: 0 <= i < |chain| ==> chain[i].Length == BLOCK_SIZE)
      && (forall i, j :: 0 <= i < j < |chain| ==> chain[i] != chain[j])
      && (forall i :: 0 <= i < |chain| - 1 ==> Holds(i, BLOCK_SIZE))
      && Holds(|chain| - 1, ptr)
    }

    /** The first `n` bytes of a block are those of the content at its place. */
    ghost predicate Holds(i: nat, n: nat)
      requires i < |chain|
      reads this, chain[i]
    {
      n <= chain[i].Length && BLOCK_SIZE * i + n <= |content|
      && forall k :: 0 <= k < n ==> chain[i][k] == content[BLOCK_SIZE * i + k]
    }

    ghost function Current(): array<Byte>
      requires chain != []
      reads this
    {
      chain[|chain| - 1]
    }

    /** `wb_init` */
    constructor ()
      ensures Valid() && content == [] && fresh(Current())
    {
      var b := new Byte[BLOCK_SIZE](_ => 0);
      chain, ptr, len, content := [b], 0, 0, [];
    }

    method NewBlock()
      requires Valid() && ptr == BLOCK_SIZE
      modifies this`chain, this`ptr
      ensures Valid() && ptr == 0 && content == old(content) && fresh(Current())
    {
      var b := new Byte[BLOCK_SIZE](_ => 0);
      ghost var was := chain;
      chain := chain + [b];
      ptr := 0;
      forall i | 0 <= i < |chain| - 1 ensures chain[i] == was[i] && Holds(i, BLOCK_SIZE) {
        assert old(Holds(i, if i < |chain| - 1 then BLOCK_SIZE else ptr));
      }
    }

    /** `memcpy` behind what has been written, where there is room. */
    method CopyIn(bytes: seq<Byte>)
      requires Valid() && ptr + |bytes| <= BLOCK_SIZE
      modifies this`ptr, this`len, this`content, Current()
      ensures Valid() && content == old(content) + bytes && ptr == old(ptr) + |bytes|
    {
      var b := chain[|chain| - 1];
      forall k | 0 <= k < |bytes| { b[ptr + k] := bytes[k]; }
      content := content + bytes;
      ptr := ptr + |bytes|;
      len := len + |bytes|;
      forall i | 0 <= i < |chain| - 1 ensures Holds(i, BLOCK_SIZE) {
        assert old(Holds(i, BLOCK_SIZE));
        assert chain[i] != b;
      }
      assert old(Holds(|chain| - 1, ptr));
      HoldsMore(old(ptr), bytes);
    }

    lemma HoldsMore(p: nat, bytes: seq<Byte>)
      requires chain != [] && Current().Length == BLOCK_SIZE && p + |bytes| == ptr <= BLOCK_SIZE
      requires |content| == BLOCK_SIZE * (|chain| - 1) + ptr && content[|content| - |bytes|..] == bytes
      requires forall k :: 0 <= k < p ==> Current()[k] == content[BLOCK_SIZE * (|chain| - 1) + k]
      requires forall k :: p <= k < ptr ==> Current()[k] == bytes[k - p]
      ensures Holds(|chain| - 1, ptr)
    {
      forall k | p <= k < ptr ensures Current()[k] == content[BLOCK_SIZE * (|chain| - 1) + k] {
        assert content[|content| - |bytes|..][k - p] == content[BLOCK_SIZE * (|chain| - 1) + k];
      }
    }

    /** `wb_push` */
    method Push(buf: seq<Byte>)
      requires Valid()
      modifies this, Current()
      ensures Valid() && content == old(content) + buf
      ensures Current() == old(Current()) || fresh(Current())
    {
      if ptr == BLOCK_SIZE {
        NewBlock();
      }
      var i := 0;
      while ptr > BLOCK_SIZE - (|buf| - i)
        invariant Valid() && i <= |buf| && content == old(content) + buf[..i]
        invariant Current() == old(Current()) || fresh(Current())
        invariant ptr < BLOCK_SIZE
        decreases |buf| - i
      {
        var copy := BLOCK_SIZE - ptr;
        CopyIn(buf[i..i + copy]);
        Advance(old(content), buf, i, i + copy);
        i := i + copy;
        NewBlock();
      }
      CopyIn(buf[i..]);
      Advance(old(content), buf, i, |buf|);
    }

    /** `wb_integer` */
    method WbInteger(v: Int64)
      requires Valid()
      modifies this, Current()
      ensures Valid() && content == old(content) + EncInteger(v) && (Current() == old(Current()) || fresh(Current()))
    {
      if v == 0 {
        Push([Head(2, 0)]);
      } else if !(-0x8000_0000 <= v < 0x8000_0000) {
        PushTwo([Head(2, 6)], Low(Unsigned(v, 0x1_0000_0000_0000_0000), 8));
      } else if v < 0 {
        PushTwo([Head(2, 4)], Low(Unsigned(v, 0x1_0000_0000), 4));
      } else if v < 0x100 {
        PushTwo([Head(2, 1)], Low(v, 1));
      } else if v < 0x10000 {
        PushTwo([Head(2, 2)], Low(v, 2));
      } else {
        PushTwo([Head(2, 4)], Low(v, 4));
      }
    }

    method PushTwo(head: seq<Byte>, body: seq<Byte>)
      requires Valid()
      modifies this, Current()
      ensures Valid() && content == old(content) + (head + body) && (Current() == old(Current()) || fresh(Current()))
    {
      Push(head);
      Push(body);
    }

    /** `wb_string` */
    method WbString(s: seq<Byte>)
      requires Valid()
      modifies this, Current()
      ensures Valid() && content == old(content) + EncString(s) && (Current() == old(Current()) || fresh(Current()))
    {
      if |s| < MAX_COOKIE {
        Push([Head(4, |s|)]);
        if |s| > 0 {
          Push(s);
        }
        Assoc(old(content), [Head(4, |s|)], s);
      } else if |s| < 0x10000 {
        PushThree([Head(5, 2)], Low(|s|, 2), s);
      } else {
        PushThree([Head(5, 4)], Low(|s|, 4), s);
      }
    }

    method PushThree(head: seq<Byte>, size: seq<Byte>, body: seq<Byte>)
      requires Valid()
      modifies this, Current()
      ensures Valid() && content == old(content) + (head + size + body)
      ensures Current() == old(Current()) || fresh(Current())
    {
      PushTwo(head, size);
      Push(body);
      Assoc(old(content), head + size, body);
    }

    /** `pack_one`; false if the value is refused. */
    method PackOne(v: Value, depth: nat) returns (ok: bool)
      requires Valid()
      modifies this, Current()
      ensures Valid() && (Current() == old(Current()) || fresh(Current()))
      ensures ok <==> Accepted(v, depth)
      ensures ok ==> content == old(content) + Enc(v)
      decreases v, 3, 0
    {
      if depth > MAX_DEPTH {
        return false;
      }
      ok := true;
      match v {
        case Nil => Push([Head(0, 0)]);
        case Boolean(b) => Push([Head(1, if b then 1 else 0)]);
        case Integer(n) => WbInteger(n);
        case Real(bits) => PushTwo([Head(2, 8)], bits);
        case Pointer(addr) => PushTwo([Head(3, 0)], addr);
        case String(s) => WbString(s);
        case Table(_, _) => ok := WbTable(v, depth + 1);
        case Other => ok := false;
      }
    }

    /** `wb_table` */
    method WbTable(t: Value, depth: nat) returns (ok: bool)
      requires Valid() && t.Table?
      modifies this, Current()
      ensures Valid() && (Current() == old(Current()) || fresh(Current()))
      ensures ok <==> AcceptedList(t, depth, 0) && AcceptedPairs(t, depth, 0)
      ensures ok ==> content == old(content) + Enc(t)
      decreases t, 2, 0
    {
      ghost var was := content;
      if |t.list| >= MAX_COOKIE - 1 {
        Push([Head(6, MAX_COOKIE - 1)]);
        WbInteger(|t.list| % 0x8000_0000);
      } else {
        Push([Head(6, |t.list|)]);
      }
      assert content == was + EncSize(|t.list|);
      ok := WbTableArray(t, depth);
      if ok {
        ok := WbTableHash(t, depth);
        TableBytes(was, t);
      }
    }

    /** The loop of `wb_table_array` */
    method WbTableArray(t: Value, depth: nat) returns (ok: bool)
      requires Valid() && t.Table?
      modifies this, Current()
      ensures Valid() && (Current() == old(Current()) || fresh(Current()))
      ensures ok <==> AcceptedList(t, depth, 0)
      ensures ok ==> content == old(content) + EncArray(t, 0)
      decreases t, 1, 0
    {
      var i := 0;
      while i < |t.list|
        invariant Valid() && (Current() == old(Current()) || fresh(Current()))
        invariant i <= |t.list| && (AcceptedList(t, depth, 0) <==> AcceptedList(t, depth, i))
        invariant content + EncArray(t, i) == old(content) + EncArray(t, 0)
      {
        ghost var was := content;
        ok := PackOne(t.list[i], depth);
        if !ok {
          return;
        }
        Assoc(was, Enc(t.list[i]), EncArray(t, i + 1));
        i := i + 1;
      }
      ok := true;
    }

    /** `wb_table_hash`, and the loop of `wb_table_metapairs` */
    method WbTableHash(t: Value, depth: nat) returns (ok: bool)
      requires Valid() && t.Table?
      modifies this, Current()
      ensures Valid() && (Current() == old(Current()) || fresh(Current()))
      ensures ok <==> AcceptedPairs(t, depth, 0)
      ensures ok ==> content == old(content) + EncPairs(t, 0)
      decreases t, 1, 0
    {
      var i := 0;
      while i < |t.pairs|
        invariant Valid() && (Current() == old(Current()) || fresh(Current()))
        invariant i <= |t.pairs| && (AcceptedPairs(t, depth, 0) <==> AcceptedPairs(t, depth, i))
        invariant content + EncPairs(t, i) == old(content) + EncPairs(t, 0)
      {
        ghost var was := content;
        ok := PackOne(t.pairs[i].key, depth);
        if !ok {
          return;
        }
        ok := PackOne(t.pairs[i].value, depth);
        if !ok {
          return;
        }
        PairBytes(was, t, i);
        i := i + 1;
      }
      Push([Head(0, 0)]);
      ok := true;
    }

    /** `seri`: the blocks in one buffer. */
    method Flatten() returns (buffer: array<Byte>)
      requires Valid()
      ensures fresh(buffer) && buffer[..] == content
    {
      buffer := new Byte[len](_ => 0);
      var i, left := 0, len;
      while left > 0
        invariant left == len - BLOCK_SIZE * i && i <= |chain|
        invariant left >= 0
        invariant forall k :: 0 <= k < BLOCK_SIZE * i ==> buffer[k] == content[k]
        decreases left
      {
        var b := chain[i];
        if left >= BLOCK_SIZE {
          BlockFull(i);
          forall k | 0 <= k < BLOCK_SIZE { buffer[BLOCK_SIZE * i + k] := b[k]; }
          left := left - BLOCK_SIZE;
          i := i + 1;
        } else {
          BlockLast(i);
          forall k | 0 <= k < left { buffer[BLOCK_SIZE * i + k] := b[k]; }
          break;
        }
      }
    }

    lemma BlockFull(i: nat)
      requires Valid() && BLOCK_SIZE * (i + 1) <= len
      ensures i < |chain| && Holds(i, BLOCK_SIZE)
    {
    }

    lemma BlockLast(i: nat)
      requires Valid() && BLOCK_SIZE * i < len < BLOCK_SIZE * (i + 1)
      ensures i == |chain| - 1 && ptr == len - BLOCK_SIZE * i && Holds(i, ptr)
    {
    }
  }

  lemma Advance(front: seq<Byte>, buf: seq<Byte>, i: nat, j: nat)
    requires i <= j <= |buf|
    ensures front + buf[..i] + buf[i..j] == front + buf[..j]
    ensures buf[..|buf|] == buf && buf[i..|buf|] == buf[i..]
  {
    assert buf[..j] == buf[..i] + buf[i..j];
  }

  // ---------- what is accepted ----------

  /** `pack_one` does not refuse the value at this depth. */
  predicate Accepted(v: Value, depth: nat)
    decreases v, 3, 0
  {
    && depth <= MAX_DEPTH && !v.Other?
    && (v.Table? ==> AcceptedList(v, depth + 1, 0) && AcceptedPairs(v, depth + 1, 0))
  }

  predicate AcceptedList(t: Value, depth: nat, i: nat)
    requires t.Table? && i <= |t.list|
    decreases t, 2, |t.list| - i
  {
    i < |t.list| ==> Accepted(t.list[i], depth) && AcceptedList(t, depth, i + 1)
  }

  predicate AcceptedPairs(t: Value, depth: nat, i: nat)
    requires t.Table? && i <= |t.pairs|
    decreases t, 2, |t.pairs| - i
  {
    i < |t.pairs| ==>
      Accepted(t.pairs[i].key, depth) && Accepted(t.pairs[i].value, depth) && AcceptedPairs(t, depth, i + 1)
  }

  lemma {:induction false} TableBytes(was: seq<Byte>, t: Value)
    requires t.Table?
    ensures was + EncSize(|t.list|) + EncArray(t, 0) + EncPairs(t, 0) == was + Enc(t)
  {
    Assoc(was, EncSize(|t.list|), EncArray(t, 0));
    Assoc(was, EncSize(|t.list|) + EncArray(t, 0), EncPairs(t, 0));
  }

  lemma {:induction false} PairBytes(was: seq<Byte>, t: Value, i: nat)
    requires t.Table? && i < |t.pairs|
    ensures was + Enc(t.pairs[i].key) + Enc(t.pairs[i].value) + EncPairs(t, i + 1) == was + EncPairs(t, i)
  {
    var p := t.pairs[i];
    Assoc(was, Enc(p.key), Enc(p.value));
    Assoc(was, EncPair(p), EncPairs(t, i + 1));
  }

  predicate Supported(v: Value)
    decreases v, 3, 0
  {
    !v.Other? && (v.Table? ==> SupportedList(v, 0) && SupportedPairs(v, 0))
  }

  predicate SupportedList(t: Value, i: nat)
    requires t.Table? && i <= |t.list|
    decreases t, 2, |t.list| - i
  {
    i < |t.list| ==> Supported(t.list[i]) && SupportedList(t, i + 1)
  }

  predicate SupportedPairs(t: Value, i: nat)
    requires t.Table? && i <= |t.pairs|
    decreases t, 2, |t.pairs| - i
  {
    i < |t.pairs| ==> SupportedPair(t.pairs[i]) && SupportedPairs(t, i + 1)
  }

  predicate SupportedPair(p: Pair)
    decreases p, 0, 0
  {
    Supported(p.key) && Supported(p.value)
  }

  /** How many tables stand around the innermost value. */
  function Height(v: Value): nat
    decreases v, 3, 0
  {
    if v.Table? then Max(HeightList(v, 0), HeightPairs(v, 0)) else 0
  }

  function Max(a: nat, b: nat): nat { if a < b then b else a }

  function HeightList(t: Value, i: nat): nat
    requires t.Table? && i <= |t.list|
    decreases t, 2, |t.list| - i
  {
    if i < |t.list| then Max(1 + Height(t.list[i]), HeightList(t, i + 1)) else 0
  }

  function HeightPairs(t: Value, i: nat): nat
    requires t.Table? && i <= |t.pairs|
    decreases t, 2, |t.pairs| - i
  {
    if i < |t.pairs| then Max(1 + HeightPair(t.pairs[i]), HeightPairs(t, i + 1)) else 0
  }

  function HeightPair(p: Pair): nat
    decreases p, 0, 0
  {
    Max(Height(p.key), Height(p.value))
  }

  /** A value is packed exactly if everything in it is supported and it is nested at most `MAX_DEPTH` deep. */
  lemma {:induction false} AcceptedIff(v: Value, depth: nat)
    ensures Accepted(v, depth) <==> Supported(v) && depth + Height(v) <= MAX_DEPTH
    decreases v, 3, 0
  {
    if v.Table? {
      AcceptedListIff(v, depth + 1, 0);
      AcceptedPairsIff(v, depth + 1, 0);
    }
  }

  lemma {:induction false} AcceptedListIff(t: Value, depth: nat, i: nat)
    requires t.Table? && i <= |t.list| && depth > 0
    ensures AcceptedList(t, depth, i) <==>
      SupportedList(t, i) && (HeightList(t, i) > 0 ==> depth + HeightList(t, i) - 1 <= MAX_DEPTH)
    decreases t, 2, |t.list| - i
  {
    if i < |t.list| {
      AcceptedIff(t.list[i], depth);
      AcceptedListIff(t, depth, i + 1);
    }
  }

  lemma {:induction false} AcceptedPairsIff(t: Value, depth: nat, i: nat)
    requires t.Table? && i <= |t.pairs| && depth > 0
    ensures AcceptedPairs(t, depth, i) <==>
      SupportedPairs(t, i) && (HeightPairs(t, i) > 0 ==> depth + HeightPairs(t, i) - 1 <= MAX_DEPTH)
    decreases t, 2, |t.pairs| - i
  {
    if i < |t.pairs| {
      AcceptedPairIff(t.pairs[i], depth);
      AcceptedPairsIff(t, depth, i + 1);
    }
  }

  lemma {:induction false} AcceptedPairIff(p: Pair, depth: nat)
    ensures Accepted(p.key, depth) && Accepted(p.value, depth) <==> SupportedPair(p) && depth + HeightPair(p) <= MAX_DEPTH
    decreases p, 0, 0
  {
    AcceptedIff(p.key, depth);
    AcceptedIff(p.value, depth);
  }

  // ---------- reading ----------

  /** `read_block` */
  class ReadBlock {
    const buffer: seq<Byte>
    var ptr: nat
    var len: nat

    ghost predicate Valid()
      reads this
    {
      ptr + len == |buffer|
    }

    ghost function Rest(): seq<Byte>
      requires Valid()
      reads this
    {
      buffer[ptr..]
    }

    /** `rball_init` */
    constructor (s: seq<Byte>)
      ensures Valid() && Rest() == s
    {
      buffer, ptr, len := s, 0, |s|;
    }

    /** What a method has read is what the format says, or it fails as the format says. */
    ghost predicate Reads<T>(r: Result<T>, spec: Read<T>)
      requires Valid()
      reads this
    {
      match spec
      case Bad(e) => r == Err(e)
      case Got(v, rest) => r == Ok(v) && Rest() == rest
    }

    /** `rb_read` */
    method RbRead(sz: nat) returns (r: Result<seq<Byte>>)
      requires Valid()
      modifies this`ptr, this`len
      ensures Valid() && Reads(r, Take(old(Rest()), sz))
    {
      if len < sz {
        return Err(Malformed);
      }
      Slices(buffer, ptr, sz);
      r := Ok(buffer[ptr..ptr + sz]);
      ptr := ptr + sz;
      len := len - sz;
    }

    method ReadNumber(k: nat, signed: bool) returns (r: Result<int>)
      requires Valid()
      modifies this`ptr, this`len
      ensures Valid() && Reads(r, DecNumber(old(Rest()), k, signed))
    {
      var b := RbRead(k);
      if b.Err? {
        return Err(b.error);
      }
      r := Ok(if signed then Signed(Number(b.value), Power(k)) else Number(b.value));
    }

    /** `get_integer` */
    method GetInteger(cookie: nat) returns (r: Result<int>)
      requires Valid()
      modifies this`ptr, this`len
      ensures Valid() && Reads(r, DecInteger(old(Rest()), cookie))
    {
      if cookie == 0 {
        r := Ok(0);
      } else if cookie == 1 {
        r := ReadNumber(1, false);
      } else if cookie == 2 {
        r := ReadNumber(2, false);
      } else if cookie == 4 {
        r := ReadNumber(4, true);
      } else if cookie == 6 {
        r := ReadNumber(8, true);
      } else {
        r := Err(Malformed);
      }
    }

    /** `get_buffer`, for a string of `n` bytes. */
    method GetBuffer(n: int) returns (r: Result<Value>)
      requires Valid()
      modifies this`ptr, this`len
      ensures Valid() && Reads(r, DecString(old(Rest()), Got(n, old(Rest()))))
    {
      if n < 0 || n >= 0x8000_0000 {
        return Err(Outside);
      }
      var b := RbRead(n);
      r := if b.Ok? then Ok(String(b.value)) else Err(b.error);
    }

    method GetEight() returns (r: Result<seq<Byte>>)
      requires Valid()
      modifies this`ptr, this`len
      ensures Valid() && Reads(r, Take(old(Rest()), 8))
    {
      r := RbRead(8);
    }

    /** `TYPE_LONG_STRING` */
    method GetLong(k: nat) returns (r: Result<Value>)
      requires Valid()
      modifies this`ptr, this`len
      ensures Valid() && Reads(r, DecString(old(Rest()), DecNumber(old(Rest()), k, false)))
    {
      var n := ReadNumber(k, false);
      if n.Err? {
        return Err(n.error);
      }
      r := GetBuffer(n.value);
    }

    /** `unpack_one` */
    method UnpackOne() returns (r: Result<Value>)
      requires Valid()
      modifies this`ptr, this`len
      ensures Valid() && Reads(r, Dec(old(Rest())))
      decreases len, 0, 0
    {
      var t := RbRead(1);
      if t.Err? {
        return Err(t.error);
      }
      r := PushValue(t.value[0] % 8, t.value[0] / 8);
    }

    /** `push_value` */
    method PushValue(t: nat, cookie: nat) returns (r: Result<Value>)
      requires Valid()
      modifies this`ptr, this`len
      ensures Valid() && Reads(r, DecValue(old(Rest()), t, cookie))
      decreases len, 3, 0
    {
      if t == 0 {
        r := Ok(Nil);
      } else if t == 1 {
        r := Ok(Boolean(cookie != 0));
      } else if t == 2 && cookie == 8 {
        var b := GetEight();
        r := if b.Ok? then Ok(Real(b.value)) else Err(b.error);
      } else if t == 2 {
        var n := GetInteger(cookie);
        r := if n.Ok? then Ok(Integer(n.value)) else Err(n.error);
      } else if t == 3 {
        var b := GetEight();
        r := if b.Ok? then Ok(Pointer(b.value)) else Err(b.error);
      } else if t == 4 {
        r := GetBuffer(cookie);
      } else if t == 5 && cookie == 2 {
        r := GetLong(2);
      } else if t == 5 && cookie == 4 {
        r := GetLong(4);
      } else if t == 6 {
        r := UnpackTable(cookie);
      } else {
        r := Err(Malformed);
      }
    }

    method TableSize(cookie: nat) returns (r: Result<int>)
      requires Valid()
      modifies this`ptr, this`len
      ensures Valid() && Reads(r, DecSize(old(Rest()), cookie))
    {
      if cookie != MAX_COOKIE - 1 {
        return Ok(cookie);
      }
      var t := RbRead(1);
      if t.Err? {
        return Err(t.error);
      }
      if t.value[0] % 8 != 2 || t.value[0] / 8 == 8 {
        return Err(Malformed);
      }
      var n := GetInteger(t.value[0] / 8);
      r := if n.Ok? then Ok(Signed(n.value % 0x1_0000_0000, 0x1_0000_0000)) else Err(n.error);
    }

    /** `unpack_table` */
    method UnpackTable(cookie: nat) returns (r: Result<Value>)
      requires Valid()
      modifies this`ptr, this`len
      ensures Valid() && Reads(r, DecTable(old(Rest()), cookie))
      decreases len, 2, 0
    {
      var n := TableSize(cookie);
      if n.Err? {
        return Err(n.error);
      }
      var list := UnpackList(n.value);
      if list.Err? {
        return Err(list.error);
      }
      var pairs := UnpackPairs();
      r := if pairs.Ok? then Ok(Table(list.value, pairs.value)) else Err(pairs.error);
    }

    method UnpackList(n: int) returns (r: Result<seq<Value>>)
      requires Valid()
      modifies this`ptr, this`len
      ensures Valid() && Reads(r, DecArray(old(Rest()), n))
      decreases len, 1, 0
    {
      var list, i := [], 0;
      AfterNothing(DecArray(Rest(), n));
      while i < n
        invariant Valid() && len <= old(len) && 0 <= i && (n > 0 ==> i <= n)
        invariant DecArray(old(Rest()), n) == After(list, DecArray(Rest(), n - i))
        decreases n - i
      {
        ArrayStep(list, Rest(), n - i);
        var v := UnpackOne();
        if v.Err? {
          return Err(v.error);
        }
        list := list + [v.value];
        i := i + 1;
      }
      AfterAll(list, Rest());
      r := Ok(list);
    }

    method UnpackPairs() returns (r: Result<seq<Pair>>)
      requires Valid()
      modifies this`ptr, this`len
      ensures Valid() && Reads(r, DecPairs(old(Rest())))
      decreases len, 1, 0
    {
      var pairs := [];
      AfterNothing(DecPairs(Rest()));
      while true
        invariant Valid() && len <= old(len)
        invariant DecPairs(old(Rest())) == After(pairs, DecPairs(Rest()))
        decreases len
      {
        PairsStep(pairs, Rest());
        var key := UnpackOne();
        if key.Err? {
          return Err(key.error);
        }
        if key.value == Nil {
          return Ok(pairs);
        }
        var value := UnpackOne();
        if value.Err? {
          return Err(value.error);
        }
        if NotANumber(key.value) {
          return Err(Malformed);
        }
        pairs := pairs + [Pair(key.value, value.value)];
      }
    }
  }

  datatype Option<+T> = None | Some(value: T)

  datatype Result<+T> = Ok(value: T) | Err(error: Error)

  /** A list that begins with what has been read. */
  function After<T>(list: seq<T>, r: Read<seq<T>>): Read<seq<T>> {
    if r.Got? then Got(list + r.v, r.rest) else r
  }

  lemma AfterNothing<T>(r: Read<seq<T>>)
    ensures After([], r) == r
  {
    if r.Got? { assert [] + r.v == r.v; }
  }

  lemma AfterAll<T>(list: seq<T>, rest: seq<Byte>)
    ensures After(list, Got([], rest)) == Got(list, rest)
  {
    assert list + [] == list;
  }

  lemma Slices(s: seq<Byte>, i: nat, n: nat)
    requires i + n <= |s|
    ensures s[i..][..n] == s[i..i + n] && s[i..][n..] == s[i + n..]
  {
  }

  lemma {:induction false} ThenNothing(list: seq<Value>, r: Result<seq<Value>>)
    ensures Then([], r) == r && Then(list, Ok([])) == Ok(list)
  {
    if r.Ok? { assert [] + r.value == r.value; }
    assert list + [] == list;
  }

  lemma {:induction false} ArrayStep(list: seq<Value>, s: seq<Byte>, n: int)
    requires n > 0
    ensures After(list, DecArray(s, n)) ==
      match Dec(s)
      case Bad(e) => Bad(e)
      case Got(v, rest) => After(list + [v], DecArray(rest, n - 1))
  {
    if Dec(s).Got? && DecArray(Dec(s).rest, n - 1).Got? {
      var more := DecArray(Dec(s).rest, n - 1).v;
      assert list + ([Dec(s).v] + more) == list + [Dec(s).v] + more;
    }
  }

  lemma {:induction false} PairsStep(list: seq<Pair>, s: seq<Byte>)
    ensures After(list, DecPairs(s)) ==
      match Dec(s)
      case Bad(e) => Bad(e)
      case Got(key, rest) =>
        if key == Nil then Got(list, rest)
        else match Dec(rest)
          case Bad(e) => Bad(e)
          case Got(value, rest1) =>
            if NotANumber(key) then Bad(Malformed) else After(list + [Pair(key, value)], DecPairs(rest1))
  {
    assert list + [] == list;
    if Dec(s).Got? && Dec(s).v != Nil && Dec(Dec(s).rest).Got? {
      var p, rest := Pair(Dec(s).v, Dec(Dec(s).rest).v), Dec(Dec(s).rest).rest;
      if DecPairs(rest).Got? {
        assert list + ([p] + DecPairs(rest).v) == list + [p] + DecPairs(rest).v;
      }
    }
  }

  // ---------- any number of values ----------

  function EncAll(vs: seq<Value>, i: nat): seq<Byte>
    requires i <= |vs|
    decreases |vs| - i
  {
    if i == |vs| then [] else Enc(vs[i]) + EncAll(vs, i + 1)
  }

  function DecAll(s: seq<Byte>): Result<seq<Value>>
    decreases |s|
  {
    if |s| == 0 then Ok([])
    else match Dec(s)
      case Bad(e) => Err(e)
      case Got(v, rest) => Then([v], DecAll(rest))
  }

  function Then(list: seq<Value>, r: Result<seq<Value>>): Result<seq<Value>> {
    if r.Ok? then Ok(list + r.value) else r
  }

  /** The first `i` values have been packed. */
  ghost predicate Packed(content: seq<Byte>, vs: seq<Value>, i: nat) {
    i <= |vs| && content + EncAll(vs, i) == EncAll(vs, 0)
  }

  lemma {:induction false} PackedStep(content: seq<Byte>, vs: seq<Value>, i: nat)
    requires i < |vs| && Packed(content, vs, i)
    ensures Packed(content + Enc(vs[i]), vs, i + 1)
  {
    Assoc(content, Enc(vs[i]), EncAll(vs, i + 1));
  }

  lemma {:induction false} PackedEnds(content: seq<Byte>, vs: seq<Value>)
    ensures Packed([], vs, 0)
    ensures Packed(content, vs, |vs|) ==> content == EncAll(vs, 0)
  {
    assert [] + EncAll(vs, 0) == EncAll(vs, 0);
    assert content + [] == content;
  }

  /** `luaseri_pack` */
  method Pack(vs: seq<Value>) returns (r: Option<array<Byte>>)
    ensures r.Some? <==> forall i :: 0 <= i < |vs| ==> Accepted(vs[i], 0)
    ensures r.Some? ==> fresh(r.value) && r.value[..] == EncAll(vs, 0)
  {
    var wb := new WriteBlock();
    PackedEnds([], vs);
    for i := 0 to |vs|
      invariant wb.Valid() && fresh(wb) && fresh(wb.Current())
      invariant forall j :: 0 <= j < i ==> Accepted(vs[j], 0)
      invariant Packed(wb.content, vs, i)
    {
      ghost var was := wb.content;
      var ok := wb.PackOne(vs[i], 0);
      if !ok {
        return None;
      }
      PackedStep(was, vs, i);
    }
    PackedEnds(wb.content, vs);
    var buffer := wb.Flatten();
    r := Some(buffer);
  }

  /** `luaseri_unpack` */
  method Unpack(s: seq<Byte>) returns (r: Result<seq<Value>>)
    ensures r == DecAll(s)
  {
    var rb := new ReadBlock(s);
    var list := [];
    ThenNothing([], DecAll(s));
    while rb.len > 0
      invariant rb.Valid() && fresh(rb) && DecAll(s) == Then(list, DecAll(rb.Rest()))
      decreases rb.len
    {
      ghost var rest := rb.Rest();
      var v := rb.UnpackOne();
      AllStep(list, rest);
      if v.Err? {
        return Err(v.error);
      }
      list := list + [v.value];
    }
    ThenNothing(list, Ok(list));
    r := Ok(list);
  }

  lemma {:induction false} AllStep(list: seq<Value>, s: seq<Byte>)
    requires |s| > 0
    ensures Then(list, DecAll(s)) ==
      match Dec(s)
      case Bad(e) => Err(e)
      case Got(v, rest) => Then(list + [v], DecAll(rest))
  {
    if Dec(s).Got? { ThenThen(list, Dec(s).v, DecAll(Dec(s).rest)); }
  }

  lemma ThenThen(list: seq<Value>, v: Value, r: Result<seq<Value>>)
    ensures Then(list, Then([v], r)) == Then(list + [v], r)
  {
    if r.Ok? { assert list + ([v] + r.value) == list + [v] + r.value; }
  }

  lemma {:induction false} AllTrip(vs: seq<Value>, i: nat)
    requires i <= |vs| && forall j :: 0 <= j < |vs| ==> Storable(vs[j])
    ensures DecAll(EncAll(vs, i)) == Ok(vs[i..])
    decreases |vs| - i
  {
    if i < |vs| {
      AllTrip(vs, i + 1);
      RoundTrip(vs[i], EncAll(vs, i + 1));
      assert vs[i..] == [vs[i]] + vs[i + 1..];
    }
  }

  /** What is packed is unpacked again, and it is packed exactly if nothing is nested too deep. */
  method PackUnpack(vs: seq<Value>) returns (r: Option<seq<Value>>)
    requires forall i :: 0 <= i < |vs| ==> Storable(vs[i])
    ensures r == if forall i :: 0 <= i < |vs| ==> Height(vs[i]) <= MAX_DEPTH then Some(vs) else None
  {
    forall i | 0 <= i < |vs| ensures Accepted(vs[i], 0) <==> Height(vs[i]) <= MAX_DEPTH {
      AcceptedIff(vs[i], 0);
      StorableSupported(vs[i]);
    }
    var b := Pack(vs);
    if b.None? {
      return None;
    }
    AllTrip(vs, 0);
    var back := Unpack(b.value[..]);
    r := Some(back.value);
  }

  lemma {:induction false} StorableSupported(v: Value)
    requires Storable(v)
    ensures Supported(v)
    decreases v, 3, 0
  {
    if v.Table? {
      StorableList(v, 0);
      StorablePairs(v, 0);
    }
  }

  lemma {:induction false} StorableList(t: Value, i: nat)
    requires t.Table? && i <= |t.list| && Storable(t)
    ensures SupportedList(t, i)
    decreases t, 2, |t.list| - i
  {
    if i < |t.list| {
      StorableSupported(t.list[i]);
      StorableList(t, i + 1);
    }
  }

  lemma {:induction false} StorablePairs(t: Value, i: nat)
    requires t.Table? && i <= |t.pairs| && Storable(t)
    ensures SupportedPairs(t, i)
    decreases t, 2, |t.pairs| - i
  {
    if i < |t.pairs| {
      StorableOfPair(t.pairs[i]);
      StorablePairs(t, i + 1);
    }
  }

  lemma {:induction false} StorableOfPair(p: Pair)
    requires StorablePair(p)
    ensures SupportedPair(p)
    decreases p, 0, 0
  {
    StorableSupported(p.key);
    StorableSupported(p.value);
  }
}
