/** Base 128 varints, varint.c of pbc.  Words are numbers below a power of two; bits that do not overlap
    are put together by addition, and cutting to a width is a remainder. */
module Varints {

  const Two32 := 0x1_0000_0000
  const Two64 := 0x1_0000_0000_0000_0000

  type Byte = x: int | 0 <= x < 256
  type Word32 = x: int | 0 <= x < 0x1_0000_0000
  type Word64 = x: int | 0 <= x < 0x1_0000_0000_0000_0000
  type Int64 = x: int | -0x8000_0000_0000_0000 <= x < 0x8000_0000_0000_0000

  /** `struct longlong` */
  datatype Longlong = Longlong(low: Word32, hi: Word32)

  function Whole(v: Longlong): Word64 { v.low + v.hi * Two32 }

  /** The encoding of a number: groups of seven bits, lowest first, all but the last with the high bit. */
  function Varint(n: nat): (s: seq<Byte>)
    ensures |s| > 0
  {
    if n < 128 then [n] else [n % 128 + 128] + Varint(n / 128)
  }

  function Pow128(i: nat): (r: nat)
    ensures r > 0
  {
    if i == 0 then 1 else 128 * Pow128(i - 1)
  }

  /** The number in the seven low bits of the first `n` bytes. */
  function Groups(s: seq<Byte>, n: nat): nat
    requires n <= |s|
  {
    if n == 0 then 0 else Groups(s, n - 1) + Shifted(s[n - 1], n - 1)
  }

  /** `(b & 0x7f) << (7 * i)` */
  function Shifted(b: Byte, i: nat): nat { b % 128 * Pow128(i) }

  /** Where the first varint of `s` ends; at most ten bytes are looked at. */
  function Length(s: seq<Byte>, i: nat): (n: nat)
    requires i < 10 <= |s|
    ensures i < n <= 10
    ensures forall j :: i <= j < n - 1 ==> s[j] >= 128
    ensures n < 10 ==> s[n - 1] < 128
    decreases 10 - i
  {
    if s[i] < 128 then i + 1 else if i == 9 then 10 else Length(s, i + 1)
  }

  /** What `_pbcV_decode` makes of ten bytes. */
  function Decoded(s: seq<Byte>): Word64
    requires |s| >= 10
  {
    var n := Length(s, 0);
    if s[n - 1] < 128 then Groups(s, n) % Two64 else 0
  }

  // ---------- decoding undoes encoding ----------

  lemma {:induction false} VarintShape(n: nat, k: nat)
    requires n < Pow128(k + 1)
    ensures |Varint(n)| <= k + 1
    ensures Varint(n)[|Varint(n)| - 1] < 128
    ensures forall j :: 0 <= j < |Varint(n)| - 1 ==> Varint(n)[j] >= 128
    decreases k
  {
    if n >= 128 { VarintShape(n / 128, k - 1); }
  }

  lemma {:induction false} GroupsShift(b: Byte, s: seq<Byte>, n: nat)
    requires n <= |s|
    ensures Groups([b] + s, n + 1) == b % 128 + 128 * Groups(s, n)
  {
    if n > 0 {
      GroupsShift(b, s, n - 1);
      assert ([b] + s)[n] == s[n - 1];
      assert Pow128(n) == 128 * Pow128(n - 1);
    } else {
      assert Groups([b] + s, 0) == 0;
    }
  }

  lemma {:induction false} GroupsOfVarint(n: nat)
    ensures Groups(Varint(n), |Varint(n)|) == n
  {
    if n >= 128 {
      GroupsOfVarint(n / 128);
      GroupsShift(n % 128 + 128, Varint(n / 128), |Varint(n / 128)|);
    } else {
      assert Groups([n], 0) == 0;
    }
  }

  lemma {:induction false} GroupsFront(s: seq<Byte>, t: seq<Byte>, n: nat)
    requires n <= |s| && n <= |t| && forall j :: 0 <= j < n ==> s[j] == t[j]
    ensures Groups(s, n) == Groups(t, n)
  {
    if n > 0 { GroupsFront(s, t, n - 1); }
  }

  lemma {:induction false} LengthIs(s: seq<Byte>, i: nat, n: nat)
    requires i < n <= 10 <= |s| && s[n - 1] < 128 && forall j :: i <= j < n - 1 ==> s[j] >= 128
    ensures Length(s, i) == n
    decreases n - i
  {
    if i < n - 1 { LengthIs(s, i + 1, n); }
  }

  lemma Powers()
    ensures Pow128(1) == 0x80 && Pow128(2) == 0x4000 && Pow128(3) == 0x20_0000 && Pow128(4) == 0x1000_0000
    ensures Pow128(5) == 0x8_0000_0000 && Pow128(6) == 0x400_0000_0000 && Pow128(7) == 0x2_0000_0000_0000
    ensures Pow128(8) == 0x100_0000_0000_0000 && Pow128(9) == 0x8000_0000_0000_0000
    ensures Pow128(10) == 0x40_0000_0000_0000_0000
  {
    assert Pow128(0) == 1;
    assert Pow128(1) == 128 * Pow128(0);
    assert Pow128(2) == 128 * Pow128(1);
    assert Pow128(3) == 128 * Pow128(2);
    assert Pow128(4) == 128 * Pow128(3);
    assert Pow128(5) == 128 * Pow128(4);
    assert Pow128(6) == 128 * Pow128(5);
    assert Pow128(7) == 128 * Pow128(6);
    assert Pow128(8) == 128 * Pow128(7);
    assert Pow128(9) == 128 * Pow128(8);
    assert Pow128(10) == 128 * Pow128(9);
  }

  /** A number of 64 bits comes back from its encoding, whatever follows it. */
  lemma {:induction false} DecodeEncode(n: Word64, rest: seq<Byte>)
    requires |Varint(n) + rest| >= 10
    ensures Decoded(Varint(n) + rest) == n && Length(Varint(n) + rest, 0) == |Varint(n)| <= 10
  {
    var v, s := Varint(n), Varint(n) + rest;
    Powers();
    VarintShape(n, 9);
    assert forall j :: 0 <= j < |v| ==> s[j] == v[j];
    LengthIs(s, 0, |v|);
    GroupsFront(s, v, |v|);
    GroupsOfVarint(n);
  }

  // ---------- the code ----------

  /** The groups of a word, written out. */
  lemma {:induction false} Written32(n: Word32)
    ensures n < 0x80 ==> Varint(n) == [n]
    ensures 0x80 <= n < 0x4000 ==> Varint(n) == [n % 128 + 128, n / 0x80]
    ensures 0x4000 <= n < 0x200000 ==> Varint(n) == [n % 128 + 128, n / 0x80 % 128 + 128, n / 0x4000]
    ensures 0x200000 <= n < 0x10000000 ==>
      Varint(n) == [n % 128 + 128, n / 0x80 % 128 + 128, n / 0x4000 % 128 + 128, n / 0x200000]
    ensures 0x10000000 <= n ==>
      Varint(n) == [n % 128 + 128, n / 0x80 % 128 + 128, n / 0x4000 % 128 + 128, n / 0x200000 % 128 + 128, n / 0x10000000]
  {
    Quotients(n);
    VarintStep(n);
    VarintStep(n / 0x80);
    VarintStep(n / 0x4000);
    VarintStep(n / 0x200000);
    VarintStep(n / 0x10000000);
  }

  lemma {:induction false} VarintStep(n: nat)
    ensures Varint(n) == if n < 128 then [n] else [n % 128 + 128] + Varint(n / 128)
  {
  }

  lemma Quotients(n: Word32)
    ensures n / 0x80 / 0x80 == n / 0x4000 && n / 0x4000 / 0x80 == n / 0x200000
    ensures n / 0x200000 / 0x80 == n / 0x10000000
  {
  }

  /** `_pbcV_encode32`, into `buffer` at `p` */
  method Encode32(number: Word32, buffer: array<Byte>, p: nat) returns (len: nat)
    requires p + 10 <= buffer.Length
    modifies buffer
    ensures len <= 5 && buffer[..p + len] == old(buffer[..p]) + Varint(number)
  {
    Written32(number);
    if number < 0x80 {
      buffer[p] := number;
      return 1;
    }
    buffer[p] := number % 128 + 128;
    if number < 0x4000 {
      buffer[p + 1] := number / 0x80;
      return 2;
    }
    buffer[p + 1] := number / 0x80 % 128 + 128;
    if number < 0x200000 {
      buffer[p + 2] := number / 0x4000;
      return 3;
    }
    buffer[p + 2] := number / 0x4000 % 128 + 128;
    if number < 0x10000000 {
      buffer[p + 3] := number / 0x200000;
      return 4;
    }
    buffer[p + 3] := number / 0x200000 % 128 + 128;
    buffer[p + 4] := number / 0x10000000;
    len := 5;
  }

  lemma {:induction false} MoreBytes(before: seq<Byte>, n: nat)
    ensures n >= 128 ==> before + Varint(n) == before + [n % 128 + 128] + Varint(n / 128)
  {
    VarintStep(n);
  }

  /** `_pbcV_encode` */
  method Encode(number: Word64, buffer: array<Byte>, p: nat) returns (len: nat)
    requires p + 10 <= buffer.Length
    modifies buffer
    ensures len <= 10 && buffer[..p + len] == old(buffer[..p]) + Varint(number)
  {
    if number < Two32 {
      len := Encode32(number, buffer, p);
      return;
    }
    var n: Word64, i := number, 0;
    Powers();
    while true
      invariant n >= 128 && i <= 8 && n < Pow128(10 - i)
      invariant buffer[..p + i] + Varint(n) == old(buffer[..p]) + Varint(number)
      decreases 10 - i
    {
      ghost var before := buffer[..p + i];
      buffer[p + i] := n % 128 + 128;
      assert buffer[..p + i + 1] == before + [n % 128 + 128];
      MoreBytes(before, n);
      assert Pow128(10 - i) == 128 * Pow128(9 - i);
      n := n / 128;
      i := i + 1;
      if n < 0x80 { break; }
    }
    ghost var before := buffer[..p + i];
    buffer[p + i] := n;
    assert buffer[..p + i + 1] == before + [n];
    len := i + 1;
  }

  /** `_pbcV_decode` */
  method Decode(s: seq<Byte>) returns (v: Longlong, len: nat)
    requires |s| >= 10
    ensures Whole(v) == Decoded(s) && len == Length(s, 0)
  {
    assert Groups(s, 1) == Groups(s, 0) + Shifted(s[0], 0);
    if s[0] < 128 {
      return Longlong(s[0], 0), 1;
    }
    var r := s[0] % 128;
    var i := 1;
    while i < 4
      invariant 1 <= i <= 4 && r == Groups(s, i)
      invariant Length(s, 0) == Length(s, i)
    {
      r := r + Shifted(s[i], i);
      GroupsBound(s, i + 1);
      if s[i] < 128 {
        LowWord(s, i + 1);
        return Longlong(r, 0), i + 1;
      }
      i := i + 1;
    }
    v, len := DecodeHigh(s, r);
  }

  /** The second loop: from the fifth byte on. */
  method DecodeHigh(s: seq<Byte>, r: nat) returns (v: Longlong, len: nat)
    requires |s| >= 10 && r == Groups(s, 4) && Length(s, 0) == Length(s, 4)
    ensures Whole(v) == Decoded(s) && len == Length(s, 0)
  {
    LowWord(s, 4);
    var lr := 0;
    var i := 4;
    while i < 10
      invariant 4 <= i <= 10 && Groups(s, i) == r + 0x1000_0000 * lr
      invariant if i < 10 then Length(s, 0) == Length(s, i) else Length(s, 0) == 10 && s[9] >= 128
    {
      lr := lr + Shifted(s[i], i - 4);
      ShiftedOn(s[i], i - 4);
      if s[i] < 128 {
        Halves(r, lr);
        return Longlong(r + lr % 16 * 0x1000_0000, lr / 16 % Two32), i + 1;
      }
      i := i + 1;
    }
    return Longlong(0, 0), 10;
  }

  lemma ShiftedOn(b: Byte, i: nat)
    ensures Shifted(b, i + 4) == 0x1000_0000 * Shifted(b, i)
  {
    assert Pow128(i + 1) == 128 * Pow128(i);
    assert Pow128(i + 2) == 128 * Pow128(i + 1);
    assert Pow128(i + 3) == 128 * Pow128(i + 2);
    assert Pow128(i + 4) == 0x1000_0000 * Pow128(i);
  }

  lemma {:induction false} GroupsBound(s: seq<Byte>, n: nat)
    requires n <= |s|
    ensures Groups(s, n) < Pow128(n)
  {
    if n > 0 {
      GroupsBound(s, n - 1);
      Digit(s[n - 1] % 128, Pow128(n - 1));
      assert Groups(s, n) == Groups(s, n - 1) + Shifted(s[n - 1], n - 1);
      assert Pow128(n) == 128 * Pow128(n - 1);
    }
  }

  lemma Digit(d: nat, p: nat)
    requires d < 128
    ensures d * p <= 127 * p
  {
  }

  lemma {:induction false} LowWord(s: seq<Byte>, n: nat)
    requires n <= 4 && n <= |s|
    ensures Groups(s, n) < 0x1000_0000
  {
    GroupsBound(s, n);
    Powers();
    assert Pow128(0) == 1;
  }

  lemma Halves(r: nat, lr: nat)
    requires r < 0x1000_0000
    ensures r + lr % 16 * 0x1000_0000 < Two32
    ensures r + lr % 16 * 0x1000_0000 + lr / 16 % Two32 * Two32 == (r + 0x1000_0000 * lr) % Two64
  {
    var q, m := lr / 16, lr % 16;
    var h, l := q / Two32, q % Two32;
    assert r + 0x1000_0000 * lr == r + m * 0x1000_0000 + l * Two32 + h * Two64;
  }

  // ---------- zigzag ----------

  /** The bits of a signed word, and of a word as a signed one. */
  function Bits(n: Int64): Word64 { n % Two64 }
  function Signed(w: Word64): Int64 { if w < 0x8000_0000_0000_0000 then w else w - Two64 }

  /** `(n << 1) ^ (n >> 63)`: exclusive or with all ones is the complement. */
  function Zigzag(n: Int64): Word64 {
    var twice := 2 * n % Two64;
    if n < 0 then Two64 - 1 - twice else twice
  }

  /** Exclusive or with `-bit`. */
  function Xored(w: Word32, bit: nat): Word32
    requires bit < 2
  {
    if bit == 0 then w else Two32 - 1 - w
  }

  /** `_pbcV_dezigzag64` */
  function Dezigzag(v: Longlong): Longlong {
    var bit := v.low % 2;
    Longlong(Xored(v.low / 2 + v.hi % 2 * 0x8000_0000, bit), Xored(v.hi / 2, bit))
  }

  /** Zigzag numbers the integers 0, -1, 1, -2, 2, and so on. */
  lemma ZigzagIs(n: Int64)
    ensures Zigzag(n) == if n >= 0 then 2 * n else -2 * n - 1
  {
    if n < 0 { assert 2 * n % Two64 == 2 * n + Two64; }
  }

  /** The words of `w / 2`, both complemented if `w` is odd. */
  lemma DezigzagIs(v: Longlong)
    ensures var w := Whole(v); Whole(Dezigzag(v)) == if w % 2 == 0 then w / 2 else Two64 - 1 - w / 2
  {
    var w := Whole(v);
    assert w % 2 == v.low % 2;
    assert v.low / 2 + v.hi % 2 * 0x8000_0000 + v.hi / 2 * Two32 == w / 2;
  }

  lemma DezigzagZigzag(n: Int64, v: Longlong)
    requires Whole(v) == Zigzag(n)
    ensures Whole(Dezigzag(v)) == Bits(n) && Signed(Whole(Dezigzag(v))) == n
  {
    ZigzagIs(n);
    DezigzagIs(v);
    var m: int := n;
    if m < 0 { assert (-2 * m - 1) % 2 == 1 && (-2 * m - 1) / 2 == -m - 1; }
  }
}
