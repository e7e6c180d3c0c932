/** The format of lua-seri.c: Lua values as bytes, and back. */
module LuaSeri {

  const MAX_COOKIE := 32
  const MAX_DEPTH := 32

  type Byte = x: int | 0 <= x < 256
  type Int64 = x: int | -0x8000_0000_0000_0000 <= x < 0x8000_0000_0000_0000
  /** The eight bytes of a double or of a pointer. */
  type Bytes8 = s: seq<Byte> | |s| == 8 witness [0, 0, 0, 0, 0, 0, 0, 0]

  /** A Lua value.  A table is what a traversal yields: the values at 1, 2, up to its length, and the other
      pairs in the order of `lua_next`, or of the iterator of `__pairs`. */
  datatype Value =
    | Nil
    | Boolean(b: bool)
    | Integer(n: Int64)
    | Real(bits: Bytes8)
    | Pointer(addr: Bytes8)
    | String(s: seq<Byte>)
    | Table(list: seq<Value>, pairs: seq<Pair>)
    | Other                                     // a function, a thread, a full userdata

  datatype Pair = Pair(key: Value, value: Value)

  // ---------- numbers as bytes ----------

  function Power(k: nat): (r: nat)
    ensures r > 0
  {
    if k == 0 then 1 else 256 * Power(k - 1)
  }

  /** The `k` low bytes of a number, lowest first. */
  function Low(n: nat, k: nat): (s: seq<Byte>)
    ensures |s| == k
  {
    if k == 0 then [] else [n % 256] + Low(n / 256, k - 1)
  }

  function Number(s: seq<Byte>): (n: nat)
    ensures n < Power(|s|)
  {
    if |s| == 0 then 0 else s[0] + 256 * Number(s[1..])
  }

  lemma {:induction false} NumberLow(n: nat, k: nat)
    requires n < Power(k)
    ensures Number(Low(n, k)) == n
    decreases k
  {
    if k > 0 {
      NumberLow(n / 256, k - 1);
      assert Low(n, k)[1..] == Low(n / 256, k - 1);
    }
  }

  lemma Powers()
    ensures Power(1) == 0x100 && Power(2) == 0x1_0000 && Power(4) == 0x1_0000_0000
    ensures Power(8) == 0x1_0000_0000_0000_0000
  {
    assert Power(1) == 256 * Power(0);
    assert Power(2) == 256 * Power(1);
    assert Power(3) == 256 * Power(2);
    assert Power(4) == 256 * Power(3);
    assert Power(5) == 256 * Power(4);
    assert Power(6) == 256 * Power(5);
    assert Power(7) == 256 * Power(6);
    assert Power(8) == 256 * Power(7);
  }

  /** Two's complement. */
  function Unsigned(v: int, m: nat): nat
    requires m > 0 && 0 - m <= v < m
  {
    if v < 0 then v + m else v
  }

  function Signed(n: nat, m: nat): int { if n < m / 2 then n else n - m }

  // ---------- writing ----------

  /** `COMBINE_TYPE` */
  function Head(t: nat, cookie: nat): Byte
    requires t < 8 && cookie < 32
  {
    t + 8 * cookie
  }

  /** `wb_integer` */
  function EncInteger(v: Int64): seq<Byte> {
    if v == 0 then [Head(2, 0)]
    else if !(-0x8000_0000 <= v < 0x8000_0000) then [Head(2, 6)] + Low(Unsigned(v, 0x1_0000_0000_0000_0000), 8)
    else if v < 0 then [Head(2, 4)] + Low(Unsigned(v, 0x1_0000_0000), 4)
    else if v < 0x100 then [Head(2, 1)] + Low(v, 1)
    else if v < 0x10000 then [Head(2, 2)] + Low(v, 2)
    else [Head(2, 4)] + Low(v, 4)
  }

  /** `wb_string` */
  function EncString(s: seq<Byte>): seq<Byte> {
    if |s| < MAX_COOKIE then [Head(4, |s|)] + s
    else if |s| < 0x10000 then [Head(5, 2)] + Low(|s|, 2) + s
    else [Head(5, 4)] + Low(|s|, 4) + s
  }

  /** The head of `wb_table_array` */
  function EncSize(n: nat): seq<Byte> {
    if n >= MAX_COOKIE - 1 then [Head(6, MAX_COOKIE - 1)] + EncInteger(n % 0x8000_0000)
    else [Head(6, n)]
  }

  /** `pack_one`, of a value that it does not reject. */
  function Enc(v: Value): seq<Byte>
    decreases v, 3, 0
  {
    match v
    case Nil => [Head(0, 0)]
    case Boolean(b) => [Head(1, if b then 1 else 0)]
    case Integer(n) => EncInteger(n)
    case Real(bits) => [Head(2, 8)] + bits
    case Pointer(addr) => [Head(3, 0)] + addr
    case String(s) => EncString(s)
    case Table(list, pairs) => EncSize(|list|) + EncArray(v, 0) + EncPairs(v, 0)
    case Other => []
  }

  function EncArray(t: Value, i: nat): seq<Byte>
    requires t.Table? && i <= |t.list|
    decreases t, 2, |t.list| - i
  {
    if i == |t.list| then [] else Enc(t.list[i]) + EncArray(t, i + 1)
  }

  /** The pairs, and the nil that ends them. */
  function EncPairs(t: Value, i: nat): seq<Byte>
    requires t.Table? && i <= |t.pairs|
    decreases t, 1, |t.pairs| - i
  {
    if i == |t.pairs| then [Head(0, 0)] else EncPair(t.pairs[i]) + EncPairs(t, i + 1)
  }

  function EncPair(p: Pair): seq<Byte>
    decreases p, 0, 0
  {
    Enc(p.key) + Enc(p.value)
  }

  // ---------- reading ----------

  /** `invalid_stream`, or a length from 2^31 on, which `rb_read` takes as negative: it passes the bounds test and
      bytes outside the stream are read. */
  datatype Error = Malformed | Outside

  datatype Read<+T> = Got(v: T, rest: seq<Byte>) | Bad(error: Error)

  /** `rb_read` */
  function Take(s: seq<Byte>, n: nat): (r: Read<seq<Byte>>)
    ensures r.Got? ==> |r.v| == n && |r.rest| == |s| - n
  {
    if |s| < n then Bad(Malformed) else Got(s[..n], s[n..])
  }

  function DecNumber(s: seq<Byte>, k: nat, signed: bool): (r: Read<int>)
    ensures r.Got? ==> |r.rest| == |s| - k
    ensures r.Got? ==> if signed then (0 - Power(k)) / 2 <= r.v < Power(k) / 2 + 1 else 0 <= r.v < Power(k)
  {
    match Take(s, k)
    case Bad(e) => Bad(e)
    case Got(b, rest) => Got(if signed then Signed(Number(b), Power(k)) else Number(b), rest)
  }

  /** `get_integer` */
  function DecInteger(s: seq<Byte>, cookie: nat): (r: Read<Int64>)
    ensures r.Got? ==> |r.rest| <= |s|
  {
    Powers();
    if cookie == 0 then Got(0, s)
    else if cookie == 1 then DecNumber(s, 1, false)
    else if cookie == 2 then DecNumber(s, 2, false)
    else if cookie == 4 then DecNumber(s, 4, true)
    else if cookie == 6 then DecNumber(s, 8, true)
    else Bad(Malformed)
  }

  function DecString(s: seq<Byte>, size: Read<int>): (r: Read<Value>)
    requires size.Got? ==> |size.rest| <= |s|
    ensures r.Got? ==> |r.rest| <= |s|
  {
    match size
    case Bad(e) => Bad(e)
    case Got(n, rest) =>
      if n < 0 || n >= 0x8000_0000 then Bad(Outside)
      else match Take(rest, n)
        case Bad(e) => Bad(e)
        case Got(b, rest') => Got(String(b), rest')
  }

  /** The length of a table: the cookie, or an integer behind it. */
  function DecSize(s: seq<Byte>, cookie: nat): (r: Read<int>)
    ensures r.Got? ==> |r.rest| <= |s|
  {
    if cookie != MAX_COOKIE - 1 then Got(cookie, s)
    else if |s| == 0 || s[0] % 8 != 2 || s[0] / 8 == 8 then Bad(Malformed)
    else match DecInteger(s[1..], s[0] / 8)
      case Bad(e) => Bad(e)
      case Got(n, rest) => Got(Signed(n % 0x1_0000_0000, 0x1_0000_0000), rest)
  }

  /** `unpack_one` */
  function Dec(s: seq<Byte>): (r: Read<Value>)
    ensures r.Got? ==> |r.rest| < |s|
    decreases |s|, 0, 0
  {
    if |s| == 0 then Bad(Malformed) else DecValue(s[1..], s[0] % 8, s[0] / 8)
  }

  /** `push_value` */
  function DecValue(s: seq<Byte>, t: nat, cookie: nat): (r: Read<Value>)
    ensures r.Got? ==> |r.rest| <= |s|
    decreases |s|, 3, 0
  {
    if t == 0 then Got(Nil, s)
    else if t == 1 then Got(Boolean(cookie != 0), s)
    else if t == 2 && cookie == 8 then
      match Take(s, 8)
      case Bad(e) => Bad(e)
      case Got(b, rest) => Got(Real(b), rest)
    else if t == 2 then
      match DecInteger(s, cookie)
      case Bad(e) => Bad(e)
      case Got(n, rest) => Got(Integer(n), rest)
    else if t == 3 then
      match Take(s, 8)
      case Bad(e) => Bad(e)
      case Got(b, rest) => Got(Pointer(b), rest)
    else if t == 4 then DecString(s, Got(cookie, s))
    else if t == 5 && cookie == 2 then DecString(s, DecNumber(s, 2, false))
    else if t == 5 && cookie == 4 then DecString(s, DecNumber(s, 4, false))
    else if t == 6 then DecTable(s, cookie)
    else Bad(Malformed)
  }

  /** `unpack_table` */
  function DecTable(s: seq<Byte>, cookie: nat): (r: Read<Value>)
    ensures r.Got? ==> |r.rest| <= |s|
    decreases |s|, 2, 0
  {
    match DecSize(s, cookie)
    case Bad(e) => Bad(e)
    case Got(n, rest) =>
      match DecArray(rest, n)
      case Bad(e) => Bad(e)
      case Got(list, rest1) =>
        match DecPairs(rest1)
        case Bad(e) => Bad(e)
        case Got(pairs, rest2) => Got(Table(list, pairs), rest2)
  }

  function DecArray(s: seq<Byte>, n: int): (r: Read<seq<Value>>)
    ensures r.Got? ==> |r.rest| <= |s|
    decreases |s|, 1, 0
  {
    if n <= 0 then Got([], s)
    else match Dec(s)
      case Bad(e) => Bad(e)
      case Got(v, rest) =>
        match DecArray(rest, n - 1)
        case Bad(e) => Bad(e)
        case Got(list, rest') => Got([v] + list, rest')
  }

  /** Not a number: `lua_rawset` does not take it as a key. */
  predicate NotANumber(v: Value) {
    v.Real? && v.bits[7] % 128 == 127 && v.bits[6] / 16 == 15 && !(v.bits[6] % 16 == 0 && v.bits[..6] == [0, 0, 0, 0, 0, 0])
  }

  function DecPairs(s: seq<Byte>): (r: Read<seq<Pair>>)
    ensures r.Got? ==> |r.rest| <= |s|
    decreases |s|, 1, 0
  {
    match Dec(s)
    case Bad(e) => Bad(e)
    case Got(key, rest) =>
      if key == Nil then Got([], rest)
      else match Dec(rest)
        case Bad(e) => Bad(e)
        case Got(value, rest1) =>
          if NotANumber(key) then Bad(Malformed)
          else match DecPairs(rest1)
            case Bad(e) => Bad(e)
            case Got(list, rest2) => Got([Pair(key, value)] + list, rest2)
  }

  // ---------- round trip ----------

  /** What the format can carry: no functions or the like, no table deeper than it is checked elsewhere,
      lengths that fit an `int`, and table keys as Lua allows them. */
  predicate Storable(v: Value) {
    match v
    case String(s) => |s| < 0x8000_0000
    case Table(list, pairs) =>
      && |list| < 0x8000_0000
      && (forall i :: 0 <= i < |list| ==> Storable(list[i]))
      && (forall i :: 0 <= i < |pairs| ==> StorablePair(pairs[i]))
    case Other => false
    case _ => true
  }

  predicate StorablePair(p: Pair) {
    Storable(p.key) && Storable(p.value) && p.key != Nil && !NotANumber(p.key)
  }

  lemma TakeFront(a: seq<Byte>, rest: seq<Byte>)
    ensures Take(a + rest, |a|) == Got(a, rest)
  {
    assert (a + rest)[..|a|] == a && (a + rest)[|a|..] == rest;
  }

  lemma {:induction false} NumberTrip(n: int, k: nat, signed: bool, rest: seq<Byte>)
    requires if signed then (0 - Power(k)) / 2 <= n < Power(k) / 2 else 0 <= n < Power(k)
    requires k > 0
    ensures DecNumber(Low(if n < 0 then n + Power(k) else n, k) + rest, k, signed) == Got(n, rest)
  {
    var u: nat := if n < 0 then n + Power(k) else n;
    TakeFront(Low(u, k), rest);
    NumberLow(u, k);
    assert Power(k) == 256 * Power(k - 1);
  }

  /** The bytes behind the head of an integer. */
  lemma {:induction false} IntegerTrip(n: Int64, rest: seq<Byte>)
    ensures var e := EncInteger(n);
      |e| > 0 && e[0] % 8 == 2 && e[0] / 8 != 8 && DecInteger(e[1..] + rest, e[0] / 8) == Got(n, rest)
  {
    Powers();
    var e := EncInteger(n);
    if n == 0 {
      assert e[1..] + rest == rest;
    } else if !(-0x8000_0000 <= n < 0x8000_0000) {
      NumberTrip(n, 8, true, rest);
      assert e[1..] == Low(Unsigned(n, 0x1_0000_0000_0000_0000), 8);
    } else if n < 0 {
      NumberTrip(n, 4, true, rest);
      assert e[1..] == Low(Unsigned(n, 0x1_0000_0000), 4);
    } else if n < 0x100 {
      NumberTrip(n, 1, false, rest);
      assert e[1..] == Low(n, 1);
    } else if n < 0x10000 {
      NumberTrip(n, 2, false, rest);
      assert e[1..] == Low(n, 2);
    } else {
      NumberTrip(n, 4, true, rest);
      assert e[1..] == Low(n, 4);
    }
  }

  /** A head and what is behind it. */
  lemma DecHead(head: Byte, body: seq<Byte>)
    ensures Dec([head] + body) == DecValue(body, head % 8, head / 8)
  {
    assert ([head] + body)[1..] == body;
  }

  lemma {:induction false} ShortTrip(s: seq<Byte>, rest: seq<Byte>)
    ensures DecString(s + rest, Got(|s|, s + rest)) == if |s| < 0x8000_0000 then Got(String(s), rest) else Bad(Outside)
  {
    TakeFront(s, rest);
  }

  lemma {:induction false} LongTrip(s: seq<Byte>, k: nat, rest: seq<Byte>)
    requires |s| < Power(k) && |s| < 0x8000_0000 && k > 0
    ensures DecString(Low(|s|, k) + (s + rest), DecNumber(Low(|s|, k) + (s + rest), k, false)) == Got(String(s), rest)
  {
    NumberTrip(|s|, k, false, s + rest);
    TakeFront(s, rest);
  }

  lemma Assoc(a: seq<Byte>, b: seq<Byte>, c: seq<Byte>)
    ensures a + b + c == a + (b + c)
  {
  }

  lemma {:induction false} StringTrip(s: seq<Byte>, rest: seq<Byte>)
    requires |s| < 0x8000_0000
    ensures Dec(EncString(s) + rest) == Got(String(s), rest)
  {
    Powers();
    if |s| < MAX_COOKIE {
      Assoc([Head(4, |s|)], s, rest);
      DecHead(Head(4, |s|), s + rest);
      ShortTrip(s, rest);
    } else {
      var k := if |s| < 0x10000 then 2 else 4;
      var low := Low(|s|, k);
      Assoc([Head(5, k)] + low, s, rest);
      Assoc([Head(5, k)], low, s + rest);
      DecHead(Head(5, k), low + (s + rest));
      LongTrip(s, k, rest);
    }
  }

  lemma {:induction false} EightTrip(head: Byte, b: seq<Byte>, rest: seq<Byte>)
    requires |b| == 8
    ensures Dec([head] + b + rest) == DecValue(b + rest, head % 8, head / 8)
    ensures Take(b + rest, 8) == Got(b, rest)
  {
    Assoc([head], b, rest);
    DecHead(head, b + rest);
    TakeFront(b, rest);
  }

  lemma {:induction false} WholeIntegerTrip(n: Int64, rest: seq<Byte>)
    ensures Dec(EncInteger(n) + rest) == Got(Integer(n), rest)
  {
    IntegerTrip(n, rest);
    var e := EncInteger(n);
    assert e == [e[0]] + e[1..];
    Assoc([e[0]], e[1..], rest);
    DecHead(e[0], e[1..] + rest);
  }

  lemma LongSize(head: Byte, e: seq<Byte>, n: nat, rest: seq<Byte>)
    requires n < 0x8000_0000 && |e| > 0 && e[0] % 8 == 2 && e[0] / 8 != 8
    requires DecInteger(e[1..] + rest, e[0] / 8) == Got(n, rest)
    ensures DecSize(([head] + e)[1..] + rest, MAX_COOKIE - 1) == Got(n, rest)
  {
    assert ([head] + e)[1..] == e;
    assert (e + rest)[1..] == e[1..] + rest;
  }

  /** The head of a table tells its length. */
  lemma {:induction false} SizeTrip(n: nat, rest: seq<Byte>)
    requires n < 0x8000_0000
    ensures var e := EncSize(n); |e| > 0 && e[0] % 8 == 6 && DecSize(e[1..] + rest, e[0] / 8) == Got(n, rest)
  {
    SizeForms(n);
    if n >= MAX_COOKIE - 1 { LongSizeTrip(n, rest); } else { ShortSizeTrip(n, rest); }
  }

  lemma SizeForms(n: nat)
    requires n < 0x8000_0000
    ensures EncSize(n) == if n >= MAX_COOKIE - 1 then [Head(6, MAX_COOKIE - 1)] + EncInteger(n) else [Head(6, n)]
    ensures EncSize(n)[0] == Head(6, if n >= MAX_COOKIE - 1 then MAX_COOKIE - 1 else n)
  {
  }

  lemma ShortSizeTrip(n: nat, rest: seq<Byte>)
    requires n < MAX_COOKIE - 1
    ensures DecSize([Head(6, n)][1..] + rest, n) == Got(n, rest)
  {
    ShortSize(Head(6, n), rest);
  }

  lemma {:induction false} LongSizeTrip(n: nat, rest: seq<Byte>)
    requires MAX_COOKIE - 1 <= n < 0x8000_0000
    ensures var e := [Head(6, MAX_COOKIE - 1)] + EncInteger(n); DecSize(e[1..] + rest, MAX_COOKIE - 1) == Got(n, rest)
  {
    IntegerTrip(n, rest);
    LongSize(Head(6, MAX_COOKIE - 1), EncInteger(n), n, rest);
  }

  lemma ShortSize(head: Byte, rest: seq<Byte>)
    ensures [head][1..] + rest == rest
  {
  }

  /** Every value comes back from its bytes, and no byte of what follows is used. */
  lemma {:induction false} RoundTrip(v: Value, rest: seq<Byte>)
    requires Storable(v)
    ensures Dec(Enc(v) + rest) == Got(v, rest)
    decreases v, 3, 0
  {
    match v {
      case Nil => DecHead(Head(0, 0), rest);
      case Boolean(b) => DecHead(Head(1, if b then 1 else 0), rest);
      case Integer(n) => WholeIntegerTrip(n, rest);
      case Real(bits) => EightTrip(Head(2, 8), bits, rest);
      case Pointer(addr) => EightTrip(Head(3, 0), addr, rest);
      case String(s) => StringTrip(s, rest);
      case Table(list, pairs) => TableTrip(v, rest);
    }
  }

  lemma {:induction false} TableTrip(t: Value, rest: seq<Byte>)
    requires Storable(t) && t.Table?
    ensures Dec(Enc(t) + rest) == Got(t, rest)
    decreases t, 2, |t.list| + 1
  {
    var e, a, p := EncSize(|t.list|), EncArray(t, 0), EncPairs(t, 0);
    ArrayTrip(t, 0, p + rest);
    PairsTrip(t, 0, rest);
    SizeTrip(|t.list|, a + (p + rest));
    Assoc(e + a, p, rest);
    Assoc(e, a, p + rest);
    assert e == [e[0]] + e[1..];
    Assoc([e[0]], e[1..], a + (p + rest));
    DecHead(e[0], e[1..] + (a + (p + rest)));
    assert t.list[0..] == t.list && t.pairs[0..] == t.pairs;
  }

  lemma {:induction false} ArrayTrip(t: Value, i: nat, rest: seq<Byte>)
    requires Storable(t) && t.Table? && i <= |t.list|
    ensures DecArray(EncArray(t, i) + rest, |t.list| - i) == Got(t.list[i..], rest)
    decreases t, 2, |t.list| - i
  {
    if i == |t.list| {
      assert EncArray(t, i) + rest == rest && t.list[i..] == [];
    } else {
      ArrayTrip(t, i + 1, rest);
      RoundTrip(t.list[i], EncArray(t, i + 1) + rest);
      Assoc(Enc(t.list[i]), EncArray(t, i + 1), rest);
      assert t.list[i..] == [t.list[i]] + t.list[i + 1..];
    }
  }

  lemma {:induction false} PairTrip(p: Pair, rest: seq<Byte>)
    requires StorablePair(p)
    ensures Dec(EncPair(p) + rest) == Got(p.key, Enc(p.value) + rest)
    ensures Dec(Enc(p.value) + rest) == Got(p.value, rest)
    decreases p, 0, 0
  {
    RoundTrip(p.key, Enc(p.value) + rest);
    RoundTrip(p.value, rest);
    Assoc(Enc(p.key), Enc(p.value), rest);
  }

  lemma {:induction false} PairsTrip(t: Value, i: nat, rest: seq<Byte>)
    requires Storable(t) && t.Table? && i <= |t.pairs|
    ensures DecPairs(EncPairs(t, i) + rest) == Got(t.pairs[i..], rest)
    decreases t, 1, |t.pairs| - i
  {
    if i == |t.pairs| {
      DecHead(Head(0, 0), rest);
      assert t.pairs[i..] == [];
    } else {
      var more := EncPairs(t, i + 1) + rest;
      PairsTrip(t, i + 1, rest);
      PairTrip(t.pairs[i], more);
      Assoc(EncPair(t.pairs[i]), EncPairs(t, i + 1), rest);
      assert t.pairs[i..] == [t.pairs[i]] + t.pairs[i + 1..];
    }
  }
}
