/** DES (FIPS 46-3) as lua-crypt.c computes it: permutations as word operations, sixteen Feistel
    rounds, blocks with padding.  The round function and the key schedule are arbitrary: the round trip
    does not depend on them.  A word or byte is the sequence of its bits, least significant first. */
module Des {

  type Word = w: seq<bool> | |w| == 32 witness seq(32, _ => false)
  type Byte = b: seq<bool> | |b| == 8 witness seq(8, _ => false)

  // ---------- words ----------

  function Pow2(n: nat): (r: nat)
    ensures r > 0
  {
    if n == 0 then 1 else 2 * Pow2(n - 1)
  }

  function Bit(c: nat, i: nat): bool { c / Pow2(i) % 2 == 1 }

  function Const(c: nat): Word { seq(32, i requires 0 <= i < 32 => Bit(c, i)) }

  function Xor(a: Word, b: Word): Word { seq(32, i requires 0 <= i < 32 => a[i] != b[i]) }
  function And(a: Word, b: Word): Word { seq(32, i requires 0 <= i < 32 => a[i] && b[i]) }
  function Shl(a: Word, s: nat): Word { seq(32, i requires 0 <= i < 32 => i >= s && a[i - s]) }
  function Shr(a: Word, s: nat): Word { seq(32, i requires 0 <= i < 32 => i + s < 32 && a[i + s]) }
  function Or(a: Word, b: Word): Word { seq(32, i requires 0 <= i < 32 => a[i] || b[i]) }

  datatype Pair = Pair(x: Word, y: Word)

  function Flip(p: Pair): Pair { Pair(p.y, p.x) }

  // ---------- permutations ----------

  /** `T = ((X >> s) ^ Y) & mask; Y ^= T; X ^= T << s` */
  function Swap(p: Pair, s: nat, mask: nat): Pair {
    var t := And(Xor(Shr(p.x, s), p.y), Const(mask));
    Pair(Xor(p.x, Shl(t, s)), Xor(p.y, t))
  }

  /** The same with the two words exchanged. */
  function Swop(p: Pair, s: nat, mask: nat): Pair { Flip(Swap(Flip(p), s, mask)) }

  function Left(x: Word): Word { Or(Shl(x, 1), Shr(x, 31)) }
  function Right(x: Word): Word { Or(Shl(x, 31), Shr(x, 1)) }

  /** `DES_IP` */
  function Ip(p: Pair): Pair {
    var a := Swop(Swop(Swap(Swap(p, 4, 0x0F0F0F0F), 16, 0x0000FFFF), 2, 0x33333333), 8, 0x00FF00FF);
    var b := Swap(Pair(a.x, Left(a.y)), 0, 0xAAAAAAAA);
    Pair(Left(b.x), b.y)
  }

  /** `DES_FP` */
  function Fp(p: Pair): Pair {
    var a := Swap(Pair(Right(p.x), p.y), 0, 0xAAAAAAAA);
    Swap(Swap(Swop(Swop(Pair(a.x, Right(a.y)), 8, 0x00FF00FF), 2, 0x33333333), 16, 0x0000FFFF), 4, 0x0F0F0F0F)
  }

  lemma {:induction false} Pow2Grows(i: nat, j: nat)
    requires i <= j
    ensures Pow2(i) <= Pow2(j)
    decreases j
  {
    if i < j { Pow2Grows(i, j - 1); }
  }

  lemma SmallQuotient(c: nat, q: nat)
    requires c < q
    ensures c / q == 0
  {
  }

  /** A constant below a power of two has no bits from there on. */
  lemma HighBits(c: nat, n: nat, i: nat)
    requires c < Pow2(n) && n <= i
    ensures !Bit(c, i)
  {
    Pow2Grows(n, i);
    SmallQuotient(c, Pow2(i));
  }

  /** An exchange of bits undoes itself, if the mask leaves room for the shift. */
  lemma SwapTwice(p: Pair, s: nat, mask: nat)
    requires s <= 32 && mask < Pow2(32 - s)
    ensures Swap(Swap(p, s, mask), s, mask) == p
  {
    var m := Const(mask);
    var t := And(Xor(Shr(p.x, s), p.y), m);
    var q := Swap(p, s, mask);
    forall i: nat | i < 32 && 32 - s <= i ensures !m[i] { HighBits(mask, 32 - s, i); }
    assert And(Xor(Shr(q.x, s), q.y), m) == t;
    assert Xor(Xor(p.x, Shl(t, s)), Shl(t, s)) == p.x;
    assert Xor(Xor(p.y, t), t) == p.y;
  }

  lemma SwopTwice(p: Pair, s: nat, mask: nat)
    requires s <= 32 && mask < Pow2(32 - s)
    ensures Swop(Swop(p, s, mask), s, mask) == p
  {
    SwapTwice(Flip(p), s, mask);
  }

  lemma Rotated(x: Word)
    ensures Left(Right(x)) == x && Right(Left(x)) == x
  {
  }

  lemma NextPowers(n: nat)
    ensures Pow2(n + 2) == 4 * Pow2(n) && Pow2(n + 4) == 16 * Pow2(n)
  {
    assert Pow2(n + 1) == 2 * Pow2(n);
    assert Pow2(n + 2) == 2 * Pow2(n + 1);
    assert Pow2(n + 3) == 2 * Pow2(n + 2);
  }

  lemma Powers()
    ensures Pow2(32) == 0x1_0000_0000 && Pow2(30) == 0x4000_0000 && Pow2(28) == 0x1000_0000
    ensures Pow2(24) == 0x100_0000 && Pow2(16) == 0x1_0000
  {
    NextPowers(0); NextPowers(4); NextPowers(8); NextPowers(12); NextPowers(16); NextPowers(20);
    NextPowers(24); NextPowers(28);
  }

  /** The two permutations undo each other. */
  lemma FpIp(p: Pair)
    ensures Fp(Ip(p)) == p
  {
    Powers();
    var s4 := Swap(p, 4, 0x0F0F0F0F);
    var s16 := Swap(s4, 16, 0x0000FFFF);
    var s2 := Swop(s16, 2, 0x33333333);
    var a := Swop(s2, 8, 0x00FF00FF);
    var r := Pair(a.x, Left(a.y));
    var b := Swap(r, 0, 0xAAAAAAAA);
    Rotated(b.x);
    Rotated(a.y);
    SwapTwice(r, 0, 0xAAAAAAAA);
    SwopTwice(s2, 8, 0x00FF00FF);
    SwopTwice(s16, 2, 0x33333333);
    SwapTwice(s4, 16, 0x0000FFFF);
    SwapTwice(p, 4, 0x0F0F0F0F);
  }

  lemma IpFp(p: Pair)
    ensures Ip(Fp(p)) == p
  {
    Powers();
    var r := Pair(Right(p.x), p.y);
    var a := Swap(r, 0, 0xAAAAAAAA);
    var b := Pair(a.x, Right(a.y));
    var s8 := Swop(b, 8, 0x00FF00FF);
    var s2 := Swop(s8, 2, 0x33333333);
    var s16 := Swap(s2, 16, 0x0000FFFF);
    Rotated(p.x);
    Rotated(a.y);
    SwapTwice(r, 0, 0xAAAAAAAA);
    SwopTwice(b, 8, 0x00FF00FF);
    SwopTwice(s8, 2, 0x33333333);
    SwapTwice(s2, 16, 0x0000FFFF);
    SwapTwice(s16, 4, 0x0F0F0F0F);
  }

  // ---------- rounds ----------

  /** What a round adds to the other half: two subkeys and one half. */
  type Mix = (Word, Word, Word) -> Word

  type Schedule = k: seq<Word> | |k| == 32 witness seq(32, _ => seq(32, _ => false))

  /** `DES_ROUND(Y, X); DES_ROUND(X, Y)` with the four subkeys from `4 * j`. */
  function TwoRounds(f: Mix, k: Schedule, j: nat, p: Pair): Pair
    requires j < 8
  {
    var x := Xor(p.x, f(k[4 * j], k[4 * j + 1], p.y));
    Pair(x, Xor(p.y, f(k[4 * j + 2], k[4 * j + 3], x)))
  }

  function Rounds(f: Mix, k: Schedule, p: Pair, n: nat): Pair
    requires n <= 8
  {
    if n == 0 then p else TwoRounds(f, k, n - 1, Rounds(f, k, p, n - 1))
  }

  /** The schedule of `ldesdecode`: the same pairs of subkeys, last round first. */
  function Backward(k: Schedule): Schedule {
    seq(32, i requires 0 <= i < 32 => if i % 2 == 0 then k[30 - i] else k[32 - i])
  }

  lemma XorTwice(a: Word, b: Word)
    ensures Xor(Xor(a, b), b) == a
  {
  }

  lemma UndoTwoRounds(f: Mix, k: Schedule, j: nat, p: Pair)
    requires j < 8
    ensures TwoRounds(f, Backward(k), 7 - j, Flip(TwoRounds(f, k, j, p))) == Flip(p)
  {
    var q := TwoRounds(f, k, j, p);
    XorTwice(p.y, f(k[4 * j + 2], k[4 * j + 3], q.x));
    XorTwice(p.x, f(k[4 * j], k[4 * j + 1], p.y));
  }

  /** Running on with the reversed schedule walks the rounds back. */
  lemma {:induction false} UndoRounds(f: Mix, k: Schedule, p: Pair, n: nat)
    requires n <= 8
    ensures Rounds(f, Backward(k), Flip(Rounds(f, k, p, 8)), n) == Flip(Rounds(f, k, p, 8 - n))
  {
    if n > 0 {
      UndoRounds(f, k, p, n - 1);
      UndoTwoRounds(f, k, 8 - n, Rounds(f, k, p, 8 - n));
    }
  }

  lemma BackwardTwice(k: Schedule)
    ensures Backward(Backward(k)) == k
  {
  }

  // ---------- one block ----------

  type Block = b: seq<Byte> | |b| == 8 witness seq(8, _ => seq(8, _ => false))

  /** `GET_UINT32`, most significant byte first. */
  function GetWord(b: seq<Byte>): Word
    requires |b| == 4
  {
    var b0: seq<bool>, b1: seq<bool>, b2: seq<bool>, b3: seq<bool> := b[0], b[1], b[2], b[3];
    b3 + b2 + b1 + b0
  }

  /** `PUT_UINT32` */
  function PutWord(w: Word): (b: seq<Byte>)
    ensures |b| == 4
  {
    [w[24..], w[16..24], w[8..16], w[..8]]
  }

  function Load(b: Block): Pair { Pair(GetWord(b[..4]), GetWord(b[4..])) }
  function Store(p: Pair): Block { PutWord(p.x) + PutWord(p.y) }

  lemma GetPut(w: Word)
    ensures GetWord(PutWord(w)) == w
  {
  }

  lemma PutGet(b: seq<Byte>)
    requires |b| == 4
    ensures PutWord(GetWord(b)) == b
  {
    var w := GetWord(b);
    assert w[24..] == b[0] && w[16..24] == b[1] && w[8..16] == b[2] && w[..8] == b[3];
  }

  lemma LoadStore(p: Pair)
    ensures Load(Store(p)) == p
  {
    GetPut(p.x);
    GetPut(p.y);
  }

  lemma StoreLoad(b: Block)
    ensures Store(Load(b)) == b
  {
    PutGet(b[..4]);
    PutGet(b[4..]);
  }

  function CryptPair(f: Mix, k: Schedule, p: Pair): Pair { Fp(Flip(Rounds(f, k, Ip(p), 8))) }

  function Crypt(f: Mix, k: Schedule, b: Block): Block { Store(CryptPair(f, k, Load(b))) }

  lemma CryptPairBack(f: Mix, k: Schedule, p: Pair)
    ensures CryptPair(f, Backward(k), CryptPair(f, k, p)) == p
  {
    IpFp(Flip(Rounds(f, k, Ip(p), 8)));
    UndoRounds(f, k, Ip(p), 8);
    FpIp(p);
  }

  /** Decryption undoes encryption, and the other way round, for every round function and schedule. */
  lemma CryptBack(f: Mix, k: Schedule, b: Block)
    ensures Crypt(f, Backward(k), Crypt(f, k, b)) == b
    ensures Crypt(f, k, Crypt(f, Backward(k), b)) == b
  {
    CryptOnce(f, k, b);
    CryptOnce(f, Backward(k), b);
    BackwardTwice(k);
  }

  lemma CryptOnce(f: Mix, k: Schedule, b: Block)
    ensures Crypt(f, Backward(k), Crypt(f, k, b)) == b
  {
    LoadStore(CryptPair(f, k, Load(b)));
    CryptPairBack(f, k, Load(b));
    StoreLoad(b);
  }

  /** `des_crypt`, with its output at `buffer + i`. */
  method DesCrypt(f: Mix, k: Schedule, b: Block, buffer: array<Byte>, i: nat)
    requires i + 8 <= buffer.Length
    modifies buffer
    ensures buffer[i..i + 8] == Crypt(f, k, b)
    ensures buffer[..i] == old(buffer[..i]) && buffer[i + 8..] == old(buffer[i + 8..])
  {
    var p := Ip(Pair(GetWord(b[..4]), GetWord(b[4..])));
    var x, y := p.x, p.y;
    for j := 0 to 8
      invariant Pair(x, y) == Rounds(f, k, p, j)
    {
      x := Xor(x, f(k[4 * j], k[4 * j + 1], y));
      y := Xor(y, f(k[4 * j + 2], k[4 * j + 3], x));
    }
    var q := Fp(Pair(y, x));
    var output: Block := PutWord(q.x) + PutWord(q.y);
    for j := 0 to 8
      invariant forall h :: 0 <= h < j ==> buffer[i + h] == output[h]
      invariant buffer[..i] == old(buffer[..i]) && buffer[i + 8..] == old(buffer[i + 8..])
    {
      buffer[i + j] := output[j];
    }
  }

  // ---------- texts ----------

  const Zero: Byte := [false, false, false, false, false, false, false, false]
  /** 0x80 */
  const Mark: Byte := [false, false, false, false, false, false, false, true]

  /** What follows a text of `n` bytes: a mark, and zeros up to a whole block. */
  function Padding(n: nat): seq<Byte> { [Mark] + seq(7 - n % 8, _ => Zero) }

  function Padded(t: seq<Byte>): (s: seq<Byte>)
    ensures |s| % 8 == 0 && |t| < |s| <= |t| + 8 && |s| == (|t| + 8) / 8 * 8
  {
    t + Padding(|t|)
  }

  /** The first `n` blocks, each by itself. */
  function BlocksTo(c: Block -> Block, s: seq<Byte>, n: nat): (r: seq<Byte>)
    requires 8 * n <= |s|
    ensures |r| == 8 * n
  {
    if n == 0 then [] else BlocksTo(c, s, n - 1) + c(s[8 * n - 8..8 * n])
  }

  function Blocks(c: Block -> Block, s: seq<Byte>): (r: seq<Byte>)
    requires |s| % 8 == 0
    ensures |r| == |s|
  {
    BlocksTo(c, s, |s| / 8)
  }

  function Cipher(f: Mix, k: Schedule): Block -> Block { (b: Block) => Crypt(f, k, b) }

  /** `c` is the cipher; asked for one block at a time, to keep its definition out of the loops. */
  ghost predicate Runs(c: Block -> Block, f: Mix, k: Schedule) {
    forall b: Block {:trigger Asked(b)} :: Asked(b) ==> c(b) == Crypt(f, k, b)
  }

  ghost predicate Asked(b: Block) { true }

  function Encoded(f: Mix, k: Schedule, t: seq<Byte>): seq<Byte> { Blocks(Cipher(f, k), Padded(t)) }

  lemma {:induction false} BlocksSame(c: Block -> Block, s: seq<Byte>, t: seq<Byte>, n: nat)
    requires 8 * n <= |s| && 8 * n <= |t|
    requires forall j :: 0 <= j < 8 * n ==> s[j] == t[j]
    ensures BlocksTo(c, s, n) == BlocksTo(c, t, n)
  {
    if n > 0 {
      BlocksSame(c, s, t, n - 1);
      assert s[8 * n - 8..8 * n] == t[8 * n - 8..8 * n];
    }
  }

  lemma {:induction false} BlocksFront(c: Block -> Block, s: seq<Byte>, m: nat, n: nat)
    requires m <= n && 8 * n <= |s|
    ensures BlocksTo(c, s, n)[..8 * m] == BlocksTo(c, s, m)
    decreases n
  {
    if m < n {
      BlocksFront(c, s, m, n - 1);
      assert BlocksTo(c, s, n)[..8 * m] == BlocksTo(c, s, n - 1)[..8 * m];
    }
  }

  lemma {:induction false} BlocksBackTo(c: Block -> Block, d: Block -> Block, s: seq<Byte>, n: nat)
    requires |s| % 8 == 0 && 8 * n <= |s|
    requires forall b: Block :: d(c(b)) == b
    ensures BlocksTo(d, Blocks(c, s), n) == s[..8 * n]
  {
    if n > 0 {
      BlocksBackTo(c, d, s, n - 1);
      BlocksFront(c, s, n, |s| / 8);
      var r := Blocks(c, s);
      assert r[8 * n - 8..8 * n] == r[..8 * n][8 * n - 8..] == c(s[8 * n - 8..8 * n]);
    }
  }

  lemma {:induction false} BlocksBack(c: Block -> Block, d: Block -> Block, s: seq<Byte>)
    requires |s| % 8 == 0
    requires forall b: Block :: d(c(b)) == b
    ensures Blocks(d, Blocks(c, s)) == s
  {
    BlocksBackTo(c, d, s, |s| / 8);
    assert s[..|s|] == s;
  }

  /** The padding begins at `i`: in the last block, with a mark and zeros after it. */
  ghost predicate PaddedAt(s: seq<Byte>, i: int) {
    0 <= i && |s| - 8 <= i < |s| && s[i] == Mark && forall j :: i < j < |s| ==> s[j] == Zero
  }

  lemma MarkNotZero()
    ensures Mark != Zero
  {
    assert Mark[7] && !Zero[7];
  }

  lemma PaddedWhere(s: seq<Byte>, t: seq<Byte>)
    requires |s| % 8 == 0
    ensures s == Padded(t) <==> PaddedAt(s, |t|) && s[..|t|] == t
  {
    if s == Padded(t) {
      assert s[|t|] == Mark;
    }
    if PaddedAt(s, |t|) && s[..|t|] == t {
      assert |s| == |Padded(t)|;
      assert s == Padded(t);
    }
  }

  /** `Outside`: the scan for the padding has left the buffer, and what happens is not defined. */
  datatype Outcome = Ok(text: seq<Byte>) | InvalidKey | InvalidLength | InvalidText | Outside

  /** The next block of `s`, where the loops of encoding and decoding stand. */
  method CryptNext(ghost c: Block -> Block, f: Mix, k: Schedule, ghost s: seq<Byte>, ghost n: nat, b: Block,
                   buffer: array<Byte>, i: nat)
    requires Runs(c, f, k)
    requires i == 8 * n && i + 8 <= buffer.Length && i + 8 <= |s|
    requires buffer[..i] == BlocksTo(c, s, n) && s[i..i + 8] == b
    modifies buffer
    ensures buffer[..i + 8] == BlocksTo(c, s, n + 1)
  {
    DesCrypt(f, k, b, buffer, i);
    assert Asked(b);
    assert buffer[..i + 8] == buffer[..i] + buffer[i..i + 8];
  }

  /** The loop over whole blocks, in encoding and in decoding. */
  method CryptWhole(ghost c: Block -> Block, f: Mix, k: Schedule, text: seq<Byte>, buffer: array<Byte>)
    returns (i: nat)
    requires Runs(c, f, k)
    requires |text| <= buffer.Length
    modifies buffer
    ensures i == |text| / 8 * 8 <= |text| < i + 8
    ensures buffer[..i] == BlocksTo(c, text, |text| / 8)
  {
    i := 0;
    ghost var n := 0;
    while i < |text| - 7
      invariant i == 8 * n <= |text|
      invariant buffer[..i] == BlocksTo(c, text, n)
    {
      CryptNext(c, f, k, text, n, text[i..i + 8], buffer, i);
      i := i + 8;
      n := n + 1;
    }
  }

  /** The last block of the padded text. */
  method TailBlock(text: seq<Byte>, i: nat) returns (tail: array<Byte>)
    requires i % 8 == 0 && i <= |text| < i + 8
    ensures fresh(tail) && tail.Length == 8 && tail[..] == Padded(text)[i..]
  {
    var bytes := |text| - i;
    tail := new Byte[8](_ => Zero);
    for j := 0 to 8
      invariant forall h :: 0 <= h < j ==> tail[h] == Padded(text)[i + h]
    {
      tail[j] := if j < bytes then text[i + j] else if j == bytes then Mark else Zero;
    }
  }

  /** The body of `ldesencode`, after the key. */
  method EncodeText(ghost c: Block -> Block, f: Mix, k: Schedule, text: seq<Byte>) returns (buffer: array<Byte>)
    requires Runs(c, f, k)
    ensures fresh(buffer) && buffer[..] == Blocks(c, Padded(text))
  {
    buffer := new Byte[(|text| + 8) / 8 * 8](_ => Zero);
    var i := CryptWhole(c, f, k, text, buffer);
    EncodeTail(c, f, k, text, |text| / 8, buffer, i);
  }

  /** The padded tail behind the whole blocks. */
  method EncodeTail(ghost c: Block -> Block, f: Mix, k: Schedule, text: seq<Byte>, ghost n: nat, buffer: array<Byte>, i: nat)
    requires Runs(c, f, k) && i == 8 * n <= |text| < i + 8 == buffer.Length
    requires buffer[..i] == BlocksTo(c, text, n)
    modifies buffer
    ensures buffer[..] == Blocks(c, Padded(text))
  {
    var tail := TailBlock(text, i);
    ghost var s := Padded(text);
    TailLast(text, i);
    BlocksSame(c, text, s, n);
    CryptNext(c, f, k, s, n, tail[..], buffer, i);
    assert buffer[..] == buffer[..i + 8];
  }

  /** `ldesencode`; `schedule` stands for `des_main_ks`. */
  method DesEncode(f: Mix, schedule: seq<Byte> -> Schedule, key: seq<Byte>, text: seq<Byte>) returns (r: Outcome)
    ensures r == if |key| == 8 then Ok(Encoded(f, schedule(key), text)) else InvalidKey
  {
    if |key| != 8 { return InvalidKey; }
    var k := schedule(key);
    var buffer := EncodeText(Cipher(f, k), f, k, text);
    r := Ok(buffer[..]);
  }

  lemma TailLast(t: seq<Byte>, i: nat)
    requires i % 8 == 0 && i <= |t| < i + 8
    ensures |Padded(t)| == i + 8 && Padded(t)[i..i + 8] == Padded(t)[i..]
    ensures forall j :: 0 <= j < i ==> Padded(t)[j] == t[j]
  {
  }

  /** The schedule loop of `ldesdecode`. */
  method ReverseSchedule(k: Schedule) returns (r: array<Word>)
    ensures fresh(r) && r.Length == 32 && r[..] == Backward(k)
  {
    r := new Word[32](_ => k[0]);
    var i := 0;
    while i < 32
      invariant 0 <= i <= 32 && i % 2 == 0
      invariant forall h :: 0 <= h < i ==> r[h] == Backward(k)[h]
    {
      r[i] := k[30 - i];
      r[i + 1] := k[31 - i];
      i := i + 2;
    }
  }

  /** An `int` compared with a `size_t`: a negative number counts as a huge one. */
  predicate AtLeast(i: int, bound: nat)
    requires -0x8000_0000 <= i
  {
    (if i < 0 then i + 0x1_0000_0000_0000_0000 else i) >= bound
  }

  ghost predicate AllZero(s: seq<Byte>) { forall j :: 0 <= j < |s| ==> s[j] == Zero }

  datatype Scan = Found(padding: nat) | NotFound | Beyond

  /** The scan for the padding, backwards over the last block.  It leaves the buffer exactly if that is one
      block of zeros. */
  method FindPadding(s: seq<Byte>) returns (r: Scan)
    requires |s| % 8 == 0 && |s| > 0
    ensures r.Beyond? <==> |s| == 8 && AllZero(s)
    ensures r.Found? ==> r.padding <= 8 && PaddedAt(s, |s| - r.padding)
    ensures !r.Found? ==> forall i :: !PaddedAt(s, i)
  {
    MarkNotZero();
    var padding := 1;
    var i := |s| - 1;
    while AtLeast(i, |s| - 8)
      invariant |s| - 9 <= i < |s| && padding == |s| - i
      invariant forall j :: i < j < |s| ==> s[j] == Zero
      decreases i + 1
    {
      if i < 0 {
        return Beyond;
      } else if s[i] == Zero {
        padding := padding + 1;
      } else if s[i] == Mark {
        break;
      } else {
        return NotFound;
      }
      i := i - 1;
    }
    r := if padding > 8 then NotFound else Found(padding);
  }

  /** A cipher text decodes exactly to the text that encodes to it. */
  lemma {:induction false} DecodedIff(f: Mix, k: Schedule, c: seq<Byte>, t: seq<Byte>)
    requires |c| % 8 == 0
    ensures c == Encoded(f, k, t) <==> Blocks(Cipher(f, Backward(k)), c) == Padded(t)
  {
    var e, d := Cipher(f, k), Cipher(f, Backward(k));
    forall b: Block ensures d(e(b)) == b && e(d(b)) == b { CryptBack(f, k, b); }
    BlocksBack(e, d, Padded(t));
    BlocksBack(d, e, c);
  }

  method DecodeBlocks(ghost c: Block -> Block, f: Mix, k: Schedule, text: seq<Byte>) returns (buffer: array<Byte>)
    requires Runs(c, f, k) && |text| % 8 == 0
    ensures fresh(buffer) && buffer[..] == Blocks(c, text)
  {
    buffer := new Byte[|text|](_ => Zero);
    var i := CryptWhole(c, f, k, text, buffer);
    assert buffer[..] == buffer[..i];
  }

  /** `ldesdecode`: succeeds exactly on what `DesEncode` produces, and gives back the text. */
  method DesDecode(f: Mix, schedule: seq<Byte> -> Schedule, key: seq<Byte>, text: seq<Byte>) returns (r: Outcome)
    ensures r.InvalidKey? <==> |key| != 8
    ensures r.InvalidLength? <==> |key| == 8 && (|text| % 8 != 0 || |text| == 0)
    ensures |key| == 8 ==> forall t :: r == Ok(t) <==> text == Encoded(f, schedule(key), t)
    ensures r.Outside? <==> |key| == 8 && |text| == 8 && AllZero(Crypt(f, Backward(schedule(key)), text))
  {
    if |key| != 8 { return InvalidKey; }
    if |text| % 8 != 0 || |text| == 0 { return InvalidLength; }
    var reversed := ReverseSchedule(schedule(key));
    var k: Schedule := reversed[..];
    var buffer := DecodeBlocks(Cipher(f, k), f, k, text);
    var scan := FindPadding(buffer[..]);
    match scan {
      case Found(padding) => r := Ok(buffer[..|text| - padding]);
      case NotFound => r := InvalidText;
      case Beyond => r := Outside;
    }
    DecodedText(f, schedule(key), text, buffer[..], scan.Found?, if scan.Found? then scan.padding else 0);
    if |text| == 8 { OneBlock(Cipher(f, k), text); }
  }

  lemma OneBlock(c: Block -> Block, s: seq<Byte>)
    requires |s| == 8
    ensures Blocks(c, s) == c(s)
  {
    assert s[0..8] == s;
    assert BlocksTo(c, s, 0) == [];
    assert BlocksTo(c, s, 1) == BlocksTo(c, s, 0) + c(s[0..8]);
  }

  lemma {:induction false} DecodedText(f: Mix, k: Schedule, c: seq<Byte>, s: seq<Byte>, found: bool, padding: nat)
    requires |c| % 8 == 0 && s == Blocks(Cipher(f, Backward(k)), c)
    requires if found then padding <= |s| && PaddedAt(s, |s| - padding) else forall i :: !PaddedAt(s, i)
    ensures forall t :: c == Encoded(f, k, t) <==> found && t == s[..|s| - padding]
  {
    forall t ensures c == Encoded(f, k, t) <==> found && t == s[..|s| - padding] {
      DecodedIff(f, k, c, t);
      Unpadded(s, found, padding, t);
    }
  }

  lemma Unpadded(s: seq<Byte>, found: bool, padding: nat, t: seq<Byte>)
    requires |s| % 8 == 0
    requires if found then padding <= |s| && PaddedAt(s, |s| - padding) else forall i :: !PaddedAt(s, i)
    ensures s == Padded(t) <==> found && t == s[..|s| - padding]
  {
    PaddedWhere(s, t);
    if found { OnePadding(s, |s| - padding, |t|); }
  }

  lemma OnePadding(s: seq<Byte>, i: nat, j: nat)
    ensures PaddedAt(s, i) && PaddedAt(s, j) ==> i == j
  {
    MarkNotZero();
  }

  /** Every text, under every key of eight bytes, comes back. */
  method RoundTrip(f: Mix, schedule: seq<Byte> -> Schedule, key: seq<Byte>, text: seq<Byte>) returns (r: Outcome)
    requires |key| == 8
    ensures r == Ok(text)
  {
    var c := DesEncode(f, schedule, key, text);
    r := DesDecode(f, schedule, key, c.text);
  }
}
