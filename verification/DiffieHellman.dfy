/** Modular multiplication and exponentiation in 64-bit words, lua-crypt.c, and the key exchange
    built on them. */
module DiffieHellman {

  const WORD := 0x1_0000_0000_0000_0000

  /** The biggest 64-bit prime. */
  const P := 0xffff_ffff_ffff_ffc5

  type Word = x: nat | x < WORD

  /** 64-bit arithmetic. */
  function Plus(a: Word, b: Word): Word { (a + b) % WORD }
  function Minus(a: Word, b: Word): Word { (a - b) % WORD }

  lemma PlusSmall(a: Word, b: Word)
    ensures a + b < WORD ==> Plus(a, b) == a + b
    ensures a >= b ==> Minus(a, b) == a - b
    ensures a + b >= WORD ==> Plus(a, b) == a + b - WORD
  {
  }

  /** Twice `a` less `P`, also where doubling leaves the word. */
  lemma DoubleLess(a: Word)
    requires P <= 2 * a && a <= P
    ensures Minus(Plus(a, a), P) == 2 * a - P
  {
    PlusSmall(a, a);
  }

  lemma ModUnique(x: int, q: int, m: int)
    requires x == m + q * P && 0 <= m < P
    ensures x % P == m
  {
    assert x == P * (x / P) + x % P;
    var d := x / P - q;
    assert P * d == m - x % P;
  }

  lemma Halves(a: int, b: nat)
    ensures a * b == 2 * a * (b / 2) + a * (b % 2)
  {
    assert b == 2 * (b / 2) + b % 2;
    assert a * b == a * (2 * (b / 2)) + a * (b % 2);
  }

  /** What remains after one round: `m` and `a` are reduced by `P` where the code does. */
  lemma Round(m: int, a: int, b: nat, q: int, all: int, dm: int, da: int)
    requires m + a * b + q * P == all
    ensures (m + a * (b % 2) - dm * P) + (2 * a - da * P) * (b / 2) + (q + dm + da * (b / 2)) * P == all
  {
    Halves(a, b);
    var h := b / 2;
    assert (2 * a - da * P) * h == 2 * a * h - da * P * h;
    assert da * P * h == da * h * P;
    assert (q + dm + da * h) * P == q * P + dm * P + da * h * P;
  }

  /** `mul_mod_p` */
  method MulModP(x: Word, y: Word) returns (m: Word)
    requires x <= P
    ensures m == x * y % P
  {
    var a: Word, b: Word := x, y;
    m := 0;
    ghost var q := 0;
    while b != 0
      invariant a <= P && m < P && m + a * b + q * P == x * y
      decreases b
    {
      ghost var dm, da := 0, 0;
      ghost var m0, a0, b0 := m, a, b;
      if b % 2 == 1 {
        var t := Minus(P, a);
        PlusSmall(P, a);
        PlusSmall(m, t);
        PlusSmall(m, a);
        if m >= t {
          m := Minus(m, t);
          dm := 1;
        } else {
          m := Plus(m, a);
        }
      }
      assert m == m0 + a0 * (b0 % 2) - dm * P;
      PlusSmall(P, a);
      PlusSmall(a, a);
      if a >= Minus(P, a) {
        DoubleLess(a);
        a := Minus(Plus(a, a), P);
        da := 1;
      } else {
        a := Plus(a, a);
      }
      assert a == 2 * a0 - da * P;
      Round(m0, a0, b0, q, x * y, dm, da);
      q := q + dm + da * (b0 / 2);
      b := b / 2;
    }
    ModUnique(x * y, q, m);
  }

  // ---------- exponentiation ----------

  function Pow(a: nat, n: nat): nat
    decreases n, a
  {
    if n == 0 then 1 else a * Pow(a, n - 1)
  }

  lemma {:induction false} PowAdd(a: nat, m: nat, n: nat)
    ensures Pow(a, m + n) == Pow(a, m) * Pow(a, n)
    decreases m
  {
    if m > 0 {
      PowAdd(a, m - 1, n);
      assert a * (Pow(a, m - 1) * Pow(a, n)) == a * Pow(a, m - 1) * Pow(a, n);
    }
  }

  lemma {:induction false} PowMul(a: nat, m: nat, n: nat)
    ensures Pow(a, m * n) == Pow(Pow(a, m), n)
    decreases n
  {
    if n > 0 {
      PowMul(a, m, n - 1);
      assert m * n == m + m * (n - 1);
      PowAdd(a, m, m * (n - 1));
    }
  }

  lemma MulMod(x: nat, y: nat)
    ensures (x % P) * y % P == x * y % P
    ensures x * (y % P) % P == x * y % P
  {
    var q := x / P;
    assert x == x % P + q * P;
    assert x * y == (x % P) * y + (q * y) * P by {
      assert (x % P + q * P) * y == (x % P) * y + q * P * y;
      assert q * P * y == q * y * P;
    }
    ShiftMod((x % P) * y, q * y);
    var r := y / P;
    assert y == y % P + r * P;
    assert x * y == x * (y % P) + (x * r) * P by {
      assert x * (y % P + r * P) == x * (y % P) + x * (r * P);
      assert x * (r * P) == x * r * P;
    }
    ShiftMod(x * (y % P), x * r);
  }

  lemma ShiftMod(x: nat, q: int)
    ensures (x + q * P) % P == x % P
  {
    ModUnique(x + q * P, x / P + q, x % P);
  }

  lemma {:induction false} PowMod(a: nat, n: nat)
    ensures Pow(a % P, n) % P == Pow(a, n) % P
    decreases n
  {
    if n > 0 {
      PowMod(a, n - 1);
      var p, p' := Pow(a, n - 1), Pow(a % P, n - 1);
      MulMod(a, p');
      MulMod(a, p');
      MulMod(p', a);
      MulMod(p, a);
      assert a * p' == p' * a && a * p == p * a;
    }
  }

  /** The power of the halved exponent, squared, and once more the base if the exponent is odd. */
  lemma PowHalf(a: nat, b: nat)
    ensures Pow(a, b) == Pow(a, b / 2) * Pow(a, b / 2) * (if b % 2 == 1 then a else 1)
  {
    var h := b / 2;
    PowAdd(a, h, h);
    if b % 2 == 1 {
      assert b == 1 + (h + h);
      assert Pow(a, b) == a * Pow(a, h + h);
    } else {
      assert b == h + h;
    }
  }

  /** `pow_mod_p`.  The one result that is not reduced is that for the base `P` itself and the
      exponent 1. */
  method PowModP(a: Word, b: Word) returns (t: Word)
    requires a <= P && b >= 1
    ensures t == if a == P && b == 1 then P else Pow(a, b) % P
    decreases b
  {
    if b == 1 {
      assert Pow(a, 1) == a * Pow(a, 0) == a;
      return a;
    }
    var h := PowModP(a, b / 2);
    t := MulModP(h, h);
    PowHalf(a, b);
    Squared(a, h, b / 2);
    if b % 2 == 1 {
      ghost var sq := Pow(a, b / 2) * Pow(a, b / 2);
      assert t == sq % P;
      MulMod(sq, a);
      t := MulModP(t, a);
    }
  }

  lemma Squared(a: Word, h: Word, n: nat)
    requires a <= P && n >= 1 && h == if a == P && n == 1 then P else Pow(a, n) % P
    ensures h * h % P == Pow(a, n) * Pow(a, n) % P
  {
    var p := Pow(a, n);
    if a == P && n == 1 {
      assert p == a * Pow(a, 0) == a;
    } else {
      MulMod(p, p);
      MulMod(p, p % P);
      assert (p % P) * p == p * (p % P);
    }
  }

  /** `powmodp`: correct exactly unless the base is `P` and the exponent 1. */
  method Powmodp(a: Word, b: Word) returns (r: Word)
    requires b >= 1
    ensures r == Pow(a, b) % P <==> !(a == P && b == 1)
  {
    var x := a;
    if a > P {
      PowMod(a, b);
      x := a % P;
    }
    r := PowModP(x, b);
    if a == P && b == 1 { assert Pow(a, b) == a * Pow(a, 0) == P; }
  }

  const G := 5

  /** The word a Lua function pushes, or the error it raises. */
  datatype Reply = Value(word: Word) | CantBeZero

  /** `ldhexchange`: its result is never 0. */
  method DhExchange(x: Word) returns (r: Reply)
    ensures r == if x == 0 then CantBeZero else Value(Pow(G, x) % P)
    ensures r != Value(0)
  {
    if x == 0 {
      return CantBeZero;
    }
    NeverZero(x);
    var gx := Powmodp(G, x);
    r := Value(gx);
  }

  /** `ldhsecret` */
  method DhSecret(x: Word, y: Word) returns (r: Reply)
    ensures r.CantBeZero? <==> x == 0 || y == 0
    ensures r.Value? ==> (r.word == Pow(x, y) % P <==> !(x == P && y == 1))
  {
    if x == 0 || y == 0 {
      return CantBeZero;
    }
    var secret := Powmodp(x, y);
    r := Value(secret);
  }

  /** A key exchange: unless one side's key is 0, neither call of `ldhsecret` raises an error, and both sides derive
      the same secret. */
  method Exchange(x: Word, y: Word) returns (secret1: Reply, secret2: Reply)
    ensures secret1 == secret2 == if x == 0 || y == 0 then CantBeZero else Value(Pow(G, x * y) % P)
  {
    var gx := DhExchange(x);
    var gy := DhExchange(y);
    if gx.CantBeZero? || gy.CantBeZero? {
      return CantBeZero, CantBeZero;
    }
    secret1 := DhSecret(gy.word, x);
    secret2 := DhSecret(gx.word, y);
    SameSecret(x, y);
    assert y * x == x * y;
    SameSecret(y, x);
  }

  /** 5 has an inverse modulo `P`. */
  const INVERSE: nat := 7378697629483820623

  /** No power of 5 is a multiple of `P`. */
  lemma {:induction false} NeverZero(n: nat)
    ensures Pow(G, n) % P != 0
    decreases n
  {
    if n > 0 {
      NeverZero(n - 1);
      var p := Pow(G, n - 1);
      if Pow(G, n) % P == 0 {
        MulMod(INVERSE, G * p);
        assert INVERSE * (G * p) == p + (2 * p) * P;
        ShiftMod(p, 2 * p);
      }
    }
  }

  lemma SameSecret(x: nat, y: nat)
    ensures Pow(Pow(G, x) % P, y) % P == Pow(G, x * y) % P
  {
    PowMod(Pow(G, x), y);
    PowMul(G, x, y);
  }
}
