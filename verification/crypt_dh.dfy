/** The Diffie-Hellman exchange of lua-crypt.c: multiplication and powers modulo the largest 64-bit prime,
    in arithmetic that wraps around at 64 bits. */
module DiffieHellman {
  import opened Wrappers

  const WORD: int := 0x1_0000_0000_0000_0000
  const P: int := 0xffff_ffff_ffff_ffc5
  const G: int := 5

  type Word = x: int | 0 <= x < WORD

  function Wrap(x: int): Word { x % WORD }

  // ----- modular arithmetic -----

  lemma ModTimes(x: int, y: int)
    ensures (x % P) * (y % P) % P == x * y % P
  {
    var a, b, q, r := x % P, y % P, x / P, y / P;
    assert x == P * q + a && y == P * r + b;
    calc {
      x * y;
      (P * q + a) * (P * r + b);
      P * (q * (P * r + b)) + a * (P * r + b);
      P * (q * (P * r + b)) + P * (a * r) + a * b;
      P * (q * (P * r + b) + a * r) + a * b;
    }
    var m := a * b;
    assert m == P * (m / P) + m % P;
    assert x * y == P * (q * (P * r + b) + a * r + m / P) + m % P;
    Residue(x * y, P, q * (P * r + b) + a * r + m / P, m % P);
  }

  function Pow(a: int, n: nat): int { if n == 0 then 1 else a * Pow(a, n - 1) }

  lemma {:induction false} PowAdd(a: int, m: nat, n: nat)
    ensures Pow(a, m + n) == Pow(a, m) * Pow(a, n)
    decreases m
  {
    if m > 0 {
      PowAdd(a, m - 1, n);
      assert a * (Pow(a, m - 1) * Pow(a, n)) == (a * Pow(a, m - 1)) * Pow(a, n);
    }
  }

  lemma {:induction false} PowPow(a: int, m: nat, n: nat)
    ensures Pow(Pow(a, m), n) == Pow(a, m * n)
    decreases n
  {
    if n > 0 {
      PowPow(a, m, n - 1);
      PowAdd(a, m, m * (n - 1));
      assert m + m * (n - 1) == m * n;
    } else {
      assert m * n == 0;
    }
  }

  lemma {:induction false} PowMod(a: int, n: nat)
    ensures Pow(a % P, n) % P == Pow(a, n) % P
    decreases n
  {
    if n > 0 {
      PowMod(a, n - 1);
      TimesMod(a, Pow(a % P, n - 1), Pow(a, n - 1));
    }
  }

  lemma TimesMod(a: int, x: int, y: int)
    requires x % P == y % P
    ensures (a % P) * x % P == a * y % P
  {
    ModTimes(a % P, x);
    ModTimes(a, y);
    ModSelf(a);
  }

  // ----- mul_mod_p -----

  /** One turn of the loop: m + a b changes by a multiple of P. */
  lemma Turn(a: int, b: int, m: int, bit: int, half: int, m1: int, a1: int, c: int, s: int)
    requires b == 2 * half + bit && m1 == m + bit * a - c * P && a1 == 2 * a - s * P
    ensures m1 + a1 * half == m + a * b - P * (c + s * half)
  {
    assert a * b == a * (2 * half) + a * bit;
    assert a * (2 * half) == (2 * a) * half;
    assert a1 * half == (2 * a) * half - (s * P) * half;
    assert (s * P) * half == P * (s * half);
    assert bit * a == a * bit;
  }

  /** One turn of mul_mod_p's loop. */
  method MulStep(a0: Word, b0: Word, m0: Word) returns (a: Word, b: Word, m: Word, ghost dq: int)
    requires a0 <= P && b0 > 0 && m0 < P && (a0 == P ==> m0 == 0)
    ensures a <= P && m < P && (a0 < P ==> a < P) && (a0 == P ==> a == P && m == 0) && b < b0
    ensures m + a * b == m0 + a0 * b0 - P * dq
  {
    a, b, m := a0, b0, m0;
    ghost var c, s := 0, 0;
    if b % 2 == 1 {
      var t := P - a;
      if m >= t { m := m - t; c := 1; } else { m := m + a; }
    }
    WrapTwice(a);
    if a >= P - a { a := Wrap(Wrap(a * 2) - P); s := 1; } else { a := Wrap(a * 2); }
    b := b / 2;
    Turn(a0, b0, m0, b0 % 2, b, m, a, c, s);
    dq := c + s * b;
  }

  /** For a < P the loop multiplies modulo P, whatever b is, though a * 2 may wrap around. For a == P it
      returns 0. */
  method MulModP(a0: Word, b0: Word) returns (m: Word)
    requires a0 <= P
    ensures m == a0 * b0 % P
  {
    var a: Word, b: Word := a0, b0;
    m := 0;
    ghost var q, product := 0, a0 * b0;
    while b != 0
      invariant a <= P && m < P && (a == P ==> m == 0)
      invariant m + a * b + P * q == product
      decreases b
    {
      ghost var dq;
      a, b, m, dq := MulStep(a, b, m);
      q := q + dq;
    }
    assert a * b == 0;
    Residue(product, P, q, m);
  }

  /** Doubling modulo P, with the wrap-around of 64 bits. */
  lemma WrapTwice(a: Word)
    requires a <= P
    ensures a >= P - a ==> Wrap(Wrap(a * 2) - P) == 2 * a - P
    ensures a < P - a ==> Wrap(a * 2) == 2 * a
  {
  }

  // ----- powers -----

  /** pow_mod_p */
  method PowModP(a: Word, b: Word) returns (r: Word)
    requires a <= P && b >= 1
    ensures r == if a == P && b == 1 then P else Pow(a, b) % P
    decreases b
  {
    if b == 1 {
      assert Pow(a, 1) == a * Pow(a, 0) == a;
      if a < P { Residue(a, P, 0, a); }
      return a;
    }
    var t := PowModP(a, b / 2);
    var h := b / 2;
    SquareOf(a, h, t);
    r := MulModP(t, t);
    if b % 2 == 1 {
      OneMore(a, h, r);
      var u := MulModP(r, a);
      r := u;
    }
  }

  lemma SquareOf(a: Word, h: nat, t: int)
    requires h >= 1 && a <= P && t == if a == P && h == 1 then P else Pow(a, h) % P
    ensures t * t % P == Pow(a, 2 * h) % P
  {
    PowAdd(a, h, h);
    ModTimes(Pow(a, h), Pow(a, h));
    if a == P && h == 1 {
      assert Pow(a, 1) == a * Pow(a, 0) == P;
    }
  }

  lemma OneMore(a: Word, h: nat, r: int)
    requires r == Pow(a, 2 * h) % P
    ensures r * a % P == Pow(a, 2 * h + 1) % P
  {
    var x := Pow(a, 2 * h);
    ModTimes(x % P, a);
    ModTimes(x, a);
    ModSelf(x);
    assert Pow(a, 2 * h + 1) == a * x == x * a;
  }

  lemma ModSelf(x: int)
    ensures x % P % P == x % P
  {
  }

  /** powmodp is a to the b modulo P, except in one case: P to the first power, which it leaves unreduced. */
  method PowerModP(a: Word, b: Word) returns (r: Word)
    requires b >= 1
    ensures r == Pow(a, b) % P <==> !(a == P && b == 1)
    ensures a == P && b == 1 ==> r == P
  {
    var base := if a > P then a % P else a;
    r := PowModP(base, b);
    PowMod(a, b);
    PowMod(base, b);
    if a == P && b == 1 {
      assert Pow(a, 1) == a * Pow(a, 0) == P;
      Residue(P, P, 1, 0);
    }
  }

  // ----- the exchange -----

  // G * INVERSE == 2 P + 1
  const INVERSE: int := (2 * P + 1) / G

  /** 5 has an inverse modulo P. */
  lemma TimesFive(x: int, k: int)
    requires G * x == P * k
    ensures x % P == 0
  {
    assert (G * x) * INVERSE == x * (2 * P + 1) == P * (2 * x) + x;
    assert (P * k) * INVERSE == P * (k * INVERSE);
    Residue(x, P, k * INVERSE - 2 * x, 0);
  }

  /** so no power of 5 vanishes. */
  lemma {:induction false} NeverZero(n: nat)
    ensures Pow(G, n) % P != 0
  {
    if n > 0 {
      NeverZero(n - 1);
      var x := Pow(G, n - 1);
      if G * x % P == 0 {
        TimesFive(x, G * x / P);
      }
    }
  }

  /** ldhexchange: the public value of a secret; None is the error for 0. */
  method Exchange(x: Word) returns (r: Option<Word>)
    ensures x == 0 <==> r == None
    ensures x != 0 ==> r == Some(Pow(G, x) % P) && r.value != 0
  {
    if x == 0 { return None; }
    NeverZero(x);
    var y := PowerModP(G, x);
    r := Some(y);
  }

  /** ldhsecret */
  method Secret(x: Word, y: Word) returns (r: Option<Word>)
    ensures x == 0 || y == 0 <==> r == None
    ensures x != 0 && y != 0 ==> r == Some(if x == P && y == 1 then P else Pow(x, y) % P)
  {
    if x == 0 || y == 0 { return None; }
    var z := PowerModP(x, y);
    r := Some(z);
  }

  /** Both sides arrive at the same secret. */
  lemma Agreement(x: nat, y: nat)
    ensures Pow(Pow(G, x) % P, y) % P == Pow(Pow(G, y) % P, x) % P
  {
    PowMod(Pow(G, x), y);
    PowMod(Pow(G, y), x);
    PowPow(G, x, y);
    PowPow(G, y, x);
    assert x * y == y * x;
  }

  /** The exchange, played out: two secrets, two public values, one shared value, and no error. */
  method Handshake(x: Word, y: Word) returns (a: Option<Word>, b: Option<Word>)
    requires x != 0 && y != 0
    ensures a.Some? && a == b
  {
    var px := Exchange(x);
    var py := Exchange(y);
    Agreement(x, y);
    a := Secret(px.value, y);
    b := Secret(py.value, x);
  }
}
