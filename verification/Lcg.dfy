/** load_generator/include/client_session.hpp: the 64-bit linear congruential generator. */
module Lcg {

  type uint64 = x: int | 0 <= x < 0x1_0000_0000_0000_0000

  const MODULUS: int := 0x1_0000_0000_0000_0000
  const MULTIPLIER: int := 6364136223846793005
  const INCREMENT: int := 1442695040888963407

  /** One call of next_rand, which returns the new state. */
  function Next(s: uint64): uint64 {
    (s * MULTIPLIER + INCREMENT) % MODULUS
  }

  /** The state after n calls. */
  function After(n: nat, s: uint64): uint64 {
    if n == 0 then s else Next(After(n - 1, s))
  }

  /** The seed the constructor computes from the client's number. */
  function Seed(client: nat): uint64 {
    (client * 2654435761 + 1) % MODULUS
  }

  function Pow2(k: nat): (p: nat)
    ensures p > 0
  {
    if k == 0 then 1 else 2 * Pow2(k - 1)
  }

  /** Equal modulo m. */
  predicate Congruent(x: int, y: int, m: int)
    requires m > 0
  {
    x % m == y % m
  }

  // ---------------------------------------------------------------------------------------
  // n calls are one affine map, over the integers

  function Factor(n: nat): int {
    if n == 0 then 1 else MULTIPLIER * Factor(n - 1)
  }

  function Offset(n: nat): int {
    if n == 0 then 0 else MULTIPLIER * Offset(n - 1) + INCREMENT
  }

  function Exact(n: nat, s: int): int {
    Factor(n) * s + Offset(n)
  }

  lemma {:induction false} ExactAdd(m: nat, n: nat, s: int)
    ensures Exact(m + n, s) == Exact(m, Exact(n, s))
  {
    if m > 0 {
      ExactAdd(m - 1, n, s);
      ExactNext(m + n, s);
      ExactNext(m, Exact(n, s));
    }
  }

  lemma ExactNext(n: nat, s: int)
    requires n > 0
    ensures Exact(n, s) == MULTIPLIER * Exact(n - 1, s) + INCREMENT
  {
    var f, o := Factor(n - 1), Offset(n - 1);
    assert (MULTIPLIER * f) * s == MULTIPLIER * (f * s);
  }

  lemma ModOfAffine(x: int, y: int, m: int)
    requires m > 0 && Congruent(x, y, m)
    ensures Congruent(MULTIPLIER * x + INCREMENT, MULTIPLIER * y + INCREMENT, m)
  {
    var q := x / m - y / m;
    assert x - y == m * q;
    var d := (MULTIPLIER * x + INCREMENT) - (MULTIPLIER * y + INCREMENT);
    assert d == m * (MULTIPLIER * q) by {
      assert d == MULTIPLIER * (x - y);
    }
    ModEqual(MULTIPLIER * y + INCREMENT, MULTIPLIER * q, m);
  }

  lemma ModEqual(x: int, q: int, m: int)
    requires m > 0
    ensures Congruent(x + m * q, x, m)
  {
    var r := x % m;
    var k := x / m;
    assert x + m * q == m * (k + q) + r;
    DivModUnique(x + m * q, m, k + q, r);
  }

  lemma MulAtLeast(m: int, d: int)
    requires m > 0
    ensures (d >= 1 ==> m * d >= m) && (d <= -1 ==> m * d <= -m)
  {
    if d >= 1 {
      assert m * (d - 1) >= 0;
    } else {
      assert m * (-d) >= 0 && (d <= -1 ==> m * (-d - 1) >= 0);
    }
  }

  lemma DivModUnique(a: int, m: int, q: int, r: int)
    requires m > 0 && 0 <= r < m && a == m * q + r
    ensures a / m == q && a % m == r
  {
    var d, r' := q - a / m, a % m;
    assert a == m * (a / m) + r';
    assert m * d == r' - r by {
      assert m * d == m * q - m * (a / m);
    }
    MulAtLeast(m, d);
  }

  lemma ExactZero(s: int)
    ensures Exact(0, s) == s
  {
  }

  lemma {:induction false} AfterIsExact(n: nat, s: uint64)
    ensures After(n, s) == Exact(n, s) % MODULUS
  {
    hide Exact;
    if n == 0 {
      ExactZero(s);
    } else {
      AfterIsExact(n - 1, s);
      ModOfAffine(After(n - 1, s), Exact(n - 1, s), MODULUS);
      ExactNext(n, s);
    }
  }

  function PowerOf(x: int, n: nat): int {
    if n == 0 then 1 else x * PowerOf(x, n - 1)
  }

  lemma {:induction false} FactorIsPower(n: nat)
    ensures Factor(n) == PowerOf(6364136223846793005, n)
    ensures 6364136223846793004 * Offset(n) == 1442695040888963407 * (Factor(n) - 1)
  {
    if n > 0 {
      FactorIsPower(n - 1);
    }
  }

  /** n draws in one step: the state is multiplied by the n-th power of the multiplier, and a
      geometric sum of the increment is added, modulo 2^64. */
  lemma ClosedForm(n: nat, s: uint64) returns (sum: int)
    ensures After(n, s) == (PowerOf(6364136223846793005, n) * s + sum) % 0x1_0000_0000_0000_0000
    ensures 6364136223846793004 * sum == 1442695040888963407 * (PowerOf(6364136223846793005, n) - 1)
  {
    hide After, Factor, Offset, PowerOf;
    sum := Offset(n);
    FactorIsPower(n);
    AfterIsExact(n, s);
  }

  // ---------------------------------------------------------------------------------------
  // Jumping 2^k steps adds 2^k, modulo 2^(k+1)

  /** The multiplier is 1 modulo 4 and the increment odd; doubling the number of steps doubles
      the power of two in what they add. */
  lemma {:induction false} Jump(k: nat) returns (t: int, u: int)
    ensures Factor(Pow2(k)) == 1 + 4 * Pow2(k) * t
    ensures Offset(Pow2(k)) == Pow2(k) * (2 * u + 1)
  {
    if k == 0 {
      t, u := 1591034055961698251, 721347520444481703;
      assert Factor(1) == MULTIPLIER * Factor(0);
      assert Offset(1) == MULTIPLIER * Offset(0) + INCREMENT;
    } else {
      var p := Pow2(k - 1);
      var t0, u0 := Jump(k - 1);
      ExactAdd(p, p, 0);
      ExactAdd(p, p, 1);
      var f, o := Factor(p), Offset(p);
      assert Factor(2 * p) == f * f by {
        assert Factor(2 * p) == Exact(p + p, 1) - Exact(p + p, 0);
        assert Exact(p, Exact(p, 1)) == f * (f + o) + o;
        assert Exact(p, Exact(p, 0)) == f * o + o;
      }
      assert Offset(2 * p) == f * o + o;
      t := t0 + 2 * p * t0 * t0;
      Square(p, t0);
      u := u0 + p * t0 * (2 * u0 + 1);
      DoubleOffset(p, t0, u0);
    }
  }

  lemma Square(p: int, t: int)
    ensures (1 + 4 * p * t) * (1 + 4 * p * t) == 1 + 4 * (2 * p) * (t + 2 * p * t * t)
  {
    var x := p * t;
    assert 4 * p * t == 4 * x;
    assert (1 + 4 * x) * (1 + 4 * x) == 1 + 8 * x + 16 * (x * x);
    assert 2 * p * t * t == 2 * (x * t);
    assert 4 * (2 * p) * (t + 2 * (x * t)) == 8 * (p * t) + 16 * (p * (x * t));
    assert p * (x * t) == x * x;
  }

  lemma DoubleOffset(p: int, t: int, u: int)
    ensures (1 + 4 * p * t) * (p * (2 * u + 1)) + p * (2 * u + 1) == 2 * p * (2 * (u + p * t * (2 * u + 1)) + 1)
  {
    var w := 2 * u + 1;
    var x := p * t;
    var y := p * w;
    assert 4 * p * t == 4 * x;
    assert (1 + 4 * x) * y == y + 4 * (x * y);
    assert 2 * (u + x * w) + 1 == w + 2 * (x * w);
    assert 2 * p * (w + 2 * (x * w)) == 2 * (p * w) + 4 * (p * (x * w));
    assert p * (x * w) == x * y;
  }

  lemma Distribute(a: int, b: int, c: int)
    ensures (a + b) * c == a * c + b * c && c * (a + b) == c * a + c * b
  {
  }

  lemma Regroup(f: int, o: int, p: int, t: int, u: int, x: int)
    requires f == 1 + 4 * p * t && o == p * (2 * u + 1)
    ensures f * x + o == (x + p) + (2 * p) * (2 * (t * x) + u)
  {
    var y := t * x;
    assert 4 * p * t == (4 * p) * t;
    Distribute(1, (4 * p) * t, x);
    ProductOfThree(4 * p, t, x);
    ProductOfThree(4, p, y);
    Distribute(2 * u, 1, p);
    ProductOfThree(p, 2, u);
    Distribute(2 * y, u, 2 * p);
    ProductOfThree(2 * p, 2, y);
  }

  lemma JumpExact(k: nat, x: int)
    ensures Congruent(Exact(Pow2(k), x), x + Pow2(k), Pow2(k + 1))
  {
    var p := Pow2(k);
    var t, u := Jump(k);
    assert Pow2(k + 1) == 2 * p;
    hide Factor, Offset, Pow2;
    assert Exact(p, x) == Factor(p) * x + Offset(p);
    hide Exact;
    Regroup(Factor(p), Offset(p), p, t, u, x);
    ModEqual(x + p, 2 * (t * x) + u, 2 * p);
  }

  // ---------------------------------------------------------------------------------------
  // The period

  /** Every multiple of 2^k steps adds that multiple, modulo 2^(k+1). */
  lemma {:induction false} Jumps(k: nat, q: nat, s: int)
    ensures Congruent(Exact(Pow2(k) * q, s), s + Pow2(k) * q, Pow2(k + 1))
  {
    var p := Pow2(k);
    assert Pow2(k + 1) == 2 * p;
    hide Pow2;
    if q == 0 {
      assert p * q == 0;
    } else {
      assert p * q == p + p * (q - 1);
      var x := Exact(p * (q - 1), s);
      Jumps(k, q - 1, s);
      ExactAdd(p, p * (q - 1), s);
      JumpExact(k, x);
      ModShift(x, s + p * (q - 1), p, 2 * p);
    }
  }

  lemma ModShift(x: int, y: int, d: int, m: int)
    requires m > 0 && Congruent(x, y, m)
    ensures Congruent(x + d, y + d, m)
  {
    var q := x / m - y / m;
    assert x == y + m * q by {
      assert m * q == m * (x / m) - m * (y / m);
    }
    ModEqual(y + d, q, m);
  }

  /** A multiple of p is 0 or p modulo 2p. */
  lemma Halves(p: int, d: int)
    requires p > 0 && Congruent(d, 0, p)
    ensures Congruent(d, 0, 2 * p) || Congruent(d - p, 0, 2 * p)
  {
    var q := d / p;
    var h := q / 2;
    assert d == p * q;
    if q == 2 * h {
      ProductOfThree(p, 2, h);
      ModEqual(0, h, 2 * p);
    } else {
      assert q == 2 * h + 1;
      assert p * q == p * (2 * h) + p;
      ProductOfThree(p, 2, h);
      ModEqual(0, h, 2 * p);
    }
  }

  lemma ProductOfThree(a: int, b: int, c: int)
    ensures a * (b * c) == (a * b) * c == (b * a) * c
  {
  }

  /** Being equal modulo 2p is stronger than being equal modulo p. */
  lemma ModDown(x: int, y: int, p: int)
    requires p > 0 && Congruent(x, y, 2 * p)
    ensures Congruent(x, y, p)
  {
    var q := x / (2 * p) - y / (2 * p);
    assert x == y + p * (2 * q) by {
      assert (2 * p) * q == (2 * p) * (x / (2 * p)) - (2 * p) * (y / (2 * p));
      assert (2 * p) * q == p * (2 * q);
    }
    ModEqual(y, 2 * q, p);
  }

  /** Differences decide equality modulo m. */
  lemma ModDifference(s: int, d: int, m: int)
    requires m > 0
    ensures Congruent(s + d, s, m) <==> Congruent(d, 0, m)
  {
    if d % m == 0 {
      assert d == m * (d / m);
      ModEqual(s, d / m, m);
    }
    if (s + d) % m == s % m {
      var q := (s + d) / m - s / m;
      assert d == m * q by {
        assert m * q == m * ((s + d) / m) - m * (s / m);
      }
      ModEqual(0, q, m);
    }
  }

  lemma ModOne(x: int, y: int)
    ensures Congruent(x, y, 1)
  {
  }

  lemma ModEqualTrans(x: int, y: int, z: int, m: int)
    requires m > 0 && Congruent(x, y, m)
    ensures Congruent(y, z, m) <==> Congruent(x, z, m)
  {
  }

  lemma Quotient(n: nat, p: int) returns (q: nat)
    requires p > 0 && Congruent(n, 0, p)
    ensures n == p * q
  {
    q := n / p;
  }

  /** The low k bits return to where they were exactly after the multiples of 2^k calls. */
  lemma {:induction false} ExactPeriod(k: nat, n: nat, s: int)
    ensures Congruent(Exact(n, s), s, Pow2(k)) <==> Congruent(n, 0, Pow2(k))
  {
    hide Exact, Congruent;
    if k == 0 {
      ModOne(Exact(n, s), s);
      ModOne(n, 0);
    } else {
      var p := Pow2(k - 1);
      assert Pow2(k) == 2 * p;
      hide Pow2;
      ExactPeriod(k - 1, n, s);
      if Congruent(n, 0, p) {
        var q := Quotient(n, p);
        Jumps(k - 1, q, s);
        ModDifference(s, n, 2 * p);
        ModEqualTrans(Exact(n, s), s + n, s, 2 * p);
      } else {
        if Congruent(Exact(n, s), s, 2 * p) {
          ModDown(Exact(n, s), s, p);
        }
        if Congruent(n, 0, 2 * p) {
          ModDown(n, 0, p);
        }
      }
    }
  }

  lemma {:induction false} Pow2Add(j: nat, k: nat)
    ensures Pow2(j + k) == Pow2(j) * Pow2(k)
  {
    if j > 0 {
      Pow2Add(j - 1, k);
      assert Pow2(j + k) == 2 * Pow2((j - 1) + k) && Pow2(j) == 2 * Pow2(j - 1);
      hide Pow2;
      ProductOfThree(2, Pow2(j - 1), Pow2(k));
    }
  }

  lemma ModulusIsPow2()
    ensures Pow2(64) == MODULUS
  {
    assert Pow2(4) == 16;
    hide Pow2;
    Pow2Add(4, 4);
    Pow2Add(8, 8);
    Pow2Add(16, 16);
    Pow2Add(32, 32);
  }

  /** Taking the low k bits of a 64-bit state loses nothing of them. */
  lemma LowBits(k: nat, x: int)
    requires k <= 64
    ensures Congruent(x % MODULUS, x, Pow2(k))
  {
    hide Pow2;
    ModulusIsPow2();
    Pow2Add(k, 64 - k);
    ModOfProduct(x, Pow2(k), Pow2(64 - k));
  }

  lemma ModOfProduct(x: int, p: int, r: int)
    requires p > 0 && r > 0 && p * r > 0
    ensures Congruent(x % (p * r), x, p)
  {
    var m := p * r;
    var q := x / m;
    assert x == m * q + x % m;
    assert m * q == p * (r * q);
    ModEqual(x % m, r * q, p);
  }

  /** For every k up to 64, from every seed, the low k bits of the state have period 2^k, no
      less; with k = 64, the generator has full period 2^64. */
  lemma FullPeriod(k: nat, n: nat, s: uint64)
    requires k <= 64
    ensures After(n, s) % Pow2(k) == s % Pow2(k) <==> n % Pow2(k) == 0
    ensures After(n, s) == s <==> n % MODULUS == 0
  {
    hide Pow2, Exact, After;
    AfterIsExact(n, s);
    LowBits(k, Exact(n, s));
    ExactPeriod(k, n, s);
    ModulusIsPow2();
    ExactPeriod(64, n, s);
  }

  /** Of two numbers p apart modulo 2p, one equals v modulo 2p if both do modulo p. */
  lemma OneOfTwo(p: int, x: int, y: int, v: int)
    requires p > 0 && Congruent(x, v, p) && Congruent(y, x + p, 2 * p)
    ensures Congruent(x, v, 2 * p) || Congruent(y, v, 2 * p)
  {
    var d := v - x;
    ModDifference(x, d, p);
    Halves(p, d);
    if Congruent(d, 0, 2 * p) {
      ModDifference(x, d, 2 * p);
    } else {
      ModDifference(x + p, d - p, 2 * p);
    }
  }

  /** Every value of the low k bits is reached from every seed, in fewer than 2^k calls. */
  lemma {:induction false} Reaches(k: nat, s: int, v: int) returns (n: nat)
    ensures n < Pow2(k) && Congruent(Exact(n, s), v, Pow2(k))
  {
    hide Exact, Congruent;
    if k == 0 {
      n := 0;
      ModOne(Exact(0, s), v);
    } else {
      var p := Pow2(k - 1);
      assert Pow2(k) == 2 * p;
      hide Pow2;
      n := Reaches(k - 1, s, v);
      ExactAdd(p, n, s);
      JumpExact(k - 1, Exact(n, s));
      OneOfTwo(p, Exact(n, s), Exact(p + n, s), v);
      if !Congruent(Exact(n, s), v, 2 * p) {
        n := p + n;
      }
    }
  }

  lemma EveryStateReached(s: uint64, v: uint64) returns (n: nat)
    ensures n < MODULUS && After(n, s) == v
  {
    hide Pow2, Exact, After;
    ModulusIsPow2();
    n := Reaches(64, s, v);
    AfterIsExact(n, s);
  }

  // ---------------------------------------------------------------------------------------
  // Distinct clients

  /** next_rand loses no information: the multiplier has an inverse modulo 2^64. */
  const INVERSE: int := 13877824140714322085

  function Previous(s: uint64): uint64 {
    ((s - INCREMENT) * INVERSE) % MODULUS
  }

  lemma NextHasInverse(s: uint64)
    ensures Previous(Next(s)) == s
  {
    var y := s * MULTIPLIER + INCREMENT;
    var q := y / MODULUS;
    var w := MULTIPLIER * INVERSE / MODULUS;
    assert MULTIPLIER * INVERSE == MODULUS * w + 1;
    assert (Next(s) - INCREMENT) * INVERSE == s + MODULUS * (w * s - q * INVERSE) by {
      assert Next(s) - INCREMENT == s * MULTIPLIER - MODULUS * q;
      assert (s * MULTIPLIER - MODULUS * q) * INVERSE == s * (MULTIPLIER * INVERSE) - MODULUS * (q * INVERSE);
      assert s * (MODULUS * w + 1) == MODULUS * (w * s) + s;
    }
    ModEqual(s, w * s - q * INVERSE, MODULUS);
  }

  lemma {:induction false} AfterInjective(n: nat, s: uint64, t: uint64)
    requires After(n, s) == After(n, t)
    ensures s == t
  {
    if n > 0 {
      NextHasInverse(After(n - 1, s));
      NextHasInverse(After(n - 1, t));
      AfterInjective(n - 1, s, t);
    }
  }

  /** Clients numbered within 32 bits get different seeds, and their generators still differ
      after any equal number of calls. */
  lemma ClientsDiffer(i: nat, j: nat, n: nat)
    requires i != j && i < 0x1_0000_0000 && j < 0x1_0000_0000
    ensures Seed(i) != Seed(j) && After(n, Seed(i)) != After(n, Seed(j))
  {
    assert Seed(i) == i * 2654435761 + 1;
    assert Seed(j) == j * 2654435761 + 1;
    if After(n, Seed(i)) == After(n, Seed(j)) {
      AfterInjective(n, Seed(i), Seed(j));
    }
  }
}
