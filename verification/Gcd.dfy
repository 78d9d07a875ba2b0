/** stress_cpu_gcd (src/task_worker0.c): Euclid's algorithm on 16384 pairs, with running
    gcd and lcm sums in 32 and 64 bits. */
module Gcd {
  import opened Words
  import opened Bits

  const LIMIT := 16384

  // ---- Reference definitions ----

  ghost predicate Divides(d: nat, n: nat) { exists k: nat :: n == k * d }

  /** g is the greatest common divisor in the divisibility order; for (0, 0) that is 0. */
  ghost predicate IsGcd(g: nat, a: nat, b: nat)
  {
    Divides(g, a) && Divides(g, b) && forall d: nat :: Divides(d, a) && Divides(d, b) ==> Divides(d, g)
  }

  /** l is the least common multiple in the divisibility order. */
  ghost predicate IsLcm(l: nat, a: nat, b: nat)
  {
    Divides(a, l) && Divides(b, l) && forall m: nat :: Divides(a, m) && Divides(b, m) ==> Divides(l, m)
  }

  /** Euclid's algorithm, and the number of iterations it takes. */
  function Euclid(a: nat, b: nat): nat
    decreases b
  {
    if b == 0 then a else Euclid(b, a % b)
  }

  function Steps(a: nat, b: nat): nat
    decreases b
  {
    if b == 0 then 0 else 1 + Steps(b, a % b)
  }

  function Fib(n: nat): nat { if n < 2 then n else Fib(n - 1) + Fib(n - 2) }

  // ---- Divisibility ----

  lemma DividesIntro(d: nat, n: nat, k: nat)
    requires n == k * d
    ensures Divides(d, n)
  {
  }

  lemma DividesSum(d: nat, x: nat, y: nat)
    requires Divides(d, x) && Divides(d, y)
    ensures Divides(d, x + y)
  {
    var i: nat :| x == i * d;
    var j: nat :| y == j * d;
    assert x + y == (i + j) * d;
  }

  lemma DividesDifference(d: nat, x: nat, y: nat)
    requires Divides(d, x + y) && Divides(d, y)
    ensures Divides(d, x)
  {
    var i: nat :| x + y == i * d;
    var j: nat :| y == j * d;
    assert x == (i - j) * d;
    if i < j {
      assert (j - i) * d >= 0;
      assert x == 0 * d;
    }
  }

  lemma DividesTimes(d: nat, x: nat, k: nat)
    requires Divides(d, x)
    ensures Divides(d, k * x)
  {
    var i: nat :| x == i * d;
    assert k * x == (k * i) * d;
  }

  lemma DivMod(a: nat, b: nat) returns (q: nat)
    requires b > 0
    ensures q == a / b && a == q * b + a % b && a % b < b
  {
    q := a / b;
  }

  lemma MulMonotone(x: nat, y: nat, z: nat)
    requires x <= y
    ensures x * z <= y * z
  {
    assert y * z == x * z + (y - x) * z;
  }

  lemma CancelRight(x: int, y: int, g: nat)
    requires g > 0 && x * g == y * g
    ensures x == y
  {
    assert (x - y) * g == 0;
  }

  lemma ModBounds(a: nat, b: nat)
    requires b > 0
    ensures a % b <= a
    ensures a >= b ==> a >= b + a % b
  {
    var q := DivMod(a, b);
    if q >= 1 { MulMonotone(1, q, b); }
  }

  lemma ExactQuotient(n: nat, g: nat, q: nat)
    requires g > 0 && n == q * g
    ensures n % g == 0 && n / g == q
  {
    ModUnique(n, g, q, 0);
    var q' := DivMod(n, g);
    CancelRight(q', q, g);
  }

  lemma QuotientBound(n: nat, g: nat)
    requires g > 0
    ensures n / g <= n
  {
    var q := DivMod(n, g);
    MulMonotone(1, g, q);
  }

  /** One iteration keeps the set of common divisors. */
  lemma SameDivisors(a: nat, b: nat, d: nat)
    requires b > 0
    ensures Divides(d, a) && Divides(d, b) <==> Divides(d, b) && Divides(d, a % b)
  {
    var q := DivMod(a, b);
    if Divides(d, b) {
      DividesTimes(d, b, q);
      if Divides(d, a % b) {
        DividesSum(d, q * b, a % b);
      }
      if Divides(d, a) {
        DividesDifference(d, a % b, q * b);
      }
    }
  }

  lemma {:induction false} EuclidIsGcd(a: nat, b: nat)
    ensures IsGcd(Euclid(a, b), a, b)
    decreases b
  {
    if b == 0 {
      DividesIntro(a, a, 1);
      DividesIntro(a, 0, 0);
    } else {
      var g := Euclid(a, b);
      EuclidIsGcd(b, a % b);
      SameDivisors(a, b, g);
      forall d: nat | Divides(d, a) && Divides(d, b)
        ensures Divides(d, g)
      {
        SameDivisors(a, b, d);
      }
    }
  }

  /** The loop computes the greatest common divisor, and nothing else is one. */
  lemma EuclidIsTheGcd(g: nat, a: nat, b: nat)
    ensures IsGcd(g, a, b) <==> g == Euclid(a, b)
  {
    EuclidIsGcd(a, b);
    if IsGcd(g, a, b) { GcdUnique(g, Euclid(a, b), a, b); }
  }

  /** Divisors are antisymmetric, so the greatest common divisor is unique. */
  lemma GcdUnique(g: nat, g': nat, a: nat, b: nat)
    requires IsGcd(g, a, b) && IsGcd(g', a, b)
    ensures g == g'
  {
    DividesBound(g', g);
    DividesBound(g, g');
  }

  lemma DividesBound(d: nat, n: nat)
    requires Divides(d, n)
    ensures n > 0 ==> d <= n
    ensures d == 0 ==> n == 0
  {
    var k: nat :| n == k * d;
    if k > 0 { MulMonotone(1, k, d); }
  }

  lemma {:induction false} EuclidPositive(a: nat, b: nat)
    ensures Euclid(a, b) == 0 <==> a == 0 && b == 0
    ensures Euclid(a, b) <= if b == 0 then a else b
    decreases b
  {
    if b != 0 { EuclidPositive(b, a % b); }
  }

  // ---- Lame's bound ----

  lemma {:induction false} FibMonotone(m: nat, n: nat)
    requires m <= n
    ensures Fib(m) <= Fib(n)
    decreases n
  {
    if m < n {
      FibMonotone(m, n - 1);
    }
  }

  /** k iterations on a >= b need b >= Fib(k + 1). */
  lemma {:induction false} Lame(a: nat, b: nat)
    requires a >= b > 0
    ensures b >= Fib(Steps(a, b) + 1)
    ensures a > b ==> a >= Fib(Steps(a, b) + 2)
    decreases b
  {
    var r := a % b;
    ModBounds(a, b);
    if r == 0 {
      assert Steps(a, b) == 1 && Fib(2) == 1 && Fib(3) == 2;
    } else {
      var k := Steps(b, r);
      Lame(b, r);
      assert Steps(a, b) == k + 1;
      assert Fib(k + 3) == Fib(k + 2) + Fib(k + 1);
    }
  }

  lemma Fib22()
    ensures Fib(22) == 17711 && Fib(20) == 6765 && Fib(21) == 10946
  {
    assert Fib(4) == 3 && Fib(5) == 5;
    assert Fib(6) == 8 && Fib(7) == 13;
    assert Fib(8) == 21 && Fib(9) == 34;
    assert Fib(10) == 55 && Fib(11) == 89;
    assert Fib(12) == 144 && Fib(13) == 233;
    assert Fib(14) == 377 && Fib(15) == 610;
    assert Fib(16) == 987 && Fib(17) == 1597;
    assert Fib(18) == 2584 && Fib(19) == 4181;
    assert Fib(20) == 6765 && Fib(21) == 10946;
  }

  /** Below 16384 no pair takes more than 19 iterations... */
  lemma AtMostNineteenSteps(a: nat, b: nat)
    requires b <= a < LIMIT
    ensures Steps(a, b) <= 19
  {
    if a == b {
      assert Steps(a, b) <= 1;
    } else if b > 0 {
      Lame(a, b);
      Fib22();
      if Steps(a, b) > 19 { FibMonotone(22, Steps(a, b) + 2); }
    }
  }

  /** ...and consecutive Fibonacci numbers take that many, so Lame's bound is met. */
  lemma {:induction false} FibSteps(n: nat)
    requires n >= 2
    ensures Fib(n) > 0 && Steps(Fib(n + 1), Fib(n)) == n - 1
  {
    if n == 2 {
      assert Fib(3) == 2 && Fib(2) == 1;
    } else {
      FibSteps(n - 1);
      assert Fib(n + 1) == Fib(n) + Fib(n - 1);
      FibGrows(n);
      if n > 3 {
        ModUnique(Fib(n + 1), Fib(n), 1, Fib(n - 1));
      } else {
        assert Fib(4) == 3;
      }
    }
  }

  lemma {:induction false} FibGrows(n: nat)
    requires n >= 3
    ensures Fib(n - 1) < Fib(n)
  {
    if n > 4 { FibGrows(n - 2); }
    assert Fib(n) == Fib(n - 1) + Fib(n - 2);
    if n == 3 { assert Fib(1) == 1; }
    if n == 4 { assert Fib(2) == 1; }
  }

  /** So 19 is the best bound over all pairs, though the loop never visits this one. */
  lemma NineteenStepsOccur()
    ensures 6765 <= 10946 < LIMIT && Steps(10946, 6765) == 19
    ensures Partner(10946) == 10946
  {
    Fib22();
    FibSteps(20);
    FibPartner();
  }

  lemma FibPartner()
    ensures Partner(10946) == 10946
  {
    assert Xor(0, 1) == 1;
    assert Xor(0, 2) == 2;
    assert Xor(0, 5) == 5;
    assert Xor(1, 10) == 11;
    assert Xor(3, 21) == 22;
    assert Xor(7, 42) == 45;
    assert Xor(15, 85) == 90;
    assert Xor(31, 171) == 180;
    assert Xor(62, 342) == 360;
    assert Xor(124, 684) == 720;
    assert Xor(249, 1368) == 1441;
    assert Xor(499, 2736) == 2883;
    assert Xor(998, 5473) == 5767;
    assert Xor(1997, 10946) == 11535;
  }

  // ---- Least common multiple ----

  /** Bezout coefficients. */
  lemma {:induction false} Bezout(a: nat, b: nat) returns (x: int, y: int)
    ensures Euclid(a, b) == x * a + y * b
    decreases b
  {
    if b == 0 {
      x, y := 1, 0;
    } else {
      var u, v := Bezout(b, a % b);
      var q := DivMod(a, b);
      x, y := v, u - v * q;
      BezoutStep(a, b, q, a % b, u, v);
    }
  }

  lemma BezoutStep(a: nat, b: nat, q: nat, r: nat, u: int, v: int)
    requires a == q * b + r
    ensures u * b + v * r == v * a + (u - v * q) * b
  {
    assert v * a == v * (q * b) + v * r;
    assert (u - v * q) * b == u * b - v * q * b;
    assert v * (q * b) == v * q * b;
  }

  /** The division lcm / a is exact, and gives the least common multiple. */
  lemma LcmExact(a: nat, b: nat)
    requires a > 0 && b > 0
    ensures var g := Euclid(a, b);
            g > 0 && (a * b) % g == 0 && IsLcm(a * b / g, a, b)
  {
    var g := Euclid(a, b);
    EuclidIsGcd(a, b);
    EuclidPositive(a, b);
    var i: nat :| a == i * g;
    var j: nat :| b == j * g;
    var l := i * b;
    Reassociate(i, j, g);
    ExactQuotient(a * b, g, l);
    DividesIntro(b, l, i);
    DividesIntro(a, l, j);
    forall m: nat | Divides(a, m) && Divides(b, m)
      ensures Divides(l, m)
    {
      LcmDivides(a, b, g, i, j, m);
    }
  }

  /** With a = i * g and b = j * g: a * b = (i * b) * g, and i * b = j * a. */
  lemma Reassociate(i: nat, j: nat, g: nat)
    ensures (i * g) * (j * g) == (i * (j * g)) * g
    ensures i * (j * g) == j * (i * g)
  {
  }

  /** Any common multiple m is a multiple of a * b / g: write g with Bezout. */
  lemma LcmDivides(a: nat, b: nat, g: nat, i: nat, j: nat, m: nat)
    requires a > 0 && b > 0 && g == Euclid(a, b) > 0 && a == i * g && b == j * g
    requires Divides(a, m) && Divides(b, m)
    ensures Divides(i * b, m)
  {
    var p: nat :| m == p * a;
    var q: nat :| m == q * b;
    var x, y := Bezout(a, b);
    var l, k := i * b, x * q + y * p;
    BezoutMultiple(a, b, g, m, p, q, x, y);
    Reassociate(i, j, g);
    Reduce(m, k, a * b, l, g);
    if k < 0 {
      NoNegativeFactor(m, k, l);
    } else {
      DividesIntro(l, m, k);
    }
  }

  lemma Reduce(m: nat, k: int, n: nat, l: nat, g: nat)
    requires g > 0 && n == l * g && m * g == k * n
    ensures m == k * l
  {
    assert k * (l * g) == (k * l) * g;
    CancelRight(m, k * l, g);
  }

  /** A natural number that is a negative multiple of l is 0, hence still a multiple. */
  lemma NoNegativeFactor(m: nat, k: int, l: nat)
    requires m == k * l && k < 0
    ensures Divides(l, m)
  {
    assert k * l == -(l * -k);
    MulAtLeast(l, -k);
    DividesIntro(l, m, 0);
  }

  lemma BezoutMultiple(a: nat, b: nat, g: nat, m: nat, p: nat, q: nat, x: int, y: int)
    requires g == x * a + y * b && m == p * a && m == q * b
    ensures m * g == (x * q + y * p) * (a * b)
  {
    assert m * g == m * (x * a) + m * (y * b);
    assert m * (x * a) == (q * b) * (x * a) == x * q * (a * b);
    assert m * (y * b) == (p * a) * (y * b) == y * p * (a * b);
  }

  // ---- The sums ----

  /** The second number of pair i: i % (3 + (1997 ^ i)). */
  function Partner(i: nat): (b: nat)
    requires i < LIMIT
    ensures b <= i && 3 + Xor(1997, i) <= 16386
  {
    Pow2Values();
    XorBound(1997, i, 14);
    ModBounds(i, 3 + Xor(1997, i));
    i % (3 + Xor(1997, i))
  }

  /** The partner of i is i modulo m, where m - 3 has exactly the bits in which i and 1997
      differ; m is at least 3, so no modulus is zero. */
  lemma PartnerIs(i: nat) returns (m: nat, q: nat)
    requires i < 16384
    ensures 3 <= m <= 16386 && i == q * m + Partner(i) && Partner(i) < m
    ensures forall k: nat :: Bit(m - 3, k) <==> Bit(i, k) != Bit(1997, k)
  {
    var x := Xor(1997, i);
    var b := Partner(i);
    m := 3 + x;
    q := DivMod(i, m);
    forall k: nat
      ensures Bit(m - 3, k) <==> Bit(i, k) != Bit(1997, k)
    {
      BitXor(1997, i, k);
    }
  }

  /** What pair i adds to the lcm sum: nothing when its gcd is 0. */
  function Lcm(a: nat, b: nat): nat { if Euclid(a, b) == 0 then 0 else a * b / Euclid(a, b) }

  function GcdSum(n: nat): nat
    requires n <= LIMIT
  {
    if n == 0 then 0 else GcdSum(n - 1) + Euclid(n - 1, Partner(n - 1))
  }

  function LcmSum(n: nat): nat
    requires n <= LIMIT
  {
    if n == 0 then 0 else LcmSum(n - 1) + Lcm(n - 1, Partner(n - 1))
  }

  lemma LcmBound(a: nat, b: nat)
    requires a < LIMIT && b <= a
    ensures a * b < LIMIT * LIMIT && Lcm(a, b) <= a * b
  {
    MulBound(a, b);
    var g := Euclid(a, b);
    if g > 0 { QuotientBound(a * b, g); }
  }

  lemma MulBound(a: nat, b: nat)
    requires a < LIMIT && b < LIMIT
    ensures a * b < LIMIT * LIMIT
  {
    MulMonotone(a, LIMIT - 1, b);
  }

  /** Neither sum overflows its word, by a bound in the loop index. */
  lemma {:induction false} SumBounds(n: nat)
    requires n <= LIMIT
    ensures GcdSum(n) <= n * LIMIT <= 0x1000_0000
    ensures LcmSum(n) <= n * (LIMIT * LIMIT) <= 0x400_0000_0000
  {
    if n > 0 {
      SumBounds(n - 1);
      PairBounds(n - 1);
      AddOne(n - 1, LIMIT, GcdSum(n - 1), GcdSum(n));
      AddOne(n - 1, LIMIT * LIMIT, LcmSum(n - 1), LcmSum(n));
    }
    MulMonotone(n, LIMIT, LIMIT);
    MulMonotone(n, LIMIT, LIMIT * LIMIT);
  }

  lemma PairBounds(i: nat)
    requires i < LIMIT
    ensures GcdSum(i + 1) - GcdSum(i) <= LIMIT
    ensures LcmSum(i + 1) - LcmSum(i) <= LIMIT * LIMIT
  {
    EuclidPositive(i, Partner(i));
    LcmBound(i, Partner(i));
  }

  lemma AddOne(n: nat, bound: nat, sum: nat, sum': nat)
    requires sum <= n * bound && sum' - sum <= bound
    ensures sum' <= (n + 1) * bound
  {
  }

  /** What the loop is for: each pair contributes its true gcd, and its true lcm when both
      numbers are positive (0 otherwise). */
  lemma PairContributes(i: nat)
    requires i < LIMIT
    ensures IsGcd(GcdSum(i + 1) - GcdSum(i), i, Partner(i))
    ensures if Partner(i) > 0 then LcmSum(i + 1) - LcmSum(i) > 0 && IsLcm(LcmSum(i + 1) - LcmSum(i), i, Partner(i))
            else LcmSum(i + 1) == LcmSum(i)
    ensures Steps(i, Partner(i)) <= 19
  {
    var b := Partner(i);
    EuclidIsGcd(i, b);
    AtMostNineteenSteps(i, b);
    LcmOrNothing(i, b);
  }

  lemma LcmOrNothing(a: nat, b: nat)
    requires b <= a
    ensures if b > 0 then Lcm(a, b) > 0 && IsLcm(Lcm(a, b), a, b) else Lcm(a, b) == 0
  {
    if b > 0 {
      LcmExact(a, b);
      LcmPositive(a, b);
    } else {
      assert a * b == 0;
    }
  }

  lemma LcmPositive(a: nat, b: nat)
    requires a > 0 && b > 0
    ensures Lcm(a, b) > 0
  {
    var g := Euclid(a, b);
    EuclidPositive(a, b);
    LcmExact(a, b);
    var q := DivMod(a * b, g);
    MulMonotone(1, a, b);
  }

  /** The inner loop: Euclid in place, counting its iterations. */
  method InnerLoop(a0: u32, b0: u32) returns (a: u32, ghost iterations: nat)
    ensures a == Euclid(a0, b0) && iterations == Steps(a0, b0)
  {
    a := a0;
    var b: u32 := b0;
    iterations := 0;
    while b != 0
      invariant Euclid(a, b) == Euclid(a0, b0)
      invariant iterations + Steps(a, b) == Steps(a0, b0)
      decreases b
    {
      var r := b;
      b := a % b;
      a := r;
      iterations := iterations + 1;
    }
  }

  /** stress_cpu_gcd, with the sums it leaves in its locals. Every value fits the word it
      is declared with, and no modulus is zero. */
  method StressCpuGcd() returns (gcdSum: u32, lcmSum: u64, ghost iterations: nat)
    ensures gcdSum == GcdSum(16384) && lcmSum == LcmSum(16384)
    ensures iterations <= 19 * LIMIT
  {
    gcdSum, lcmSum, iterations := 0, 0, 0;
    for i := 0 to LIMIT
      invariant gcdSum == GcdSum(i) && lcmSum == LcmSum(i)
      invariant iterations <= 19 * i
    {
      SumBounds(i + 1);
      ghost var partner := Partner(i);
      LcmBound(i, partner);
      AtMostNineteenSteps(i, partner);
      var modulus: u32 := 3 + Xor(1997, i);
      var b: u32 := i % modulus;
      var lcm: u64 := i * b;
      var a;
      ghost var steps;
      a, steps := InnerLoop(i, b);
      if a != 0 {
        lcmSum := lcmSum + lcm / a;
      }
      gcdSum := gcdSum + a;
      iterations := iterations + steps;
    }
  }
}
