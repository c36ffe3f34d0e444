/** Greatest common divisor and least common multiple, as computed by src/lib/utils.cc. */
module Numeric {

  const INT64_MAX: int := 0x7fff_ffff_ffff_ffff
  const TWO_64: int := 0x1_0000_0000_0000_0000

  predicate Divides(d: int, n: int)
    requires d != 0
  {
    n % d == 0
  }

  function Abs(x: int): nat {
    if x < 0 then -x else x
  }

  /** The C++ remainder: it takes the sign of the dividend. */
  function TruncMod(a: int, b: int): int
    requires b != 0
  {
    if a >= 0 then a % b else -((-a) % b)
  }

  /** The value an int64_t holds once x has wrapped around. */
  function Wrap64(x: int): int {
    var u := x % TWO_64;
    if u > INT64_MAX then u - TWO_64 else u
  }

  predicate AllNonzero(nums: seq<int>) {
    forall i :: 0 <= i < |nums| ==> nums[i] != 0
  }

  ghost predicate DividesAll(d: int, nums: seq<int>)
    requires d != 0
  {
    forall i :: 0 <= i < |nums| ==> Divides(d, nums[i])
  }

  ghost predicate MultipleOfAll(k: int, nums: seq<int>)
    requires AllNonzero(nums)
  {
    forall i :: 0 <= i < |nums| ==> Divides(nums[i], k)
  }

  /** g is a greatest common divisor of nums: it divides them and every common divisor divides it. */
  ghost predicate IsGcd(g: int, nums: seq<int>) {
    && g != 0
    && DividesAll(g, nums)
    && forall d :: d != 0 && DividesAll(d, nums) ==> Divides(d, g)
  }

  /** m is a least common multiple of nums: they divide it and it divides every common multiple. */
  ghost predicate IsLcm(m: int, nums: seq<int>)
    requires AllNonzero(nums)
  {
    && m != 0
    && MultipleOfAll(m, nums)
    && forall k :: MultipleOfAll(k, nums) ==> Divides(m, k)
  }

  // ----- divisibility -----

  lemma MulDivides(d: int, q: int)
    requires d != 0
    ensures Divides(d, d * q) && Divides(d, q * d)
    ensures d * q / d == q
  {
  }

  lemma SameSign(d: int, k: int)
    requires k > 0
    ensures if d >= 0 then d * k >= 0 else d * k < 0
  {
  }

  lemma Quotient(d: int, n: int)
    requires d != 0 && Divides(d, n)
    ensures n == d * (n / d)
  {
  }

  lemma DividesLinear(d: int, a: int, b: int, x: int, y: int)
    requires d != 0 && Divides(d, a) && Divides(d, b)
    ensures Divides(d, x * a + y * b)
  {
    Quotient(d, a);
    Quotient(d, b);
    var q := x * (a / d) + y * (b / d);
    calc {
      d * q;
      d * (x * (a / d)) + d * (y * (b / d));
      x * (d * (a / d)) + y * (d * (b / d));
      x * a + y * b;
    }
    MulDivides(d, q);
  }

  lemma DividesTrans(a: int, b: int, c: int)
    requires a != 0 && b != 0 && Divides(a, b) && Divides(b, c)
    ensures Divides(a, c)
  {
    Quotient(b, c);
    DividesLinear(a, b, b, c / b, 0);
    assert (c / b) * b + 0 * b == c;
  }

  lemma DivisorIsSmaller(d: int, n: int)
    requires d != 0 && n != 0 && Divides(d, n)
    ensures Abs(d) <= Abs(n)
  {
  }

  // ----- the Euclid loop -----

  lemma TruncModStep(a: int, b: int) returns (q: int)
    requires b != 0
    ensures a == q * b + TruncMod(a, b)
    ensures Abs(TruncMod(a, b)) < Abs(b)
    ensures if a >= 0 then TruncMod(a, b) >= 0 else TruncMod(a, b) <= 0
  {
    if a >= 0 {
      q := a / b;
    } else {
      q := -((-a) / b);
      assert q * b == -(((-a) / b) * b);
    }
  }

  lemma CommonDivisors(d: int, a: int, b: int)
    requires d != 0 && b != 0
    ensures Divides(d, a) && Divides(d, b) <==> Divides(d, b) && Divides(d, TruncMod(a, b))
  {
    var q := TruncModStep(a, b);
    if Divides(d, b) && Divides(d, a) {
      DividesLinear(d, a, b, 1, -q);
      assert 1 * a + (-q) * b == TruncMod(a, b) by { assert (-q) * b == -(q * b); }
    }
    if Divides(d, b) && Divides(d, TruncMod(a, b)) {
      DividesLinear(d, b, TruncMod(a, b), q, 1);
    }
  }

  /** greatest_common_divisor of two numbers: Euclid's loop with the C++ remainder. */
  method GcdPair(p0: int, r0: int) returns (g: int)
    requires p0 != 0 && r0 != 0
    ensures IsGcd(g, [p0, r0])
    ensures p0 > 0 && r0 > 0 ==> g > 0
  {
    var p, r := p0, r0;
    while true
      invariant r != 0
      invariant forall d :: d != 0 ==> (Divides(d, p) && Divides(d, r) <==> Divides(d, p0) && Divides(d, r0))
      invariant p0 > 0 && r0 > 0 ==> p > 0 && r > 0
      decreases Abs(r)
    {
      var remain := TruncMod(p, r);
      ghost var q := TruncModStep(p, r);
      forall d | d != 0
        ensures Divides(d, r) && Divides(d, remain) <==> Divides(d, p0) && Divides(d, r0)
      {
        CommonDivisors(d, p, r);
      }
      p := r;
      r := remain;
      if remain == 0 {
        break;
      }
    }
    g := p;
    GcdOfPair(g, p0, r0);
  }

  lemma GcdOfPair(g: int, p: int, r: int)
    requires g != 0
    requires forall d :: d != 0 ==> (Divides(d, g) && Divides(d, 0) <==> Divides(d, p) && Divides(d, r))
    ensures IsGcd(g, [p, r])
  {
    assert Divides(g, g) && Divides(g, 0);
    forall d | d != 0 && DividesAll(d, [p, r])
      ensures Divides(d, g)
    {
      assert Divides(d, [p, r][0]) && Divides(d, [p, r][1]);
    }
  }

  lemma GcdFold(g: int, h: int, xs: seq<int>, x: int)
    requires IsGcd(g, xs) && IsGcd(h, [g, x])
    ensures IsGcd(h, xs + [x])
  {
    assert Divides(h, [g, x][0]) && Divides(h, [g, x][1]);
    forall i | 0 <= i < |xs + [x]|
      ensures Divides(h, (xs + [x])[i])
    {
      if i < |xs| {
        DividesTrans(h, g, xs[i]);
      }
    }
    forall d | d != 0 && DividesAll(d, xs + [x])
      ensures Divides(d, h)
    {
      forall i | 0 <= i < |xs|
        ensures Divides(d, xs[i])
      {
        assert xs[i] == (xs + [x])[i];
      }
      assert Divides(d, (xs + [x])[|xs|]);
      assert DividesAll(d, [g, x]);
    }
  }

  lemma GcdOne(x: int)
    requires x != 0
    ensures IsGcd(x, [x])
  {
    assert Divides(x, x);
    forall d | d != 0 && DividesAll(d, [x])
      ensures Divides(d, x)
    {
      assert Divides(d, [x][0]);
    }
  }

  /** greatest_common_divisor of a vector: a left fold of the pair form. */
  method GcdAll(nums: seq<int>) returns (g: int)
    requires |nums| >= 2 && AllNonzero(nums)
    ensures IsGcd(g, nums)
    ensures (forall i :: 0 <= i < |nums| ==> nums[i] > 0) ==> g > 0
  {
    g := nums[0];
    GcdOne(g);
    assert nums[..1] == [nums[0]];
    for i := 1 to |nums|
      invariant IsGcd(g, nums[..i])
      invariant (forall j :: 0 <= j < |nums| ==> nums[j] > 0) ==> g > 0
    {
      var h := GcdPair(g, nums[i]);
      GcdFold(g, h, nums[..i], nums[i]);
      assert nums[..i] + [nums[i]] == nums[..i + 1];
      g := h;
    }
    assert nums[..|nums|] == nums;
  }

  // ----- least common multiples -----

  /** Some common divisor of p and r is a linear combination of them. */
  lemma {:induction false} Bezout(p: int, r: int) returns (d: int, x: int, y: int)
    requires p != 0 && r != 0
    ensures d != 0 && Divides(d, p) && Divides(d, r)
    ensures d == x * p + y * r
    decreases Abs(r)
  {
    var q := TruncModStep(p, r);
    var m := TruncMod(p, r);
    if m == 0 {
      d, x, y := r, 0, 1;
      CommonDivisors(r, p, r);
    } else {
      var x', y';
      d, x', y' := Bezout(r, m);
      CommonDivisors(d, p, r);
      x, y := y', x' - y' * q;
      BezoutStep(p, r, q, m, x', y');
    }
  }

  lemma BezoutStep(p: int, r: int, q: int, m: int, x: int, y: int)
    requires p == q * r + m
    ensures y * p + (x - y * q) * r == x * r + y * m
  {
  }

  lemma BezoutOfGcd(g: int, p: int, r: int) returns (x: int, y: int)
    requires p != 0 && r != 0 && IsGcd(g, [p, r])
    ensures g == x * p + y * r
  {
    var d, x', y' := Bezout(p, r);
    assert DividesAll(d, [p, r]);
    Quotient(d, g);
    var q := g / d;
    x, y := q * x', q * y';
    assert q * (x' * p + y' * r) == (q * x') * p + (q * y') * r;
  }

  /** Dividing by the gcd and multiplying by the other number gives the least common multiple. */
  lemma LcmOfPair(p: int, r: int, g: int)
    requires p != 0 && r != 0 && IsGcd(g, [p, r])
    ensures IsLcm((p / g) * r, [p, r])
  {
    var m := (p / g) * r;
    assert Divides(g, [p, r][0]) && Divides(g, [p, r][1]);
    Quotient(g, p);
    Quotient(g, r);
    ProductIsNonzero(p / g, r);
    MulDivides(r, p / g);
    assert Divides(p, m) by {
      calc { m; (p / g) * (g * (r / g)); (g * (p / g)) * (r / g); p * (r / g); }
      MulDivides(p, r / g);
    }
    forall k | MultipleOfAll(k, [p, r])
      ensures Divides(m, k)
    {
      assert Divides([p, r][0], k) && Divides([p, r][1], k);
      LcmIsLeast(p, r, g, k);
    }
  }

  lemma ProductIsNonzero(a: int, b: int)
    requires a != 0 && b != 0
    ensures a * b != 0
  {
  }

  lemma Regroup(p: int, r: int, x: int, y: int, a: int, b: int)
    requires p * a == r * b
    ensures (x * p + y * r) * (p * a) == (p * r) * (b * x + a * y)
  {
  }

  lemma LcmIsLeast(p: int, r: int, g: int, k: int)
    requires p != 0 && r != 0 && IsGcd(g, [p, r])
    requires Divides(p, k) && Divides(r, k) && (p / g) * r != 0
    ensures Divides((p / g) * r, k)
  {
    var m := (p / g) * r;
    assert Divides(g, [p, r][0]);
    Quotient(g, p);
    Quotient(p, k);
    Quotient(r, k);
    var x, y := BezoutOfGcd(g, p, r);
    var a, b := k / p, k / r;
    var t := b * x + a * y;
    Regroup(p, r, x, y, a, b);
    assert g * k == (p * r) * t;
    LcmScale(g, p / g, r, t);
    Cancel(g, k, m * t);
    MulDivides(m, t);
  }

  lemma LcmScale(g: int, q: int, r: int, t: int)
    ensures ((g * q) * r) * t == g * ((q * r) * t)
  {
  }

  lemma Cancel(g: int, a: int, b: int)
    requires g != 0 && g * a == g * b
    ensures a == b
  {
  }

  /** Some common multiple of nums fits an int64_t. */
  ghost predicate MultipleFits(nums: seq<int>)
    requires AllNonzero(nums)
  {
    exists k :: k != 0 && -INT64_MAX <= k <= INT64_MAX && MultipleOfAll(k, nums)
  }

  lemma WrapIsExact(x: int)
    requires -INT64_MAX <= x <= INT64_MAX
    ensures Wrap64(x) == x
  {
  }

  /** Wrapping keeps the value modulo 2^64, and brings it into range. */
  lemma WrapIsCongruent(x: int)
    ensures -INT64_MAX - 1 <= Wrap64(x) <= INT64_MAX && (x - Wrap64(x)) % TWO_64 == 0
  {
  }

  /** least_common_multiple of two numbers: the division comes before the multiplication. */
  method LcmPair(p: int, r: int) returns (m: int)
    requires p != 0 && r != 0
    ensures MultipleFits([p, r]) ==> IsLcm(m, [p, r])
    ensures MultipleFits([p, r]) && p > 0 && r > 0 ==> m > 0
  {
    var g := GcdPair(p, r);
    m := Wrap64((p / g) * r);
    LcmOfPair(p, r, g);
    if MultipleFits([p, r]) {
      ghost var t := (p / g) * r;
      ghost var k :| k != 0 && -INT64_MAX <= k <= INT64_MAX && MultipleOfAll(k, [p, r]);
      DivisorIsSmaller(t, k);
      WrapIsExact(t);
      if p > 0 && r > 0 {
        assert Divides(g, [p, r][0]);
        Quotient(g, p);
        SameSign(r, p / g);
        assert r * (p / g) == t;
      }
    }
  }

  lemma LcmFold(m: int, h: int, xs: seq<int>, x: int)
    requires x != 0 && AllNonzero(xs) && IsLcm(m, xs) && IsLcm(h, [m, x])
    ensures IsLcm(h, xs + [x])
  {
    assert Divides([m, x][0], h) && Divides([m, x][1], h);
    forall i | 0 <= i < |xs + [x]|
      ensures Divides((xs + [x])[i], h)
    {
      if i < |xs| {
        DividesTrans(xs[i], m, h);
      }
    }
    forall k | MultipleOfAll(k, xs + [x])
      ensures Divides(h, k)
    {
      forall i | 0 <= i < |xs|
        ensures Divides(xs[i], k)
      {
        assert xs[i] == (xs + [x])[i];
      }
      assert Divides((xs + [x])[|xs|], k);
      assert MultipleOfAll(k, [m, x]);
    }
  }

  /** A common multiple of all the numbers bounds the lcm of every prefix with the next number. */
  lemma PrefixFits(nums: seq<int>, i: nat, m: int)
    requires AllNonzero(nums) && MultipleFits(nums) && i < |nums|
    requires IsLcm(m, nums[..i])
    ensures MultipleFits([m, nums[i]])
  {
    var k :| k != 0 && -INT64_MAX <= k <= INT64_MAX && MultipleOfAll(k, nums);
    assert MultipleOfAll(k, nums[..i]);
    assert MultipleOfAll(k, [m, nums[i]]);
  }

  lemma LcmOne(x: int)
    requires x != 0
    ensures IsLcm(x, [x])
  {
    assert Divides(x, x);
    forall k | MultipleOfAll(k, [x])
      ensures Divides(x, k)
    {
      assert Divides([x][0], k);
    }
  }

  /**
   * least_common_multiple of a vector, in wrapping int64_t arithmetic. When some common
   * multiple fits the type, no intermediate product wraps and the result is exact.
   */
  method LcmAll(nums: seq<int>) returns (m: int)
    requires |nums| >= 2 && AllNonzero(nums) && MultipleFits(nums)
    ensures IsLcm(m, nums)
    ensures (forall i :: 0 <= i < |nums| ==> nums[i] > 0) ==> m > 0
  {
    m := nums[0];
    LcmOne(m);
    assert nums[..1] == [nums[0]];
    for i := 1 to |nums|
      invariant IsLcm(m, nums[..i])
      invariant (forall j :: 0 <= j < |nums| ==> nums[j] > 0) ==> m > 0
    {
      PrefixFits(nums, i, m);
      var h := LcmPair(m, nums[i]);
      LcmFold(m, h, nums[..i], nums[i]);
      assert nums[..i] + [nums[i]] == nums[..i + 1];
      m := h;
    }
    assert nums[..|nums|] == nums;
  }

  /** The C++ quotient, for a positive divisor. */
  function TruncDiv(a: int, b: int): int
    requires b > 0
  {
    if a >= 0 then a / b else -((-a) / b)
  }

  /** Quotient and remainder belong together, as the language defines them: truncated towards zero. */
  lemma TruncatingDivision(a: int, b: int)
    requires b > 0
    ensures a == b * TruncDiv(a, b) + TruncMod(a, b)
    ensures Abs(b * TruncDiv(a, b)) <= Abs(a)
  {
    var n: nat := if a >= 0 then a else -a;
    var q := n / b;
    DivideDown(n, b);
    if a < 0 {
      Negate(b, q);
    }
  }

  lemma DivideDown(n: nat, b: int)
    requires b > 0
    ensures n == b * (n / b) + n % b && 0 <= b * (n / b) <= n
  {
  }

  lemma Negate(b: int, q: int)
    ensures b * -q == -(b * q)
  {
  }

  /**
   * Multiplying before dividing, in wrapping arithmetic, gives the same exactly if the product itself
   * fits; dividing first needs no more than the result to fit.
   */
  lemma MultiplyingFirstIff(p: int, r: int, g: int)
    requires p > 0 && r > 0 && g > 0 && IsGcd(g, [p, r])
    ensures TruncDiv(Wrap64(p * r), g) == (p / g) * r <==> p * r <= INT64_MAX
  {
    assert Divides(g, [p, r][0]);
    Quotient(g, p);
    var m, w := (p / g) * r, Wrap64(p * r);
    assert p * r == g * m;
    SameSign(r, p / g);
    assert r * (p / g) == m;
    if p * r <= INT64_MAX {
      SameSign(p, r);
      WrapIsExact(p * r);
      MulDivides(g, m);
    } else if w >= 0 {
      QuotientBelow(w, g, m);
    }
  }

  lemma QuotientBelow(w: int, g: int, m: int)
    requires g > 0 && w < g * m
    ensures w / g < m
  {
  }

  /** Multiplying first would not do: there are inputs whose lcm fits although their product does not. */
  lemma DivisionMustComeFirst()
    ensures IsLcm(0x4000_0000_0000_0000, [0x4000_0000_0000_0000, 0x4000_0000_0000_0000])
    ensures Wrap64(0x4000_0000_0000_0000 * 0x4000_0000_0000_0000) == 0
  {
    var x := 0x4000_0000_0000_0000;
    assert Divides(x, x);
    forall k | MultipleOfAll(k, [x, x])
      ensures Divides(x, k)
    {
      assert Divides([x, x][0], k);
    }
  }
}
