/** The binary greatest common divisor and the rate fractions PlayVGM reduces with it. */
module Gcd {
  import opened Arith

  ghost predicate Divides(d: nat, n: nat) {
    exists k: nat :: n == d * k
  }

  ghost predicate Common(d: nat, x: nat, y: nat) {
    Divides(d, x) && Divides(d, y)
  }

  /** g is a common divisor that every common divisor divides; of 0 and 0 that is 0. */
  ghost predicate IsGcd(g: nat, x: nat, y: nat) {
    Common(g, x, y) && forall d: nat :: Common(d, x, y) ==> Divides(d, g)
  }

  /** The two pairs have the same common divisors. */
  ghost predicate Alike(x: nat, y: nat, u: nat, v: nat) {
    forall d: nat :: Common(d, x, y) <==> Common(d, u, v)
  }

  lemma DividesBy(d: nat, n: nat, k: nat)
    requires n == d * k
    ensures Divides(d, n)
  {
  }

  lemma DividesSum(d: nat, x: nat, y: nat)
    requires Divides(d, x)
    ensures Divides(d, y) <==> Divides(d, x + y)
  {
    var j: nat :| x == d * j;
    if Divides(d, y) {
      var k: nat :| y == d * k;
      DividesPlus(d, j, k);
    }
    if Divides(d, x + y) {
      var k: nat :| x + y == d * k;
      DividesRest(d, y, j, k);
    }
  }

  lemma DividesPlus(d: nat, j: nat, k: nat)
    ensures Divides(d, d * j + d * k)
  {
    assert d * (j + k) == d * j + d * k;
    DividesBy(d, d * j + d * k, j + k);
  }

  lemma DividesRest(d: nat, y: nat, j: nat, k: nat)
    requires d * j + y == d * k
    ensures Divides(d, y)
  {
    if j <= k {
      assert d * (k - j) == d * k - d * j;
      DividesBy(d, y, k - j);
    } else {
      MulMono(k, j, d);
      DividesBy(d, y, 0);
    }
  }

  lemma DividesTwice(d: nat, x: nat)
    requires Divides(d, x)
    ensures Divides(d, 2 * x)
  {
    var k: nat :| x == d * k;
    DividesBy(d, 2 * x, 2 * k);
  }

  /** An odd number that divides 2x divides x. */
  lemma OddHalf(d: nat, x: nat)
    requires d % 2 == 1 && Divides(d, 2 * x)
    ensures Divides(d, x)
  {
    var k: nat :| 2 * x == d * k;
    var c := d / 2;
    assert d * k == 2 * (c * k) + k;
    DividesHalf(d, x, k);
  }

  lemma DividesHalf(d: nat, x: nat, k: nat)
    requires 2 * x == d * k && k % 2 == 0
    ensures Divides(d, x)
  {
    assert d * k == 2 * (d * (k / 2));
    DividesBy(d, x, k / 2);
  }

  lemma OddDivisor(d: nat, n: nat)
    requires n % 2 == 1 && Divides(d, n)
    ensures d % 2 == 1
  {
    var k: nat :| n == d * k;
    var half := d / 2;
    assert d == 2 * half ==> d * k == 2 * (half * k);
  }

  /** A factor 2 of one number is no common divisor when the other is odd. */
  lemma Strip(x: nat, y: nat)
    requires x % 2 == 1
    ensures Alike(x, 2 * y, x, y) && Alike(2 * y, x, y, x)
  {
    forall d: nat ensures Common(d, x, 2 * y) <==> Common(d, x, y) {
      if Common(d, x, 2 * y) {
        OddDivisor(d, x);
        OddHalf(d, y);
      }
      if Common(d, x, y) {
        DividesTwice(d, y);
      }
    }
    forall d: nat ensures Common(d, 2 * y, x) <==> Common(d, y, x) {
      assert Common(d, 2 * y, x) == Common(d, x, 2 * y) && Common(d, y, x) == Common(d, x, y);
    }
  }

  lemma Subtract(x: nat, y: nat)
    requires x <= y
    ensures Alike(x, y, x, y - x) && Alike(y, x, x, y - x)
  {
    forall d: nat ensures Common(d, x, y) <==> Common(d, x, y - x) {
      if Divides(d, x) {
        DividesSum(d, x, y - x);
      }
    }
  }

  lemma AlikeStep(x: nat, y: nat, u: nat, v: nat, p: nat, q: nat)
    requires Alike(x, y, u, v) && Alike(u, v, p, q)
    ensures Alike(x, y, p, q)
  {
    forall d: nat ensures Common(d, x, y) <==> Common(d, p, q) {
      assert Common(d, x, y) <==> Common(d, u, v);
    }
  }

  lemma GcdOfAlike(g: nat, x: nat, y: nat, u: nat, v: nat)
    requires Alike(x, y, u, v) && IsGcd(g, u, v)
    ensures IsGcd(g, x, y)
  {
    assert Common(g, x, y);
    forall d: nat | Common(d, x, y) ensures Divides(d, g) {
      assert Common(d, u, v);
    }
  }

  lemma GcdWithZero(x: nat)
    ensures IsGcd(x, x, 0) && IsGcd(x, 0, x)
  {
    DividesBy(x, x, 1);
    DividesBy(x, 0, 0);
    assert Common(x, x, 0) && Common(x, 0, x);
  }

  /** Doubling both numbers doubles their greatest common divisor. */
  lemma GcdTwice(g: nat, x: nat, y: nat)
    requires IsGcd(g, x, y)
    ensures IsGcd(2 * g, 2 * x, 2 * y)
  {
    var j: nat, k: nat :| x == g * j && y == g * k;
    DividesBy(2 * g, 2 * x, j);
    DividesBy(2 * g, 2 * y, k);
    assert Common(2 * g, 2 * x, 2 * y);
    forall d: nat | Common(d, 2 * x, 2 * y) ensures Divides(d, 2 * g) {
      if d % 2 == 1 {
        OddHalf(d, x);
        OddHalf(d, y);
        assert Common(d, x, y);
        DividesTwice(d, g);
      } else {
        HalfDivides(d / 2, x);
        HalfDivides(d / 2, y);
        assert Common(d / 2, x, y);
        var m: nat :| g == d / 2 * m;
        DividesBy(d, 2 * g, m);
      }
    }
  }

  lemma HalfDivides(e: nat, x: nat)
    requires Divides(2 * e, 2 * x)
    ensures Divides(e, x)
  {
    var k: nat :| 2 * x == 2 * e * k;
    DividesBy(e, x, k);
  }

  lemma {:induction false} GcdShifted(g: nat, x: nat, y: nat, shift: nat)
    requires IsGcd(g, x, y)
    ensures IsGcd(g * Pow2(shift), x * Pow2(shift), y * Pow2(shift))
  {
    if shift > 0 {
      GcdShifted(g, x, y, shift - 1);
      GcdTwice(g * Pow2(shift - 1), x * Pow2(shift - 1), y * Pow2(shift - 1));
      Times2(g, shift);
      Times2(x, shift);
      Times2(y, shift);
    }
  }

  lemma Times2(x: nat, shift: nat)
    requires shift > 0
    ensures x * Pow2(shift) == 2 * (x * Pow2(shift - 1))
  {
    assert Pow2(shift) == 2 * Pow2(shift - 1);
    assert x * (2 * Pow2(shift - 1)) == 2 * (x * Pow2(shift - 1));
  }

  /** There is only one greatest common divisor. */
  lemma GcdUnique(g: nat, h: nat, x: nat, y: nat)
    requires IsGcd(g, x, y) && IsGcd(h, x, y)
    ensures g == h
  {
    DividesLess(g, h);
    DividesLess(h, g);
  }

  lemma DividesLess(d: nat, n: nat)
    requires Divides(d, n)
    ensures n == 0 || 0 < d <= n
  {
    var k: nat :| n == d * k;
    if k > 0 {
      MulMono(1, k, d);
    }
  }

  /** Removes the factors 2 of y, which x does not share. */
  method StripTwos(x: nat, y: nat) returns (r: nat)
    requires x % 2 == 1 && y > 0
    ensures 0 < r <= y && r % 2 == 1 && Alike(x, y, x, r)
  {
    r := y;
    while r % 2 == 0
      invariant 0 < r <= y && Alike(x, y, x, r)
      decreases r
    {
      Strip(x, r / 2);
      AlikeStep(x, y, x, r, x, r / 2);
      r := r / 2;
    }
  }

  lemma AlikeSame(x: nat, y: nat)
    ensures Alike(x, y, x, y)
  {
  }

  lemma AlikeSwap(x: nat, y: nat, z: nat)
    requires Alike(y, x, y, z)
    ensures Alike(x, y, z, y)
  {
    forall d: nat ensures Common(d, x, y) <==> Common(d, z, y) {
      assert Common(d, y, x) <==> Common(d, y, z);
    }
  }

  /** The part after the common factors of 2 are gone. */
  method OddGcd(x: nat, y: nat) returns (u: nat)
    requires x > 0 && y > 0 && (x % 2 == 1 || y % 2 == 1)
    ensures IsGcd(u, x, y)
  {
    hide Alike, Divides, Common, IsGcd;
    u := x;
    var v := y;
    AlikeSame(x, y);
    if u % 2 == 0 {
      u := StripTwos(y, x);
      AlikeSwap(x, y, u);
    }

    var more := true;
    while more
      invariant u % 2 == 1 && v >= 0 && more == (v > 0)
      invariant Alike(x, y, u, v)
      decreases u + v
    {
      ghost var p, q := u, v;
      v := StripTwos(u, v);
      ghost var w := v;
      AlikeStep(x, y, p, q, p, w);
      if u < v {
        Subtract(u, v);
        v := v - u;
      } else {
        Subtract(v, u);
        var diff := u - v;
        u := v;
        v := diff;
      }
      AlikeStep(x, y, p, w, u, v);
      Strip(u, v / 2);
      AlikeStep(x, y, u, v, u, v / 2);
      v := v / 2;
      more := v != 0;
    }
    GcdWithZero(u);
    GcdOfAlike(u, x, y, u, 0);
  }

  /** gcd. */
  method BinaryGcd(x: nat, y: nat) returns (g: nat)
    ensures IsGcd(g, x, y)
  {
    hide Alike, Divides, Common, IsGcd, Pow2;
    if x == 0 || y == 0 {
      GcdWithZero(x + y);
      return x + y;                // x | y
    }

    var u, v, shift := x, y, 0;
    Unshifted(x);
    Unshifted(y);
    while u % 2 == 0 && v % 2 == 0
      invariant u > 0 && v > 0 && x == u * Pow2(shift) && y == v * Pow2(shift)
      decreases u
    {
      Times2(u / 2, shift + 1);
      Times2(v / 2, shift + 1);
      HalfTwice(u, Pow2(shift));
      HalfTwice(v, Pow2(shift));
      u, v, shift := u / 2, v / 2, shift + 1;
    }
    g := OddGcd(u, v);
    GcdShifted(g, u, v, shift);
    g := g * Pow2(shift);          // x << shift
  }

  lemma Unshifted(x: nat)
    ensures x * Pow2(0) == x
  {
  }

  lemma HalfTwice(u: nat, p: nat)
    requires u % 2 == 0
    ensures 2 * (u / 2 * p) == u * p
  {
    assert 2 * (u / 2) * p == 2 * (u / 2 * p);
  }

  ghost predicate Coprime(x: nat, y: nat) {
    IsGcd(1, x, y)
  }

  /** Dividing both by their greatest common divisor keeps the ratio and leaves nothing in common. */
  lemma Reduced(x: nat, y: nat, g: nat)
    requires IsGcd(g, x, y) && (x > 0 || y > 0)
    ensures g > 0 && x / g * g == x && y / g * g == y
    ensures x / g * y == y / g * x && Coprime(x / g, y / g)
  {
    var j: nat, k: nat :| x == g * j && y == g * k;
    assert g == 0 ==> x == 0 && y == 0;
    DivIs(x, g, j);
    DivIs(y, g, k);
    assert j * y == k * x by {
      assert j * (g * k) == k * (g * j);
    }
    ReducedCoprime(g, j, k);
  }

  lemma ReducedCoprime(g: nat, j: nat, k: nat)
    requires g > 0 && IsGcd(g, g * j, g * k)
    ensures Coprime(j, k)
  {
    DividesBy(1, j, j);
    DividesBy(1, k, k);
    assert Common(1, j, k);
    forall d: nat | Common(d, j, k) ensures Divides(d, 1) {
      CommonScaled(g, d, j, k);
      var t: nat :| g == g * d * t;
      ScaleOne(g, d, t);
      DividesBy(d, 1, t);
    }
  }

  lemma CommonScaled(g: nat, d: nat, j: nat, k: nat)
    requires Common(d, j, k)
    ensures Common(g * d, g * j, g * k)
  {
    DividesScaled(g, d, j);
    DividesScaled(g, d, k);
  }

  lemma DividesScaled(g: nat, d: nat, j: nat)
    requires Divides(d, j)
    ensures Divides(g * d, g * j)
  {
    var m: nat :| j == d * m;
    assert g * (d * m) == g * d * m;
    DividesBy(g * d, g * j, m);
  }

  lemma ScaleOne(g: nat, d: nat, t: nat)
    requires g > 0 && g == g * d * t
    ensures d * t == 1
  {
    assert d * t * g == g * d * t;
    MulNear(d * t, 1, g);
  }

  lemma CoprimeEqual(x: nat)
    requires Coprime(x, x)
    ensures x == 1
  {
    DividesBy(x, x, 1);
    assert Common(x, x, x);
    DividesLess(x, 1);
  }

  const VGM_SAMPLE_RATE: nat := 44100

  /** The two fractions PlayVGM reduces: the playback rate against the file's own rate, and output
      samples against the 44100 samples per second a VGM file counts in. */
  method RateFractions(sampleRate: nat, playbackRate: nat, fileRate: nat)
    returns (rateMul: nat, rateDiv: nat, smplMul: nat, smplDiv: nat)
    requires sampleRate > 0
    ensures Coprime(rateMul, rateDiv) && rateMul > 0 && rateDiv > 0
    ensures if playbackRate == 0 || fileRate == 0 then rateMul == rateDiv
            else rateMul * playbackRate == rateDiv * fileRate
    ensures Coprime(smplMul, smplDiv) && smplMul > 0 && smplDiv > 0
    ensures smplMul * (VGM_SAMPLE_RATE * rateDiv) == smplDiv * (sampleRate * rateMul)
  {
    hide Alike, Divides, Common, IsGcd;
    if playbackRate == 0 || fileRate == 0 {
      rateMul, rateDiv := 1, 1;
      OneCoprime();
    } else {
      rateMul, rateDiv := Reduce(fileRate, playbackRate);
    }
    Positive(sampleRate, rateMul);
    Positive(VGM_SAMPLE_RATE, rateDiv);
    smplMul, smplDiv := Reduce(sampleRate * rateMul, VGM_SAMPLE_RATE * rateDiv);
  }

  method Reduce(x: nat, y: nat) returns (mul: nat, div: nat)
    requires x > 0 && y > 0
    ensures Coprime(mul, div) && mul > 0 && div > 0 && mul * y == div * x
  {
    hide Alike, Divides, Common, IsGcd, Coprime;
    var g := BinaryGcd(x, y);
    Reduced(x, y, g);
    mul, div := x / g, y / g;
  }

  lemma Positive(x: nat, y: nat)
    requires x > 0 && y > 0
    ensures x * y > 0
  {
  }

  lemma OneCoprime()
    ensures Coprime(1, 1)
  {
    DividesBy(1, 1, 1);
    assert Common(1, 1, 1);
  }

  /** At 44100 samples per second and the file's own speed the fraction is 1/1. */
  lemma OneToOneRate(smplMul: nat, smplDiv: nat)
    requires Coprime(smplMul, smplDiv) && smplMul * VGM_SAMPLE_RATE == smplDiv * VGM_SAMPLE_RATE
    ensures smplMul == 1 && smplDiv == 1
  {
    CoprimeEqual(smplMul);
  }
}
