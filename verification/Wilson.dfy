/** The interval printed beside every kill rate (wilson), over the reals; the
    square root it takes is a nonnegative witness. Throughout, n is the number
    graded, p the measured rate, and w the square of z. */
module Wilson {
  import opened Common

  datatype Band = Band(lo: real, hi: real)

  function Div(a: real, d: real): (r: real)
    requires d > 0.0
    ensures r * d == a
  {
    a / d
  }

  function Product(a: real, b: real): (r: real)
    requires a > 0.0 && b > 0.0
    ensures r > 0.0
  {
    a * b
  }

  lemma Nonneg(a: real, b: real)
    requires a >= 0.0 && b >= 0.0
    ensures a * b >= 0.0
  {
  }

  function Rate(killed: nat, graded: nat): real
    requires graded > 0
  {
    Div(killed as real, graded as real)
  }

  /** What the source takes the square root of. */
  function Radicand(p: real, n: real, w: real): real
    requires n > 0.0
  {
    Sampling(p, n) + Widening(n, w)
  }

  function Sampling(p: real, n: real): (u: real)
    requires n > 0.0
    ensures u * n == p * (1.0 - p)
  {
    Div(p * (1.0 - p), n)
  }

  function Widening(n: real, w: real): (v: real)
    requires n > 0.0
    ensures v * (4.0 * n * n) == w
  {
    Div(w, Product(4.0 * n, n))
  }

  predicate IsRoot(s: real, x: real) {
    s >= 0.0 && s * s == x
  }

  function Denominator(n: real, w: real): (d: real)
    requires n > 0.0 && w >= 0.0
    ensures d >= 1.0 && n * d == n + w
  {
    1.0 + Div(w, n)
  }

  function Centre(p: real, n: real, w: real): (c: real)
    requires n > 0.0 && w >= 0.0
    ensures c * Denominator(n, w) == p + Div(w, 2.0 * n)
  {
    Div(p + Div(w, 2.0 * n), Denominator(n, w))
  }

  function Half(n: real, w: real, zs: real): (h: real)
    requires n > 0.0 && w >= 0.0
    ensures h * Denominator(n, w) == zs
  {
    Div(zs, Denominator(n, w))
  }

  function Square(z: real): (w: real)
    ensures w >= 0.0
  {
    z * z
  }

  /** wilson: no interval when nothing was graded; otherwise the two endpoints,
      each clamped to a rate. */
  function Interval(killed: nat, graded: nat, z: real, s: real): Option<Band>
    requires graded > 0 ==> IsRoot(s, Radicand(Rate(killed, graded), graded as real, Square(z)))
  {
    if graded == 0 then None
    else
      var n, w := graded as real, Square(z);
      var c, h := Centre(Rate(killed, graded), n, w), Half(n, w, z * s);
      Some(Band(if c - h < 0.0 then 0.0 else c - h, if c + h > 1.0 then 1.0 else c + h))
  }

  /** The quadratic whose roots a score interval's endpoints are by definition:
      the rates x at which p is exactly z standard errors away. */
  function Score(n: real, p: real, w: real, x: real): real {
    n * (x - p) * (x - p) - w * x * (1.0 - x)
  }

  // ---- The two endpoints, freed of their divisions ----

  /** c and h are the midpoint and half-width of the roots of Score(n, p, w, _):
      half the sum and the product of the roots are what they should be. */
  ghost predicate Vieta(n: real, p: real, w: real, c: real, h: real) {
    n > 0.0 && w >= 0.0
    && 2.0 * (n + w) * c == 2.0 * n * p + w
    && (n + w) * (c * c - h * h) == n * p * p
  }

  lemma Cancel(a: real, b: real, d: real)
    requires d > 0.0 && a * d == b * d
    ensures a == b
  {
  }

  lemma CentreTimes(n: real, p: real, w: real, c: real, d: real, q: real)
    requires n * d == n + w && n * q == w && c * d == p + q / 2.0
    ensures 2.0 * (n + w) * c == 2.0 * n * p + w
  {
    assert (n + w) * c == n * (c * d);
    assert n * (p + q / 2.0) == n * p + n * q / 2.0;
  }

  lemma CentreSquared(c: real, d: real, p: real, q: real)
    requires c * d == p + q / 2.0
    ensures c * c * d * d == p * p + p * q + q * q / 4.0
  {
    assert c * c * d * d == (c * d) * (c * d);
  }

  lemma HalfSquared(n: real, p: real, w: real, zs: real, s2: real, h: real, d: real, q: real, u: real, v: real)
    requires n > 0.0 && h * d == zs && q * n == w && zs * zs == w * s2
    requires s2 == u + v && u * n == p * (1.0 - p) && v * (4.0 * n * n) == w
    ensures h * h * d * d == p * q - p * p * q + q * q / 4.0
  {
    assert h * h * d * d == (h * d) * (h * d) == w * s2;
    assert w * u == q * (n * u) == q * (p * (1.0 - p));
    assert v * (4.0 * n * n) == 4.0 * (v * n) * n;
    Cancel(4.0 * (v * n), q, n);
    assert w * v == q * (v * n);
  }

  lemma DifferenceOfSquares(n: real, p: real, w: real, c: real, h: real, d: real, q: real)
    requires n > 0.0 && d == 1.0 + q && d > 0.0 && n * d == n + w
    requires c * c * d * d == p * p + p * q + q * q / 4.0
    requires h * h * d * d == p * q - p * p * q + q * q / 4.0
    ensures (n + w) * (c * c - h * h) == n * p * p
  {
    var e := c * c - h * h;
    assert e * d * d == c * c * d * d - h * h * d * d;
    assert p * p * d == p * p + p * p * q;
    Cancel(e * d, p * p, d);
    assert (n + w) * e == n * (e * d);
    assert n * (p * p) == n * p * p;
  }

  lemma VietaFrom(n: real, p: real, w: real, zs: real, s2: real, c: real, h: real, d: real, q: real, u: real, v: real)
    requires n > 0.0 && w >= 0.0 && d >= 1.0 && n * d == n + w && d == 1.0 + q && q * n == w
    requires c * d == p + q / 2.0 && h * d == zs && zs * zs == w * s2
    requires s2 == u + v && u * n == p * (1.0 - p) && v * (4.0 * n * n) == w
    ensures Vieta(n, p, w, c, h)
  {
    CentreTimes(n, p, w, c, d, q);
    CentreSquared(c, d, p, q);
    HalfSquared(n, p, w, zs, s2, h, d, q, u, v);
    DifferenceOfSquares(n, p, w, c, h, d, q);
  }

  lemma HalfOfQuotient(n: real, w: real)
    requires n > 0.0
    ensures Div(w, 2.0 * n) == Div(w, n) / 2.0
  {
    Cancel(Div(w, 2.0 * n), Div(w, n) / 2.0, 2.0 * n);
  }

  lemma RootSquared(z: real, s: real, w: real, s2: real)
    requires w == z * z && s2 == s * s
    ensures (z * s) * (z * s) == w * s2
  {
    assert (z * s) * (z * s) == (z * z) * (s * s);
  }

  lemma EndpointsSatisfyVieta(n: real, p: real, z: real, s: real)
    requires n > 0.0 && IsRoot(s, Radicand(p, n, Square(z)))
    ensures Vieta(n, p, Square(z), Centre(p, n, Square(z)), Half(n, Square(z), z * s))
  {
    var w := Square(z);
    HalfOfQuotient(n, w);
    RootSquared(z, s, w, Radicand(p, n, w));
    VietaFrom(n, p, w, z * s, Radicand(p, n, w), Centre(p, n, w), Half(n, w, z * s), Denominator(n, w),
              Div(w, n), Sampling(p, n), Widening(n, w));
  }

  // ---- What follows for any such pair ----

  /** The quadratic factors through c - h and c + h, so nothing else is a root. */
  lemma Factors(n: real, p: real, w: real, c: real, h: real, x: real)
    requires Vieta(n, p, w, c, h)
    ensures Score(n, p, w, x) == (n + w) * (x - (c - h)) * (x - (c + h))
  {
    var t := n + w;
    assert (x - (c - h)) * (x - (c + h)) == x * x - 2.0 * c * x + (c * c - h * h);
    assert t * (x * x - 2.0 * c * x + (c * c - h * h)) == t * x * x - (2.0 * t * c) * x + t * (c * c - h * h);
    assert (2.0 * n * p + w) * x == 2.0 * n * p * x + w * x;
    assert n * (x - p) * (x - p) == n * x * x - 2.0 * n * p * x + n * p * p;
    assert w * x * (1.0 - x) == w * x - w * x * x;
    assert t * x * x == n * x * x + w * x * x;
  }

  lemma ProductSign(a: real, b: real, t: real)
    requires t > 0.0
    ensures t * a * b <= 0.0 <==> (a <= 0.0 <= b || b <= 0.0 <= a)
    ensures t * a * b == 0.0 <==> a == 0.0 || b == 0.0
  {
  }

  /** The score is zero exactly at the endpoints and below zero exactly between
      them. */
  lemma ScoreSign(n: real, p: real, w: real, c: real, h: real, x: real)
    requires Vieta(n, p, w, c, h) && h >= 0.0
    ensures Score(n, p, w, x) <= 0.0 <==> c - h <= x <= c + h
    ensures Score(n, p, w, x) == 0.0 <==> x == c - h || x == c + h
  {
    Factors(n, p, w, c, h, x);
    ProductSign(x - (c - h), x - (c + h), n + w);
  }

  lemma SameSign(a: real, b: real, t: real)
    requires t > 0.0 && a > 0.0 && (t * a * b >= 0.0 || t * b * a >= 0.0)
    ensures b >= 0.0
  {
    assert Product(t, a) > 0.0;
    assert t * b * a == (t * a) * b;
  }

  /** Both endpoints are rates, with the measured rate between them. */
  lemma EndpointsAreRates(n: real, p: real, w: real, c: real, h: real)
    requires Vieta(n, p, w, c, h) && h >= 0.0 && 0.0 <= p <= 1.0
    ensures 0.0 <= c - h <= p <= c + h <= 1.0
  {
    ScoreAtEnds(n, p, w);
    ScoreSign(n, p, w, c, h, 0.0);
    ScoreSign(n, p, w, c, h, p);
    ScoreSign(n, p, w, c, h, 1.0);
    CentreIsRate(n, p, w, c);
  }

  lemma ScoreAtEnds(n: real, p: real, w: real)
    requires n > 0.0 && w >= 0.0 && 0.0 <= p <= 1.0
    ensures Score(n, p, w, 0.0) >= 0.0 && Score(n, p, w, p) <= 0.0 && Score(n, p, w, 1.0) >= 0.0
  {
    Nonneg(n, p);
    Nonneg(n * p, p);
    Nonneg(n, 1.0 - p);
    Nonneg(n * (1.0 - p), 1.0 - p);
    Nonneg(w, p);
    Nonneg(w * p, 1.0 - p);
    assert n * (0.0 - p) * (0.0 - p) == n * p * p;
    assert n * (p - p) * (p - p) == 0.0;
    assert w * 0.0 * (1.0 - 0.0) == 0.0 && w * 1.0 * (1.0 - 1.0) == 0.0;
  }

  lemma CentreIsRate(n: real, p: real, w: real, c: real)
    requires n > 0.0 && w >= 0.0 && 0.0 <= p <= 1.0 && 2.0 * (n + w) * c == 2.0 * n * p + w
    ensures 0.0 <= c <= 1.0
  {
    var t := 2.0 * (n + w);
    Nonneg(n, p);
    Nonneg(n, 1.0 - p);
    assert n * (1.0 - p) == n - n * p;
    assert t * (1.0 - c) == t - t * c;
    SameSign(t, c, 1.0);
    SameSign(t, 1.0 - c, 1.0);
  }

  // ---- The interval itself ----

  lemma RateIsRate(killed: nat, graded: nat)
    requires 0 < graded && killed <= graded
    ensures 0.0 <= Rate(killed, graded) <= 1.0
    ensures Rate(graded - killed, graded) == 1.0 - Rate(killed, graded)
  {
    var n, k, p := graded as real, killed as real, Rate(killed, graded);
    assert (graded - killed) as real == n - k;
    Cancel(1.0 - p, Rate(graded - killed, graded), n);
    QuotientBounds(k, n, p);
  }

  lemma QuotientBounds(k: real, n: real, p: real)
    requires n > 0.0 && 0.0 <= k <= n && p * n == k
    ensures 0.0 <= p <= 1.0
  {
    SameSign(n, p, 1.0);
    SameSign(n, 1.0 - p, 1.0);
  }

  lemma RateOrder(k1: nat, k2: nat, graded: nat)
    requires 0 < graded && k1 <= k2
    ensures Rate(k1, graded) <= Rate(k2, graded)
  {
    var n, p1, p2 := graded as real, Rate(k1, graded), Rate(k2, graded);
    assert (p2 - p1) * n == k2 as real - k1 as real;
    SameSign(n, p2 - p1, 1.0);
  }

  /** The clamps are inert: what is returned is the unclamped pair, which
      satisfies the root equations, lies in [0, 1] and has the measured rate
      between its ends. */
  lemma ClampsAreInert(killed: nat, graded: nat, z: real, s: real) returns (c: real, h: real)
    requires 0 < graded && killed <= graded && z >= 0.0
    requires IsRoot(s, Radicand(Rate(killed, graded), graded as real, Square(z)))
    ensures Vieta(graded as real, Rate(killed, graded), Square(z), c, h) && h >= 0.0
    ensures Interval(killed, graded, z, s) == Some(Band(c - h, c + h))
    ensures 0.0 <= c - h <= Rate(killed, graded) <= c + h <= 1.0
  {
    var n, p, w := graded as real, Rate(killed, graded), Square(z);
    c, h := Centre(p, n, w), Half(n, w, z * s);
    RateIsRate(killed, graded);
    EndpointsSatisfyVieta(n, p, z, s);
    Nonneg(z, s);
    SameSign(Denominator(n, w), h, 1.0);
    EndpointsAreRates(n, p, w, c, h);
  }

  /** The interval returned is the pair of roots of the score: a rate scores
      zero exactly at the endpoints and less exactly between them. */
  lemma IntervalIsTheRoots(killed: nat, graded: nat, z: real, s: real, x: real)
    requires 0 < graded && killed <= graded && z >= 0.0
    requires IsRoot(s, Radicand(Rate(killed, graded), graded as real, Square(z)))
    ensures var p, band := Rate(killed, graded), Interval(killed, graded, z, s).value;
            && 0.0 <= band.lo <= p <= band.hi <= 1.0
            && (Score(graded as real, p, Square(z), x) == 0.0 <==> x == band.lo || x == band.hi)
            && (Score(graded as real, p, Square(z), x) <= 0.0 <==> band.lo <= x <= band.hi)
  {
    var c, h := ClampsAreInert(killed, graded, z, s);
    ScoreSign(graded as real, Rate(killed, graded), Square(z), c, h, x);
  }

  /** The score at a fixed rate falls as the measured rate comes nearer to it. */
  lemma NearerScoresLower(n: real, p: real, p': real, w: real, x: real)
    requires n > 0.0 && (p <= p' <= x || x <= p' <= p)
    ensures Score(n, p', w, x) <= Score(n, p, w, x)
  {
    var a, b := x - p, x - p';
    if a >= b >= 0.0 { Squeeze(n, a, b); } else { Squeeze(n, -a, -b); }
  }

  lemma Squeeze(n: real, a: real, b: real)
    requires n > 0.0 && a >= b >= 0.0
    ensures n * a * a >= n * b * b
  {
    Nonneg(a - b, a + b);
    Nonneg(n, (a - b) * (a + b));
    assert n * ((a - b) * (a + b)) == n * a * a - n * b * b;
  }

  /** More kills never lower either endpoint. */
  lemma MonotoneInKilled(k1: nat, k2: nat, graded: nat, z: real, s1: real, s2: real)
    requires 0 < graded && k1 <= k2 <= graded && z >= 0.0
    requires IsRoot(s1, Radicand(Rate(k1, graded), graded as real, Square(z)))
    requires IsRoot(s2, Radicand(Rate(k2, graded), graded as real, Square(z)))
    ensures var b1, b2 := Interval(k1, graded, z, s1).value, Interval(k2, graded, z, s2).value;
            b1.lo <= b2.lo && b1.hi <= b2.hi
  {
    var b1, b2 := Interval(k1, graded, z, s1).value, Interval(k2, graded, z, s2).value;
    var n, p1, p2 := graded as real, Rate(k1, graded), Rate(k2, graded);
    RateOrder(k1, k2, graded);
    IntervalIsTheRoots(k1, graded, z, s1, b1.hi);
    IntervalIsTheRoots(k2, graded, z, s2, b1.hi);
    IntervalIsTheRoots(k1, graded, z, s1, b2.lo);
    IntervalIsTheRoots(k2, graded, z, s2, b2.lo);
    if p2 <= b1.hi { NearerScoresLower(n, p1, p2, Square(z), b1.hi); }
    if b2.lo <= p1 { NearerScoresLower(n, p2, p1, Square(z), b2.lo); }
  }

  lemma RootIsUnique(s1: real, s2: real, x: real)
    requires IsRoot(s1, x) && IsRoot(s2, x)
    ensures s1 == s2
  {
    ProductSign(s1 - s2, s1 + s2, 1.0);
  }

  lemma Mirror(n: real, p: real, w: real, c: real, c': real)
    requires n > 0.0 && w >= 0.0
    requires 2.0 * (n + w) * c == 2.0 * n * p + w && 2.0 * (n + w) * c' == 2.0 * n * (1.0 - p) + w
    ensures c' == 1.0 - c
  {
    var t := 2.0 * (n + w);
    assert t * (1.0 - c) == t - t * c;
    assert 2.0 * n * (1.0 - p) == 2.0 * n - 2.0 * n * p;
    Cancel(c', 1.0 - c, t);
  }

  /** Trading kills for survivors mirrors the interval: (lo, hi) becomes
      (1 - hi, 1 - lo). */
  lemma SymmetricInSurvivors(killed: nat, graded: nat, z: real, s: real, s': real)
    requires 0 < graded && killed <= graded && z >= 0.0
    requires IsRoot(s, Radicand(Rate(killed, graded), graded as real, Square(z)))
    requires IsRoot(s', Radicand(Rate(graded - killed, graded), graded as real, Square(z)))
    ensures var band, mirror := Interval(killed, graded, z, s).value, Interval(graded - killed, graded, z, s').value;
            mirror == Band(1.0 - band.hi, 1.0 - band.lo)
  {
    var n, p, w := graded as real, Rate(killed, graded), Square(z);
    RateIsRate(killed, graded);
    var c, h := ClampsAreInert(killed, graded, z, s);
    var c', h' := ClampsAreInert(graded - killed, graded, z, s');
    MirrorBoth(n, p, w, c, h, c', h');
  }

  lemma MirrorBoth(n: real, p: real, w: real, c: real, h: real, c': real, h': real)
    requires Vieta(n, p, w, c, h) && Vieta(n, 1.0 - p, w, c', h') && h >= 0.0 && h' >= 0.0
    ensures c' - h' == 1.0 - (c + h) && c' + h' == 1.0 - (c - h)
  {
    Mirror(n, p, w, c, c');
    HalvesAgree(n, p, w, c, h, c', h');
  }

  lemma HalvesAgree(n: real, p: real, w: real, c: real, h: real, c': real, h': real)
    requires Vieta(n, p, w, c, h) && Vieta(n, 1.0 - p, w, c', h') && h >= 0.0 && h' >= 0.0 && c' == 1.0 - c
    ensures h == h'
  {
    var t := n + w;
    assert t * (c' * c' - h' * h') == t - 2.0 * t * c + t * (c * c) - t * (h' * h');
    assert n * (1.0 - p) * (1.0 - p) == n - 2.0 * n * p + n * p * p;
    assert t * (c * c - h * h) == t * (c * c) - t * (h * h);
    Cancel(h * h, h' * h', t);
    RootIsUnique(h, h', h * h);
  }
}
