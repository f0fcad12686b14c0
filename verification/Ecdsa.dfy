/** The signing tool's ECDSA (sections 6.4.1 and 6.4.2 of FIPS 186-5). That the points form a group, that
    n is the order of g and that numbers have inverses modulo n are hypotheses here. */
module Ecdsa {
  type pos = x: nat | x > 0 witness 1

  /** Infinity: the point at infinity. */
  datatype Point = Infinity | At(x: int, y: int)

  /** y^2 == x^3 + a x + b modulo p; g generates n points; inv(x, m): the inverse of x modulo m. */
  datatype Curve = Curve(p: pos, a: int, b: int, n: pos, g: Point, inv: (int, int) -> int)

  const P := 0xFFFFFFFF00000001000000000000000000000000FFFFFFFFFFFFFFFFFFFFFFFF
  const B := 0x5AC635D8AA3A93E7B3EBBD55769886BC651D06B0CC53B0F63BCE3C3E27D2604B
  const N := 0xFFFFFFFF00000000FFFFFFFFFFFFFFFFBCE6FAADA7179E84F3B9CAC2FC632551
  const G := At(0x6B17D1F2E12C4247F8BCE6E563A440F277037D812DEB33A0F4A13945D898C296,
                0x4FE342E2FE1A7F9B8EE7EB4A7C0F9E162BCE33576B315ECECBB6406837BF51F5)

  function P256(inv: (int, int) -> int): Curve {
    Curve(P, P - 3, B, N, G, inv)
  }

  predicate OnCurve(c: Curve, q: Point)
  {
    q.At? ==> 0 <= q.x < c.p && 0 <= q.y < c.p && (q.y * q.y - (q.x * q.x * q.x + c.a * q.x + c.b)) % c.p == 0
  }

  function Add(c: Curve, p1: Point, p2: Point): Point
  {
    if p1.Infinity? then p2
    else if p2.Infinity? then p1
    else if p1.x == p2.x && (p1.y + p2.y) % c.p == 0 then Infinity
    else
      var lam :=
        if p1.x == p2.x then (3 * p1.x * p1.x + c.a) * c.inv(2 * p1.y, c.p) % c.p
        else (p2.y - p1.y) * c.inv(p2.x - p1.x, c.p) % c.p;
      var x := (lam * lam - p1.x - p2.x) % c.p;
      At(x, (lam * (p1.x - x) - p1.y) % c.p)
  }

  predicate Closed(c: Curve, p: Point, q: Point) {
    OnCurve(c, p) && OnCurve(c, q) ==> OnCurve(c, Add(c, p, q))
  }

  predicate Associative(c: Curve, p: Point, q: Point, r: Point) {
    OnCurve(c, p) && OnCurve(c, q) && OnCurve(c, r) ==> Add(c, Add(c, p, q), r) == Add(c, p, Add(c, q, r))
  }

  /** The points of the curve form a group under Add. */
  ghost predicate GroupLaw(c: Curve) {
    && OnCurve(c, c.g)
    && (forall p, q :: Closed(c, p, q))
    && (forall p, q, r :: Associative(c, p, q, r))
  }

  /** k times q. */
  function Times(c: Curve, k: nat, q: Point): Point
  {
    if k == 0 then Infinity else Add(c, Times(c, k - 1, q), q)
  }

  ghost predicate OrderIsN(c: Curve)
  {
    c.n > 1 && Times(c, c.n, c.g) == Infinity && forall k :: 0 < k < c.n ==> Times(c, k, c.g) != Infinity
  }

  /** n is prime: all but 0 have an inverse modulo n. */
  ghost predicate Invertible(c: Curve) {
    c.n > 1 && forall x :: 0 < x < c.n ==> 0 < c.inv(x, c.n) < c.n && x * c.inv(x, c.n) % c.n == 1
  }

  lemma GIsOnP256(inv: (int, int) -> int)
    ensures OnCurve(P256(inv), G)
  {
  }

  lemma Identity(c: Curve)
    ensures OnCurve(c, Infinity) && forall q :: Add(c, Infinity, q) == q && Add(c, q, Infinity) == q
  {
  }

  lemma SumOnCurve(c: Curve, p: Point, q: Point)
    requires GroupLaw(c) && OnCurve(c, p) && OnCurve(c, q)
    ensures OnCurve(c, Add(c, p, q))
  {
    assert Closed(c, p, q);
  }

  lemma {:induction false} TimesOnCurve(c: Curve, k: nat, q: Point)
    requires GroupLaw(c) && OnCurve(c, q)
    ensures OnCurve(c, Times(c, k, q))
  {
    Identity(c);
    hide Add, OnCurve;
    if k > 0 {
      TimesOnCurve(c, k - 1, q);
      SumOnCurve(c, Times(c, k - 1, q), q);
    }
  }

  lemma TimesStep(c: Curve, q: Point)
    ensures Times(c, 0, q) == Infinity && forall k: nat :: k > 0 ==> Times(c, k, q) == Add(c, Times(c, k - 1, q), q)
  {
  }

  lemma Associates(c: Curve, p: Point, q: Point, r: Point)
    requires GroupLaw(c) && OnCurve(c, p) && OnCurve(c, q) && OnCurve(c, r)
    ensures Add(c, Add(c, p, q), r) == Add(c, p, Add(c, q, r)) && OnCurve(c, Add(c, p, q))
  {
    assert Closed(c, p, q) && Associative(c, p, q, r);
    hide Add, OnCurve;
  }

  lemma {:induction false} TimesSum(c: Curve, j: nat, k: nat, q: Point)
    requires GroupLaw(c) && OnCurve(c, q)
    ensures Times(c, j + k, q) == Add(c, Times(c, j, q), Times(c, k, q))
  {
    hide *;
    Identity(c);
    TimesStep(c, q);
    if k > 0 {
      TimesSum(c, j, k - 1, q);
      TimesOnCurve(c, j, q);
      TimesOnCurve(c, k - 1, q);
      Associates(c, Times(c, j, q), Times(c, k - 1, q), q);
    }
  }

  lemma OneLess(j: nat, k: nat)
    requires j > 0
    ensures (j - 1) * k >= 0 && (j - 1) * k + k == j * k
  {
  }

  lemma {:induction false} TimesProduct(c: Curve, j: nat, k: nat, q: Point)
    requires GroupLaw(c) && OnCurve(c, q)
    ensures j * k >= 0 && Times(c, j, Times(c, k, q)) == Times(c, j * k, q)
  {
    hide *;
    TimesStep(c, q);
    TimesStep(c, Times(c, k, q));
    if j > 0 {
      OneLess(j, k);
      TimesProduct(c, j - 1, k, q);
      TimesSum(c, (j - 1) * k, k, q);
    } else {
      assert 0 * k == 0;
    }
  }

  lemma {:induction false} TimesOfInfinity(c: Curve, k: nat)
    ensures Times(c, k, Infinity) == Infinity
  {
    Identity(c);
    hide Add;
    if k > 0 { TimesOfInfinity(c, k - 1); }
  }

  lemma WholeAndRest(k: nat, n: pos)
    ensures k / n * n >= 0 && k / n * n + k % n == k
  {
  }

  lemma GHasOrderN(c: Curve)
    requires GroupLaw(c) && OrderIsN(c)
    ensures OnCurve(c, c.g) && Times(c, c.n, c.g) == Infinity
  {
  }

  /** Multiples of g go round after n. */
  lemma TimesModulo(c: Curve, k: nat)
    requires GroupLaw(c) && OrderIsN(c)
    ensures Times(c, k % c.n, c.g) == Times(c, k, c.g)
  {
    hide *;
    Identity(c);
    GHasOrderN(c);
    WholeAndRest(k, c.n);
    TimesSum(c, k / c.n * c.n, k % c.n, c.g);
    TimesProduct(c, k / c.n, c.n, c.g);
    TimesOfInfinity(c, k / c.n);
  }

  /** Double and add is k-fold addition. */
  method Mul(c: Curve, k: nat, q: Point) returns (r: Point)
    requires GroupLaw(c) && OnCurve(c, q)
    ensures r == Times(c, k, q)
  {
    Identity(c);
    TimesOnCurve(c, k, q);
    hide Add, OnCurve;
    r := Infinity;
    var n, pt := k, q;
    while n != 0
      invariant n >= 0 && OnCurve(c, pt) && OnCurve(c, r)
      invariant Add(c, r, Times(c, n, pt)) == Times(c, k, q)
    {
      Halved(c, n, pt);
      SumOnCurve(c, pt, pt);
      SumOnCurve(c, r, pt);
      TimesOnCurve(c, n / 2, Add(c, pt, pt));
      Associates(c, r, pt, Times(c, n / 2, Add(c, pt, pt)));
      if n % 2 == 1 { r := Add(c, r, pt); }
      pt := Add(c, pt, pt);
      n := n / 2;
    }
  }

  lemma Halved(c: Curve, n: nat, pt: Point)
    requires GroupLaw(c) && OnCurve(c, pt)
    ensures var half := Times(c, n / 2, Add(c, pt, pt));
      Times(c, n, pt) == if n % 2 == 1 then Add(c, pt, half) else half
  {
    hide *;
    Identity(c);
    OnceAndTwice(c, pt);
    TimesProduct(c, n / 2, 2, pt);
    if n % 2 == 1 { TimesSum(c, 1, n / 2 * 2, pt); }
  }

  lemma OnceAndTwice(c: Curve, pt: Point)
    ensures Times(c, 1, pt) == pt && Times(c, 2, pt) == Add(c, pt, pt)
  {
    hide *;
    Identity(c);
    TimesStep(c, pt);
    assert Times(c, 1, pt) == Add(c, Times(c, 0, pt), pt);
    assert Times(c, 2, pt) == Add(c, Times(c, 1, pt), pt);
  }

  // ---- the curve's numbers

  /** P-256 by its powers of two: p = 2^256 - 2^224 + 2^192 + 2^96 - 1, and an order that differs from p + 1 by the
      trace 2^96 + 0x4319055258E8617B0C46353D039CDAAF. */
  lemma ParametersAre(inv: (int, int) -> int)
    ensures var c, two96 := P256(inv), 0x1_0000_0000_0000_0000_0000_0000;
      && c.p == two96 * two96 * 0x1_0000_0000_0000_0000 - two96 * two96 * 0x1_0000_0000 + two96 * two96 + two96 - 1
      && c.n == c.p + 1 - two96 - 0x4319055258E8617B0C46353D039CDAAF
      && c.a == c.p - 3
  {
  }

  /** On y^2 = x^3 + 2 x + 3 modulo 97: the double of (3, 6), the sum with that, and a point with its opposite. */
  lemma SmallCurve(inv: (int, int) -> int)
    requires inv(12, 97) == 89 && inv(77, 97) == 63
    ensures var c := Curve(97, 2, 3, 5, At(3, 6), inv);
      && Add(c, At(3, 6), At(3, 6)) == At(80, 10) && Add(c, At(3, 6), At(80, 10)) == At(80, 87)
      && Add(c, At(80, 10), At(80, 87)) == Infinity
      && Add(c, Infinity, At(3, 6)) == At(3, 6) == Add(c, At(3, 6), Infinity)
      && OnCurve(c, At(3, 6)) && OnCurve(c, At(80, 10)) && OnCurve(c, At(80, 87)) && !OnCurve(c, At(3, 7))
  {
    var c := Curve(97, 2, 3, 5, At(3, 6), inv);
    SmallDouble(inv);
    SmallSum(inv);
    assert Add(c, At(80, 10), At(80, 87)) == Infinity by { assert (10 + 87) % 97 == 0; }
    hide Add;
  }

  lemma SmallDouble(inv: (int, int) -> int)
    requires inv(12, 97) == 89
    ensures Add(Curve(97, 2, 3, 5, At(3, 6), inv), At(3, 6), At(3, 6)) == At(80, 10)
  {
    assert (6 + 6) % 97 != 0 && (3 * 3 * 3 + 2) * 89 % 97 == 59;
    assert (59 * 59 - 3 - 3) % 97 == 80 && (59 * (3 - 80) - 6) % 97 == 10;
  }

  lemma SmallSum(inv: (int, int) -> int)
    requires inv(77, 97) == 63
    ensures Add(Curve(97, 2, 3, 5, At(3, 6), inv), At(3, 6), At(80, 10)) == At(80, 87)
  {
    assert (10 - 6) * 63 % 97 == 58;
    assert (58 * 58 - 3 - 80) % 97 == 80 && (58 * (3 - 80) - 6) % 97 == 87;
  }

  /** Numbers out of range are no signature. */
  lemma OutOfRange(c: Curve, pub: Point, e: nat, r: int, s: int)
    ensures r <= 0 || s <= 0 || r >= c.n || s >= c.n ==> !Accepts(c, pub, e, r, s)
  {
  }

  // ---- congruences

  ghost predicate Same(a: int, b: int, n: pos) {
    exists q: int :: a == b + n * q
  }

  lemma Residue(a: int, n: pos)
    ensures Same(a % n, a, n) && Same(a, a % n, n)
  {
    assert a == a % n + n * (a / n);
    assert a % n == a + n * (-(a / n));
  }

  lemma Chain(a: int, b: int, c: int, n: pos)
    requires Same(a, b, n) && Same(b, c, n)
    ensures Same(a, c, n)
  {
    var q :| a == b + n * q;
    var p :| b == c + n * p;
    assert a == c + n * (p + q);
  }

  lemma Multiplied(a: int, b: int, f: int, n: pos)
    requires Same(a, b, n)
    ensures Same(a * f, b * f, n)
  {
    var q :| a == b + n * q;
    assert a * f == b * f + n * (q * f) by {
      assert (b + n * q) * f == b * f + n * q * f;
    }
  }

  lemma Added(a: int, b: int, a': int, b': int, n: pos)
    requires Same(a, b, n) && Same(a', b', n)
    ensures Same(a + a', b + b', n)
  {
    var q :| a == b + n * q;
    var p :| a' == b' + n * p;
    assert a + a' == b + b' + n * (q + p);
  }

  lemma NoSmallMultiple(n: pos, q: int)
    ensures (q > 0 ==> n * q >= n) && (q < 0 ==> n * q <= 0 - n)
  {
  }

  lemma Unique(a: int, b: int, n: pos)
    requires Same(a, b, n) && 0 <= a < n && 0 <= b < n
    ensures a == b
  {
    var q :| a == b + n * q;
    NoSmallMultiple(n, q);
  }

  // ---- signing and verifying

  datatype Signature = Signature(r: int, s: int) | Again

  /** One round of signing with the random k: a signature, or another round. */
  function SignWith(c: Curve, d: nat, e: nat, k: nat): Signature {
    var pt := Times(c, k, c.g);
    var r := if pt.At? then pt.x % c.n else 0;
    var s := c.inv(k, c.n) * (e + r * d) % c.n;
    if r == 0 || s == 0 then Again else Signature(r, s)
  }

  /** The verifier's check: u g + v pub has r for its x. */
  predicate Accepts(c: Curve, pub: Point, e: nat, r: int, s: int) {
    && 0 < r < c.n && 0 < s < c.n
    && var w := c.inv(s, c.n);
      var pt := Add(c, Times(c, e * w % c.n, c.g), Times(c, r * w % c.n, pub));
      pt.At? && pt.x % c.n == r
  }

  /** _pure_sign; draws: the random numbers, each from 1 to n - 1. */
  method Sign(c: Curve, d: nat, e: nat, draws: seq<nat>) returns (sig: Signature)
    requires GroupLaw(c) && OrderIsN(c)
    requires forall k :: k in draws ==> 0 < k < c.n
    ensures if sig.Again? then forall k :: k in draws ==> SignWith(c, d, e, k).Again?
            else exists i :: 0 <= i < |draws| && sig == SignWith(c, d, e, draws[i])
                   && forall j :: 0 <= j < i ==> SignWith(c, d, e, draws[j]).Again?
  {
    hide GroupLaw, Add, OnCurve;
    var i := 0;
    while i < |draws|
      invariant 0 <= i <= |draws| && forall j :: 0 <= j < i ==> SignWith(c, d, e, draws[j]).Again?
    {
      var k := draws[i];
      assert k in draws;
      GHasOrderN(c);
      var pt := Mul(c, k, c.g);
      assert pt.At?;
      var r := pt.x % c.n;
      if r != 0 {
        var s := c.inv(k, c.n) * (e + r * d) % c.n;
        if s != 0 { return Signature(r, s); }
      }
      i := i + 1;
    }
    return Again;
  }

  /** _pure_verify */
  method Verify(c: Curve, pub: Point, e: nat, r: int, s: int) returns (ok: bool)
    requires GroupLaw(c) && OnCurve(c, pub)
    ensures ok == Accepts(c, pub, e, r, s)
  {
    if !(0 < r < c.n && 0 < s < c.n) { return false; }
    var w := c.inv(s, c.n);
    assert OnCurve(c, c.g);
    hide GroupLaw, Add, OnCurve, Times;
    var u, v := e * w % c.n, r * w % c.n;
    var a := Mul(c, u, c.g);
    var b := Mul(c, v, pub);
    var pt := Add(c, a, b);
    ok := pt.At? && pt.x % c.n == r;
  }

  /** The two factors bring back k: e w + r w d is k modulo n. */
  lemma FactorsGiveK(n: pos, d: nat, e: nat, k: nat, ki: int, r: int, s: int, w: int)
    requires n > 1 && k * ki % n == 1 && s * w % n == 1 && s == ki * (e + r * d) % n && 0 < k < n
    ensures (e * w % n + r * w % n * d) % n == k
  {
    hide *;
    var m := e + r * d;
    var sum := e * w % n + r * w % n * d;
    Reduced(e * w, r * w, d, n);
    Distributed(e, r, d, w);
    TimesInverse(n, m, k, ki, s, w);
    Chain(sum, m * w, k, n);
    ResidueIs(sum, k, n);
  }

  lemma Reduced(a: int, b: int, d: int, n: pos)
    ensures Same(a % n + b % n * d, a + b * d, n)
  {
    hide *;
    Residue(a, n);
    Residue(b, n);
    Multiplied(b % n, b, d, n);
    Added(a % n, a, b % n * d, b * d, n);
  }

  lemma Distributed(e: int, r: int, d: int, w: int)
    ensures e * w + r * w * d == (e + r * d) * w
  {
    assert r * w * d == r * d * w;
  }

  lemma ResidueIs(x: int, k: int, n: pos)
    requires Same(x, k, n) && 0 <= k < n
    ensures x % n == k
  {
    hide *;
    Residue(x, n);
    Chain(x % n, x, k, n);
    Unique(x % n, k, n);
  }

  lemma Rearranged(m: int, k: int, ki: int, s: int, w: int)
    ensures k * ki * (m * w) == ki * m * (k * w) && s * (k * w) == s * w * k
  {
    assert k * ki * (m * w) == ki * m * (k * w);
    assert s * (k * w) == s * w * k;
  }

  /** m w is k modulo n, as s is m / k and w is 1 / s. */
  lemma TimesInverse(n: pos, m: int, k: int, ki: int, s: int, w: int)
    requires k * ki % n == 1 && s * w % n == 1 && s == ki * m % n
    ensures Same(m * w, k, n)
  {
    Rearranged(m, k, ki, s, w);
    Residue(k * ki, n);
    Residue(ki * m, n);
    Residue(s * w, n);
    hide Same;
    Multiplied(1, k * ki, m * w, n);
    Multiplied(ki * m, s, k * w, n);
    Multiplied(s * w, 1, k, n);
    Chain(1 * (m * w), k * ki * (m * w), s * (k * w), n);
    Chain(1 * (m * w), s * (k * w), 1 * k, n);
    assert 1 * (m * w) == m * w && 1 * k == k;
  }

  /** What a signature is made of. */
  lemma SignatureParts(c: Curve, d: nat, e: nat, k: nat)
    requires OrderIsN(c) && Invertible(c) && 0 < k < c.n && SignWith(c, d, e, k).Signature?
    ensures var sig := SignWith(c, d, e, k);
      && Times(c, k, c.g).At? && sig.r == Times(c, k, c.g).x % c.n
      && sig.s == c.inv(k, c.n) * (e + sig.r * d) % c.n
      && 0 < sig.r < c.n && 0 < sig.s < c.n
      && c.n > 1 && k * c.inv(k, c.n) % c.n == 1 && sig.s * c.inv(sig.s, c.n) % c.n == 1
  {
    hide Times;
  }

  lemma AcceptsThat(c: Curve, pub: Point, e: nat, r: int, s: int, pt: Point)
    requires 0 < r < c.n && 0 < s < c.n && pt.At? && r == pt.x % c.n
    requires var w := c.inv(s, c.n); pt == Add(c, Times(c, e * w % c.n, c.g), Times(c, r * w % c.n, pub))
    ensures Accepts(c, pub, e, r, s)
  {
  }

  lemma SumOfMultiples(c: Curve, d: nat, u: nat, v: nat, k: nat)
    requires GroupLaw(c) && OrderIsN(c) && v * d >= 0 && (u + v * d) % c.n == k
    ensures Times(c, k, c.g) == Add(c, Times(c, u, c.g), Times(c, v, Times(c, d, c.g)))
  {
    hide *;
    GHasOrderN(c);
    TimesProduct(c, v, d, c.g);
    TimesSum(c, u, v * d, c.g);
    TimesModulo(c, u + v * d);
  }

  /** Whatever the private key, the digest and the random number: what is signed verifies. */
  lemma SignedVerifies(c: Curve, d: nat, e: nat, k: nat)
    requires GroupLaw(c) && OrderIsN(c) && Invertible(c)
    requires 0 < d < c.n && 0 < k < c.n && SignWith(c, d, e, k).Signature?
    ensures var sig := SignWith(c, d, e, k); Accepts(c, Times(c, d, c.g), e, sig.r, sig.s)
  {
    hide *;
    var sig := SignWith(c, d, e, k);
    SignatureParts(c, d, e, k);
    var w := c.inv(sig.s, c.n);
    var u, v := e * w % c.n, sig.r * w % c.n;
    FactorsGiveK(c.n, d, e, k, c.inv(k, c.n), sig.r, sig.s, w);
    Nonnegative(v, d);
    SumOfMultiples(c, d, u, v, k);
    AcceptsThat(c, Times(c, d, c.g), e, sig.r, sig.s, Times(c, k, c.g));
  }

  lemma Nonnegative(v: nat, d: nat)
    ensures v * d >= 0
  {
  }
}
