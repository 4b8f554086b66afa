/** Exact frame rates: reduction by the greatest common divisor, comparison by
  * cross-multiplication, and equivalence of video tuples. */
module Media {

  predicate Divides(d: nat, n: nat)
    requires d > 0
  {
    n % d == 0
  }

  /** The recursion behind the loop. */
  function Gcd(a: nat, b: nat): nat
    decreases b
  {
    if b == 0 then a else Gcd(b, a % b)
  }

  method GcdLoop(left: nat, right: nat) returns (d: nat)
    ensures d == Gcd(left, right)
  {
    var a, b := left, right;
    while b != 0
      invariant Gcd(left, right) == Gcd(a, b)
      decreases b
    {
      var remainder := a % b;
      a := b;
      b := remainder;
    }
    d := a;
  }

  lemma {:induction false} MultipleIsFar(t: int, d: nat)
    requires d > 0
    ensures t > 0 ==> t * d >= d
    ensures t < 0 ==> t * d + d <= 0
  {
    if t > 0 { assert (t - 1) * d >= 0; }
    if t < 0 { assert (-t - 1) * d >= 0; }
  }

  lemma {:induction false} ModAdd(k: nat, d: nat, r: nat)
    requires d > 0
    ensures (k * d + r) % d == r % d
  {
    var n := k * d + r;
    var t := n / d - k - r / d;
    assert n == (n / d) * d + n % d && r == (r / d) * d + r % d;
    assert t * d == (n / d) * d - k * d - (r / d) * d;
    MultipleIsFar(t, d);
  }

  lemma {:induction false} MultipleShift(q: nat, k: nat, d: nat, r: nat)
    requires d > 0
    ensures (q * (k * d) + r) % d == r % d
  {
    assert q * (k * d) == (q * k) * d;
    ModAdd(q * k, d, r);
  }

  lemma {:induction false} DivisionSteps(a: nat, b: nat, d: nat)
    requires b > 0 && d > 0
    ensures Divides(d, b) ==> (Divides(d, a) <==> Divides(d, a % b))
  {
    if Divides(d, b) {
      DivisionParts(a, b);
      DivisionParts(b, d);
      MultipleShift(a / b, b / d, d, a % b);
    }
  }

  lemma {:induction false} DivisionParts(a: nat, b: nat)
    requires b > 0
    ensures a == (a / b) * b + a % b
  {
  }

  lemma {:induction false} ProductsDiffer(p: int, q: int, k: nat)
    requires p != q && k > 0
    ensures p * k != q * k
  {
    MultipleIsFar(p - q, k);
    assert (p - q) * k == p * k - q * k;
  }

  /** The loop returns the greatest common divisor: a common divisor that every
    * common divisor divides. */
  lemma {:induction false} GcdIsGreatest(a: nat, b: nat)
    requires a > 0 || b > 0
    ensures Gcd(a, b) > 0 && Divides(Gcd(a, b), a) && Divides(Gcd(a, b), b)
    ensures forall d :: d > 0 && Divides(d, a) && Divides(d, b) ==> Divides(d, Gcd(a, b)) && d <= Gcd(a, b)
    decreases b
  {
    if b == 0 {
      forall d | d > 0 && Divides(d, a) ensures d <= a { assert a == (a / d) * d; }
    } else {
      GcdIsGreatest(b, a % b);
      DivisionSteps(a, b, Gcd(a, b));
      forall d | d > 0 && Divides(d, a) && Divides(d, b) ensures Divides(d, Gcd(a, b)) && d <= Gcd(a, b) {
        DivisionSteps(a, b, d);
      }
    }
  }

  // -------------------------------------------------------------- normal forms

  datatype Rational = Rational(numerator: nat, denominator: nat)

  function Normalize(r: Rational): Rational {
    if r.numerator == 0 || r.denominator == 0 then r
    else
      GcdIsGreatest(r.numerator, r.denominator);
      var d := Gcd(r.numerator, r.denominator);
      Rational(r.numerator / d, r.denominator / d)
  }

  datatype Ordering = Less | Equal | Greater

  function Compare(l: Rational, r: Rational): Ordering {
    var a, b := l.numerator * r.denominator, r.numerator * l.denominator;
    if a < b then Less else if a == b then Equal else Greater
  }

  lemma {:induction false} SignOfProduct(x: real, k: real)
    requires k > 0.0
    ensures (x > 0.0 <==> x * k > 0.0) && (x < 0.0 <==> x * k < 0.0)
  {
  }

  /** The comparison is that of the quotients. */
  lemma {:induction false} CompareExact(l: Rational, r: Rational)
    requires l.denominator > 0 && r.denominator > 0
    ensures var x := l.numerator as real / l.denominator as real;
            var y := r.numerator as real / r.denominator as real;
            Compare(l, r) == if x < y then Less else if x == y then Equal else Greater
  {
    var x := l.numerator as real / l.denominator as real;
    var y := r.numerator as real / r.denominator as real;
    var m, n := l.denominator as real, r.denominator as real;
    var a, b := l.numerator * r.denominator, r.numerator * l.denominator;
    assert a as real == (x * m) * n && b as real == (y * n) * m;
    assert m * n > 0.0;
    ProductOfDifference(x, y, m, n);
    SignOfProduct(x - y, m * n);
  }

  lemma {:induction false} ProductOfDifference(x: real, y: real, m: real, n: real)
    ensures (x * m) * n - (y * n) * m == (x - y) * (m * n)
  {
    assert (x * m) * n == x * (m * n);
    assert (y * n) * m == y * (m * n);
  }

  predicate Positive(r: Rational) { r.numerator > 0 && r.denominator > 0 }

  ghost predicate Coprime(a: nat, b: nat) {
    forall d :: d > 0 && Divides(d, a) && Divides(d, b) ==> d == 1
  }

  lemma {:induction false} DivisorTimes(n: nat, d: nat)
    requires d > 0 && Divides(d, n)
    ensures (n / d) * d == n
  {
  }

  lemma {:induction false} ScaledDivisor(e: nat, n: nat, d: nat)
    requires e > 0 && d > 0 && Divides(d, n) && Divides(e, n / d)
    ensures e * d > 0 && Divides(e * d, n)
  {
    var k := n / d / e;
    DivisorTimes(n, d);
    DivisorTimes(n / d, e);
    assert n == k * (e * d) by { assert (k * e) * d == k * (e * d); }
    ModAdd(k, e * d, 0);
  }

  /** A normal form has the same value and no common factor. */
  lemma {:induction false} NormalForm(r: Rational)
    requires Positive(r)
    ensures Positive(Normalize(r)) && Compare(Normalize(r), r).Equal?
    ensures Coprime(Normalize(r).numerator, Normalize(r).denominator)
  {
    var a, b := r.numerator, r.denominator;
    GcdIsGreatest(a, b);
    var d := Gcd(a, b);
    var x, y := a / d, b / d;
    DivisorTimes(a, d);
    DivisorTimes(b, d);
    assert x * (y * d) == (x * d) * y;
    forall e | e > 0 && Divides(e, x) && Divides(e, y) ensures e == 1 {
      ScaledDivisor(e, a, d);
      ScaledDivisor(e, b, d);
      assert e * d <= d;
      MultipleIsFar(e - 1, d);
      assert (e - 1) * d == e * d - d;
    }
  }

  /** Bezout's identity, by the same recursion. */
  lemma {:induction false} Bezout(a: nat, b: nat) returns (x: int, y: int)
    requires a > 0 || b > 0
    ensures x * a + y * b == Gcd(a, b)
    decreases b
  {
    if b == 0 {
      x, y := 1, 0;
    } else {
      var u, v := Bezout(b, a % b);
      DivisionParts(a, b);
      BezoutStep(u, v, a, b, a / b, a % b);
      x, y := v, u - (a / b) * v;
    }
  }

  lemma {:induction false} BezoutStep(u: int, v: int, a: int, b: int, q: int, r: int)
    requires a == q * b + r
    ensures v * a + (u - q * v) * b == u * b + v * r
  {
    assert v * a == v * (q * b) + v * r;
    assert (u - q * v) * b == u * b - (q * v) * b;
    assert v * (q * b) == (q * v) * b;
  }

  lemma {:induction false} Combination(x: int, y: int, a: int, b: int, c: int, k: int)
    requires x * a + y * b == 1 && b * c == k * a
    ensures c == (x * c + y * k) * a
  {
    calc {
      c;
      (x * a + y * b) * c;
      (x * a) * c + (y * b) * c;
      { assert (x * a) * c == (x * c) * a; assert (y * b) * c == y * (b * c); }
      (x * c) * a + y * (k * a);
      { assert y * (k * a) == (y * k) * a; }
      (x * c) * a + (y * k) * a;
      (x * c + y * k) * a;
    }
  }

  lemma {:induction false} MultipleDivides(q: int, a: nat, c: nat)
    requires a > 0 && c == q * a
    ensures Divides(a, c)
  {
    MultipleIsFar(q, a);
    ModAdd(q, a, 0);
  }

  lemma {:induction false} CoprimeDivides(a: nat, b: nat, c: nat)
    requires a > 0 && Coprime(a, b) && Divides(a, b * c)
    ensures Divides(a, c)
  {
    GcdIsGreatest(a, b);
    assert Gcd(a, b) == 1;
    var x, y := Bezout(a, b);
    var k := b * c / a;
    DivisorTimes(b * c, a);
    Combination(x, y, a, b, c, k);
    MultipleDivides(x * c + y * k, a, c);
  }

  lemma {:induction false} MutualDivisors(a: nat, b: nat)
    requires a > 0 && b > 0 && Divides(a, b) && Divides(b, a)
    ensures a == b
  {
    assert b == (b / a) * a && a == (a / b) * b;
  }

  lemma {:induction false} ProductDivides(a: nat, b: nat, n: nat)
    requires a > 0 && n == a * b
    ensures Divides(a, n)
  {
    assert n == b * a;
    ModAdd(b, a, 0);
  }

  /** Two reduced fractions of the same value are the same fraction. */
  lemma {:induction false} ReducedUnique(l: Rational, r: Rational)
    requires Positive(l) && Positive(r) && Coprime(l.numerator, l.denominator) && Coprime(r.numerator, r.denominator)
    requires Compare(l, r).Equal?
    ensures l == r
  {
    var a, b, c, d := l.numerator, l.denominator, r.numerator, r.denominator;
    CrossDivides(a, b, c, d);
    CrossDivides(c, d, a, b);
    MutualDivisors(a, c);
    SameFactor(a, b, d);
  }

  lemma {:induction false} CrossDivides(a: nat, b: nat, c: nat, d: nat)
    requires a > 0 && a * d == c * b && Coprime(a, b)
    ensures Divides(a, c)
  {
    ProductDivides(a, d, c * b);
    assert c * b == b * c;
    CoprimeDivides(a, b, c);
  }

  lemma {:induction false} SameFactor(a: nat, b: nat, d: nat)
    requires a > 0 && a * d == a * b
    ensures b == d
  {
    if b != d { ProductsDiffer(b, d, a); }
  }

  lemma {:induction false} CompareTransitive(a: Rational, b: Rational, c: Rational)
    requires Positive(b) && Compare(a, b).Equal? && Compare(b, c).Equal?
    ensures Compare(a, c).Equal?
  {
    var p := a.numerator * c.denominator;
    var q := c.numerator * a.denominator;
    assert (a.numerator * b.denominator) * c.denominator == (b.numerator * a.denominator) * c.denominator;
    assert (b.numerator * c.denominator) * a.denominator == (c.numerator * b.denominator) * a.denominator;
    assert p * b.denominator == (a.numerator * b.denominator) * c.denominator;
    assert q * b.denominator == (c.numerator * b.denominator) * a.denominator;
    assert (b.numerator * a.denominator) * c.denominator == (b.numerator * c.denominator) * a.denominator;
    if p != q { ProductsDiffer(p, q, b.denominator); }
  }

  /** Reduced rationals are a normal form: for positive rationals the normal forms
    * are equal exactly when the comparison says `Equal`. */
  lemma {:induction false} NormalFormExact(l: Rational, r: Rational)
    requires Positive(l) && Positive(r)
    ensures Normalize(l) == Normalize(r) <==> Compare(l, r).Equal?
    ensures Normalize(Normalize(l)) == Normalize(l)
  {
    var m, n := Normalize(l), Normalize(r);
    NormalForm(l);
    NormalForm(r);
    NormalForm(m);
    ReducedUnique(Normalize(m), m);
    if m == n {
      CompareTransitive(l, m, r);
    }
    if Compare(l, r).Equal? {
      CompareTransitive(m, l, r);
      CompareTransitive(m, r, n);
      ReducedUnique(m, n);
    }
  }

  /** With a zero part the comparison is not what the normal form says: 0/0 is
    * `Equal` to everything, and so relates different rates. */
  lemma {:induction false} ZeroOverZeroIsEqualToAll(l: Rational)
    ensures Compare(Rational(0, 0), l).Equal? && Compare(l, Rational(0, 0)).Equal?
    ensures Compare(Rational(30, 1), Rational(0, 0)).Equal? && Compare(Rational(0, 0), Rational(60, 1)).Equal?
            && !Compare(Rational(30, 1), Rational(60, 1)).Equal?
  {
  }

  /** The exact domain of the normal form: the two agree for a pair unless a zero
    * part makes both products zero and the fractions differ. */
  lemma {:induction false} NormalFormDomain(l: Rational, r: Rational)
    ensures (Normalize(l) == Normalize(r) <==> Compare(l, r).Equal?)
            <==> (l == r || !(l.numerator * r.denominator == 0 && r.numerator * l.denominator == 0))
  {
    if Positive(l) && Positive(r) {
      NormalFormExact(l, r);
      assert l.numerator * r.denominator > 0;
    } else if Positive(l) {
      NormalForm(l);
    } else if Positive(r) {
      NormalForm(r);
    }
  }

  // --------------------------------------------------------------- video tuples

  datatype VideoTuple = VideoTuple(fourcc: string, width: nat, height: nat, fps: Rational)

  function Upper(c: char): char {
    if 'a' <= c <= 'z' then 'A' + (c - 'a') else c
  }

  function Uppercase(s: string): (r: string)
    ensures |r| == |s| && forall i :: 0 <= i < |s| ==> r[i] == Upper(s[i])
  {
    seq(|s|, i requires 0 <= i < |s| => Upper(s[i]))
  }

  function Lower(c: char): char {
    if 'A' <= c <= 'Z' then 'a' + (c - 'A') else c
  }

  predicate EqualIgnoringCase(s: string, t: string) {
    |s| == |t| && forall i :: 0 <= i < |s| ==> Lower(s[i]) == Lower(t[i])
  }

  function Normalized(v: VideoTuple): VideoTuple {
    v.(fourcc := Uppercase(v.fourcc), fps := Normalize(v.fps))
  }

  predicate Equivalent(l: VideoTuple, r: VideoTuple) {
    EqualIgnoringCase(l.fourcc, r.fourcc) && l.width == r.width && l.height == r.height && Compare(l.fps, r.fps).Equal?
  }

  lemma {:induction false} CaseFolding(s: string, t: string)
    ensures EqualIgnoringCase(s, t) <==> Uppercase(s) == Uppercase(t)
  {
    if Uppercase(s) == Uppercase(t) {
      forall i | 0 <= i < |s| ensures Lower(s[i]) == Lower(t[i]) { assert Uppercase(s)[i] == Uppercase(t)[i]; }
    }
  }

  /** Equivalence of tuples with positive rates is equality of their normal forms,
    * hence reflexive, symmetric and transitive. */
  lemma {:induction false} EquivalenceIsNormalEquality(l: VideoTuple, r: VideoTuple)
    requires Positive(l.fps) && Positive(r.fps)
    ensures Equivalent(l, r) <==> Normalized(l) == Normalized(r)
  {
    CaseFolding(l.fourcc, r.fourcc);
    NormalFormExact(l.fps, r.fps);
  }

  lemma {:induction false} EquivalenceRelation(a: VideoTuple, b: VideoTuple, c: VideoTuple)
    requires Positive(a.fps) && Positive(b.fps) && Positive(c.fps)
    ensures Equivalent(a, a) && (Equivalent(a, b) ==> Equivalent(b, a))
            && (Equivalent(a, b) && Equivalent(b, c) ==> Equivalent(a, c))
  {
    EquivalenceIsNormalEquality(a, a);
    EquivalenceIsNormalEquality(a, b);
    EquivalenceIsNormalEquality(b, a);
    EquivalenceIsNormalEquality(b, c);
    EquivalenceIsNormalEquality(a, c);
  }
}
