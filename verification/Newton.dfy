/**
 cmake/MathFunctions/mysqrt.cxx over exact reals: ten Newton steps from a table entry or from
 the argument itself.  No lemma below assumes that a square root exists unless it names one.
 */
module Newton {

  /** What MakeTable prints: the roots of 0 to 9 with six significant digits, and a closing zero. */
  const SQRT_TABLE: seq<real> :=
    [0.0, 1.0, 1.41421, 1.73205, 2.0, 2.23607, 2.44949, 2.64575, 2.82843, 3.0, 0.0]

  function Start(x: real): real {
    if 1.0 <= x < 10.0 then SQRT_TABLE[x.Floor] else x
  }

  /**
   The values of the loop, pass by pass: positive, and each half the sum of its predecessor r and
   x/r, written without division.
   */
  ghost predicate IsRun(x: real, rs: seq<real>) {
    && (forall i :: 0 <= i < |rs| ==> rs[i] > 0.0)
    && (forall i :: 0 <= i < |rs| - 1 ==> Halves(x, rs[i], rs[i + 1]))
  }

  ghost predicate Halves(x: real, r: real, n: real) { 2.0 * (r * n) == r * r + x }

  /** The run of a call: its start is the table entry or x, its end the result. */
  ghost predicate IsCall(x: real, rs: seq<real>, result: real) {
    IsRun(x, rs) && |rs| == 11 && rs[0] == Start(x) && rs[10] == result
  }

  /** `rs` records the value of `result` before and after each pass; the 0.1 guard never fires. */
  method MySqrt(x: real) returns (result: real, ghost rs: seq<real>)
    ensures x <= 0.0 ==> result == 0.0
    ensures x > 0.0 ==> IsCall(x, rs, result)
  {
    rs := [];
    if x <= 0.0 {
      return 0.0, rs;
    }
    result := x;
    if x >= 1.0 && x < 10.0 {
      assert 1 <= x.Floor < 10;
      result := SQRT_TABLE[x.Floor];
    }
    rs := [result];
    for i := 0 to 10
      invariant IsRun(x, rs) && |rs| == i + 1 && rs[0] == Start(x) && rs[i] == result
    {
      result := Pass(x, result);
      ExtendRun(x, rs, result);
      rs := rs + [result];
    }
  }

  /** The body of the loop. */
  method Pass(x: real, r: real) returns (result: real)
    requires x > 0.0
    ensures result > 0.0
    ensures r > 0.0 ==> Halves(x, r, result)
  {
    result := r;
    if result <= 0.0 {
      result := 0.1;
    }
    StepHalves(x, result);
    var delta := x - (result * result);
    result := result + 0.5 * delta / result;
  }

  lemma ExtendRun(x: real, rs: seq<real>, n: real)
    requires IsRun(x, rs) && rs != [] && n > 0.0 && Halves(x, rs[|rs| - 1], n)
    ensures IsRun(x, rs + [n])
  {
    var longer := rs + [n];
    forall i | 0 <= i < |rs|
      ensures Halves(x, longer[i], longer[i + 1])
    {
      if i < |rs| - 1 {
        assert Halves(x, rs[i], rs[i + 1]);
      }
    }
  }

  /** On a positive value one pass halves the sum of r and x/r, and the value stays positive. */
  lemma StepHalves(x: real, r: real)
    requires x > 0.0 && r > 0.0
    ensures var n := r + 0.5 * (x - (r * r)) / r;
            n > 0.0 && 2.0 * (r * n) == r * r + x
  {
    var t := 0.5 * (x - (r * r)) / r;
    assert t * r == 0.5 * (x - r * r);
    assert r * (r + t) == r * r + t * r;
    PositiveFactor(r, r + t);
  }

  lemma PositiveFactor(a: real, b: real)
    requires a > 0.0 && a * b > 0.0
    ensures b > 0.0
  {}

  // ---------- the closed form ----------

  /** b to the power 2^k, by k squarings. */
  function Tower(b: real, k: nat): real {
    if k == 0 then b else Tower(b, k - 1) * Tower(b, k - 1)
  }

  /**
   With s a root of x, after k passes (r - s) / (r + s) is the 2^k-th power of what it was at the
   start, written without division.
   */
  lemma {:induction false} ClosedForm(x: real, s: real, rs: seq<real>, k: nat)
    requires IsRun(x, rs) && k < |rs| && x == s * s
    ensures (rs[k] - s) * Tower(rs[0] + s, k) == (rs[k] + s) * Tower(rs[0] - s, k)
  {
    if k > 0 {
      ClosedForm(x, s, rs, k - 1);
      SquareRatio(x, s, rs[k - 1], rs[k], Tower(rs[0] + s, k - 1), Tower(rs[0] - s, k - 1));
    }
  }

  lemma SquareRatio(x: real, s: real, r: real, n: real, a: real, b: real)
    requires r > 0.0 && x == s * s && Halves(x, r, n) && (r - s) * a == (r + s) * b
    ensures (n - s) * (a * a) == (n + s) * (b * b)
  {
    var c, d := (r - s) * a, (r + s) * b;
    assert 2.0 * r * (n - s) == (r - s) * (r - s);
    assert 2.0 * r * (n + s) == (r + s) * (r + s);
    assert c * c == ((r - s) * (r - s)) * (a * a) == 2.0 * r * ((n - s) * (a * a));
    assert d * d == ((r + s) * (r + s)) * (b * b) == 2.0 * r * ((n + s) * (b * b));
    CancelFactor(2.0 * r, (n - s) * (a * a), (n + s) * (b * b));
  }

  lemma CancelFactor(f: real, a: real, b: real)
    requires f != 0.0 && f * a == f * b
    ensures a == b
  {}

  lemma NonNegativeFactor(a: real, b: real)
    requires a > 0.0 && a * b >= 0.0
    ensures b >= 0.0
  {}

  lemma ScaleLe(a: real, b: real, f: real)
    requires a <= b && f >= 0.0
    ensures a * f <= b * f
  {}

  // ---------- from above, and never up again ----------

  /** The new residue is the square of the old one over 4r^2, so it is never negative. */
  lemma Residue(x: real, r: real, n: real)
    requires r > 0.0 && Halves(x, r, n)
    ensures 4.0 * (r * r) * (n * n - x) == (r * r - x) * (r * r - x)
    ensures n * n >= x
  {
    var w, e := r * n, r * r - x;
    assert 4.0 * (r * r) * (n * n) == 4.0 * (w * w) == (2.0 * w) * (2.0 * w);
    assert (r * r + x) * (r * r + x) - 4.0 * (r * r) * x == e * e;
    assert r * (r * (4.0 * (n * n - x))) == e * e >= 0.0;
    NonNegativeFactor(r, r * (4.0 * (n * n - x)));
    NonNegativeFactor(r, 4.0 * (n * n - x));
  }

  /** From the first pass on the value is an upper bound of the root and never increases. */
  lemma FromAboveNeverUp(x: real, rs: seq<real>, k: nat)
    requires IsRun(x, rs) && 0 < k < |rs|
    ensures rs[k] * rs[k] >= x
    ensures k + 1 < |rs| ==> rs[k + 1] <= rs[k]
  {
    Residue(x, rs[k - 1], rs[k]);
    if k + 1 < |rs| {
      NotUp(x, rs[k], rs[k + 1]);
    }
  }

  lemma NotUp(x: real, r: real, n: real)
    requires r > 0.0 && r * r >= x && Halves(x, r, n)
    ensures n <= r
  {
    assert r * (r - n) >= 0.0;
    NonNegativeFactor(r, r - n);
  }

  // ---------- starting from x itself ----------

  function Pow2(k: nat): real { if k == 0 then 1.0 else 2.0 * Pow2(k - 1) }

  lemma {:induction false} Pow2Positive(k: nat)
    ensures Pow2(k) > 0.0
  {
    if k > 0 { Pow2Positive(k - 1); }
  }

  lemma Pow2Ten()
    ensures Pow2(10) == 1024.0
  {
    assert Pow2(5) == 32.0;
    assert Pow2(8) == 256.0;
  }

  /** After k passes from x itself the residue is at least zero and at most ((x - 1) / 2^k)^2. */
  lemma {:induction false} ErrorFromX(x: real, rs: seq<real>, k: nat)
    requires IsRun(x, rs) && 0 < k < |rs| && rs[0] == x
    ensures Scaled(x, rs[k], Pow2(k)) && rs[k] * rs[k] >= x
  {
    if k == 1 {
      assert Pow2(1) == 2.0 * Pow2(0) == 2.0;
      FirstError(x, rs[1]);
    } else {
      ErrorFromX(x, rs, k - 1);
      Pow2Positive(k - 1);
      NextError(x, rs[k - 1], rs[k], Pow2(k - 1));
    }
  }

  /** The residue of r lies between 0 and ((x - 1) / p)^2. */
  ghost predicate Scaled(x: real, r: real, p: real) {
    0.0 <= (r * r - x) * (p * p) <= (x - 1.0) * (x - 1.0)
  }

  lemma FirstError(x: real, n: real)
    requires x > 0.0 && Halves(x, x, n)
    ensures Scaled(x, n, 2.0) && n * n >= x
  {
    Residue(x, x, n);
    CancelFactor(x, 2.0 * n, x + 1.0);
    assert 4.0 * (n * n) == (2.0 * n) * (2.0 * n) == (x + 1.0) * (x + 1.0);
  }

  lemma NextError(x: real, r: real, n: real, p: real)
    requires r > 0.0 && p > 0.0 && x > 0.0 && r * r >= x && Halves(x, r, n) && Scaled(x, r, p)
    ensures Scaled(x, n, 2.0 * p) && n * n >= x
  {
    Residue(x, r, n);
    ResidueQuarters(x, r, n);
    var e, q := n * n - x, p * p;
    assert q >= 0.0;
    ScaleLe(4.0 * e, r * r - x, q);
    ScaleLe(0.0, e, q);
    assert e * ((2.0 * p) * (2.0 * p)) == (4.0 * e) * q;
  }

  lemma ResidueQuarters(x: real, r: real, n: real)
    requires r > 0.0 && x > 0.0 && r * r >= x && Halves(x, r, n)
    ensures 4.0 * (n * n - x) <= r * r - x
  {
    Residue(x, r, n);
    var e, f, q := r * r - x, 4.0 * (n * n - x), r * r;
    assert q * f == e * e;
    ScaleLe(e, q, e);
    assert q * (e - f) >= 0.0;
    NonNegativeFactor(q, e - f);
  }

  /** Each pass at most halves the value. */
  lemma {:induction false} HalvesAtMost(x: real, rs: seq<real>, k: nat)
    requires IsRun(x, rs) && x > 0.0 && k < |rs|
    ensures rs[k] * Pow2(k) >= rs[0]
  {
    if k > 0 {
      var r, n := rs[k - 1], rs[k];
      HalvesAtMost(x, rs, k - 1);
      Pow2Positive(k - 1);
      assert r * (2.0 * n - r) >= 0.0;
      NonNegativeFactor(r, 2.0 * n - r);
      ScaleLe(r, 2.0 * n, Pow2(k - 1));
      assert n * (2.0 * Pow2(k - 1)) == (2.0 * n) * Pow2(k - 1);
    }
  }

  /** Outside the table the residue of the result lies between 0 and ((x - 1) / 1024)^2. */
  lemma ErrorOutsideTable(x: real, rs: seq<real>, result: real)
    requires (0.0 < x < 1.0 || x >= 10.0) && IsCall(x, rs, result)
    ensures 0.0 <= (result * result - x) * (1024.0 * 1024.0) <= (x - 1.0) * (x - 1.0)
  {
    ErrorFromX(x, rs, 10);
    Pow2Ten();
  }

  // ---------- how far from the root ----------

  lemma {:induction false} TowerPositive(b: real, k: nat)
    requires b > 0.0
    ensures Tower(b, k) > 0.0
  {
    if k > 0 {
      TowerPositive(b, k - 1);
      PositiveProduct(Tower(b, k - 1), Tower(b, k - 1), Tower(b, k));
    }
  }

  lemma PositiveProduct(a: real, b: real, c: real)
    requires a > 0.0 && b > 0.0 && c == a * b
    ensures c > 0.0
  {}

  lemma SquaresGrow(a: real, b: real)
    requires 0.0 <= a <= b
    ensures 0.0 <= a * a <= b * b
  {
    ScaleLe(a, b, a);
    ScaleLe(a, b, b);
  }

  lemma {:induction false} TowerProduct(a: real, b: real, c: real, k: nat)
    requires c == a * b
    ensures Tower(c, k) == Tower(a, k) * Tower(b, k)
  {
    if k > 0 {
      TowerProduct(a, b, c, k - 1);
      SquareOfProduct(Tower(a, k - 1), Tower(b, k - 1), Tower(c, k - 1));
    }
  }

  lemma SquareOfProduct(a: real, b: real, c: real)
    requires c == a * b
    ensures c * c == (a * a) * (b * b)
  {}

  lemma {:induction false} TowerGrows(a: real, b: real, k: nat)
    requires 0.0 <= a <= b
    ensures 0.0 <= Tower(a, k) <= Tower(b, k)
  {
    if k > 0 {
      TowerGrows(a, b, k - 1);
      SquaresGrow(Tower(a, k - 1), Tower(b, k - 1));
    }
  }

  /** With s the root of x, a start at x and k passes: what is left of the ratio is (s - 1)^(2^k) to (s + 1)^(2^k). */
  lemma RatioFromX(x: real, s: real, rs: seq<real>, k: nat)
    requires IsRun(x, rs) && k < |rs| && rs[0] == x == s * s && s > 0.0
    ensures (rs[k] - s) * Tower(s + 1.0, k) == (rs[k] + s) * Tower(s - 1.0, k)
  {
    hide Tower, IsRun;
    ClosedForm(x, s, rs, k);
    TowerProduct(s, s + 1.0, x + s, k);
    TowerProduct(s, s - 1.0, x - s, k);
    TowerPositive(s, k);
    TakeOut(Tower(s, k), rs[k] - s, Tower(s + 1.0, k), Tower(x + s, k), rs[k] + s, Tower(s - 1.0, k), Tower(x - s, k));
  }

  lemma TakeOut(f: real, a: real, b: real, fb: real, c: real, d: real, fd: real)
    requires f > 0.0 && fb == f * b && fd == f * d && a * fb == c * fd
    ensures a * b == c * d
  {
    assert f * (a * b) == a * fb && f * (c * d) == c * fd;
    CancelFactor(f, a * b, c * d);
  }

  /**
   Started from x, the value after k passes is c times the root or more if and only if
   (c + 1) (s - 1)^(2^k) >= (c - 1) (s + 1)^(2^k), with s the root: a condition on the argument alone.
   */
  lemma FarFromRootIff(x: real, s: real, rs: seq<real>, k: nat, c: real)
    requires IsRun(x, rs) && k < |rs| && rs[0] == x == s * s && s > 0.0
    ensures rs[k] >= c * s <==> (c + 1.0) * Tower(s - 1.0, k) >= (c - 1.0) * Tower(s + 1.0, k)
  {
    RatioFromX(x, s, rs, k);
    TowerPositive(s + 1.0, k);
    SameSign(rs[k], s, c, Tower(s + 1.0, k), Tower(s - 1.0, k));
  }

  lemma SameSign(r: real, s: real, c: real, a: real, b: real)
    requires r > 0.0 && s > 0.0 && a > 0.0 && (r - s) * a == (r + s) * b
    ensures r >= c * s <==> (c + 1.0) * b >= (c - 1.0) * a
  {
    var d, e := r - c * s, (c + 1.0) * b - (c - 1.0) * a;
    assert 2.0 * d == (c + 1.0) * (r - s) - (c - 1.0) * (r + s);
    assert (2.0 * d) * a == (c + 1.0) * ((r - s) * a) - (c - 1.0) * ((r + s) * a);
    assert (r + s) * e == (c + 1.0) * ((r + s) * b) - (c - 1.0) * ((r + s) * a);
    assert (2.0 * a) * d == (r + s) * e;
    if d >= 0.0 {
      ScaleLe(0.0, d, 2.0 * a);
      NonNegativeFactor(r + s, e);
    }
    if e >= 0.0 {
      ScaleLe(0.0, e, r + s);
      NonNegativeFactor(2.0 * a, d);
    }
  }

  /** From 1 on, whatever is missed by a factor c stays missed by it for every larger argument: there is one threshold. */
  lemma FarStaysFar(s: real, s': real, k: nat, c: real)
    requires 1.0 <= s <= s' && c >= 1.0 && (c + 1.0) * Tower(s - 1.0, k) >= (c - 1.0) * Tower(s + 1.0, k)
    ensures (c + 1.0) * Tower(s' - 1.0, k) >= (c - 1.0) * Tower(s' + 1.0, k)
  {
    var p, q := (s - 1.0) * (s' + 1.0), (s' - 1.0) * (s + 1.0);
    assert q - p == 2.0 * (s' - s);
    ScaleLe(0.0, s - 1.0, s' + 1.0);
    TowerGrows(p, q, k);
    TowerProduct(s - 1.0, s' + 1.0, p, k);
    TowerProduct(s' - 1.0, s + 1.0, q, k);
    TowerPositive(s + 1.0, k);
    TowerPositive(s' + 1.0, k);
    CrossOver(c + 1.0, c - 1.0, Tower(s - 1.0, k), Tower(s + 1.0, k), Tower(s' - 1.0, k), Tower(s' + 1.0, k));
  }

  /** ... and below 1 for every smaller argument: one threshold on that side, too. */
  lemma FarStaysFarBelow(s: real, s': real, k: nat, c: real)
    requires 0.0 < s' <= s <= 1.0 && c >= 1.0 && k > 0
    requires (c + 1.0) * Tower(s - 1.0, k) >= (c - 1.0) * Tower(s + 1.0, k)
    ensures (c + 1.0) * Tower(s' - 1.0, k) >= (c - 1.0) * Tower(s' + 1.0, k)
  {
    var p, q := (1.0 - s) * (s' + 1.0), (1.0 - s') * (s + 1.0);
    assert q - p == 2.0 * (s - s');
    ScaleLe(0.0, 1.0 - s, s' + 1.0);
    TowerGrows(p, q, k);
    TowerProduct(1.0 - s, s' + 1.0, p, k);
    TowerProduct(1.0 - s', s + 1.0, q, k);
    TowerEven(s - 1.0, 1.0 - s, k);
    TowerEven(s' - 1.0, 1.0 - s', k);
    TowerPositive(s + 1.0, k);
    TowerPositive(s' + 1.0, k);
    CrossOver(c + 1.0, c - 1.0, Tower(1.0 - s, k), Tower(s + 1.0, k), Tower(1.0 - s', k), Tower(s' + 1.0, k));
  }

  lemma {:induction false} TowerEven(a: real, b: real, k: nat)
    requires b == -a && k > 0
    ensures Tower(a, k) == Tower(b, k)
  {
    if k == 1 {
      assert Tower(a, 0) == a && Tower(b, 0) == b;
      SameSquare(a, b);
    } else {
      TowerEven(a, b, k - 1);
    }
  }

  lemma SameSquare(a: real, b: real)
    requires b == -a
    ensures a * a == b * b
  {}

  lemma CrossOver(p: real, q: real, a: real, b: real, a': real, b': real)
    requires p >= 0.0 && b > 0.0 && b' > 0.0 && p * a >= q * b && a * b' <= a' * b
    ensures p * a' >= q * b'
  {
    ScaleLe(q * b, p * a, b');
    ScaleLe(a * b', a' * b, p);
    assert b * (p * a' - q * b') == p * (a' * b) - (q * b) * b';
    assert (p * a) * b' == (a * b') * p;
    NonNegativeFactor(b, p * a' - q * b');
  }

  /** The same of a call outside the table. */
  lemma CallFarFromRootIff(x: real, s: real, rs: seq<real>, result: real, c: real)
    requires (0.0 < x < 1.0 || x >= 10.0) && IsCall(x, rs, result) && x == s * s && s > 0.0
    ensures result >= c * s <==> (c + 1.0) * Tower(s - 1.0, 10) >= (c - 1.0) * Tower(s + 1.0, 10)
  {
    FarFromRootIff(x, s, rs, 10, c);
  }

  /** Ten passes are too few for large arguments: from 2^22 on the result is at least twice the root. */
  lemma LargeArgumentsMissed(x: real, rs: seq<real>, result: real)
    requires x >= 4194304.0 && IsCall(x, rs, result)
    ensures result * result >= 4.0 * x
  {
    HalvesAtMost(x, rs, 10);
    Pow2Ten();
    AtLeastTwice(x, result);
  }

  lemma AtLeastTwice(x: real, r: real)
    requires r * 1024.0 >= x >= 4194304.0
    ensures r * r >= 4.0 * x
  {
    assert r >= 4096.0;
    ScaleLe(4096.0, r, r);
  }

  /** ... and for small ones: up to 2^-22 the result is at least twice the root. */
  lemma SmallArgumentsMissed(x: real, rs: seq<real>, result: real)
    requires 0.0 < x <= 1.0 / 4194304.0 && IsCall(x, rs, result)
    ensures result * result >= 4.0 * x
  {
    AtLeastScaled(x, rs, 10);
    Pow2Ten();
    assert result * 1024.0 >= 1.0;
    SquareOfInverse(result, x);
  }

  lemma SquareOfInverse(r: real, x: real)
    requires r * 1024.0 >= 1.0 && x * 4194304.0 <= 1.0
    ensures r * r >= 4.0 * x
  {
    ScaleLe(1.0, r * 1024.0, r * 1024.0);
    assert (r * 1024.0) * (r * 1024.0) == (r * r) * 1048576.0;
  }

  /** Between them, outside the table, it is less than twice the root. */
  lemma MediumArgumentsMet(x: real, rs: seq<real>, result: real)
    requires IsCall(x, rs, result) && (10.0 <= x <= 3145728.0 || 1.0 / 3145728.0 <= x < 1.0)
    ensures x <= result * result < 4.0 * x
  {
    ErrorOutsideTable(x, rs, result);
    BelowThrice(x, x * x, (x - 1.0) * (x - 1.0), result * result - x);
  }

  lemma BelowThrice(x: real, q: real, w: real, e: real)
    requires 10.0 <= x <= 3145728.0 || 1.0 / 3145728.0 <= x < 1.0
    requires q == x * x && w == (x - 1.0) * (x - 1.0) && 0.0 <= e * (1024.0 * 1024.0) <= w
    ensures 0.0 <= e < 3.0 * x
  {
    if x >= 10.0 {
      ScaledLe(x, 3145728.0, x, q);
      LinearAbove(x, q, w, e);
    } else {
      ScaledLe(x, 1.0, x, q);
      LinearBelow(x, q, w, e);
    }
  }

  lemma ScaledLe(a: real, b: real, f: real, p: real)
    requires a <= b && f >= 0.0 && p == a * f
    ensures p <= b * f
  {}

  lemma LinearAbove(x: real, q: real, w: real, e: real)
    requires x >= 10.0 && q <= 3145728.0 * x && w == q - 2.0 * x + 1.0 && 0.0 <= e * (1024.0 * 1024.0) <= w
    ensures 0.0 <= e < 3.0 * x
  {}

  lemma LinearBelow(x: real, q: real, w: real, e: real)
    requires 1.0 / 3145728.0 <= x && q <= x && w == q - 2.0 * x + 1.0 && 0.0 <= e * (1024.0 * 1024.0) <= w
    ensures 0.0 <= e < 3.0 * x
  {}

  /** Each pass at most halves the value, also counted from 1 where the start is smaller. */
  lemma {:induction false} AtLeastScaled(x: real, rs: seq<real>, k: nat)
    requires IsRun(x, rs) && 0.0 < x < 1.0 && 0 < k < |rs| && rs[0] == x
    ensures rs[k] * Pow2(k) >= 1.0
  {
    var r, n := rs[k - 1], rs[k];
    if k == 1 {
      CancelFactor(x, 2.0 * n, x + 1.0);
      assert Pow2(1) == 2.0 * Pow2(0) == 2.0;
    } else {
      AtLeastScaled(x, rs, k - 1);
      Pow2Positive(k - 1);
      assert r * (2.0 * n - r) >= 0.0;
      NonNegativeFactor(r, 2.0 * n - r);
      ScaleLe(r, 2.0 * n, Pow2(k - 1));
      assert n * (2.0 * Pow2(k - 1)) == (2.0 * n) * Pow2(k - 1);
    }
  }

  // ---------- starting from the table ----------

  /** |r^2 - x| (1 + t^2) <= 2 t (r^2 + x): how far r is from the root, on the scale of t. */
  ghost predicate Within(x: real, r: real, t: real) { WithinScale(r * r - x, r * r + x, t) }

  ghost predicate WithinScale(e: real, s: real, t: real) { -(2.0 * t * s) <= e * (1.0 + t * t) <= 2.0 * t * s }

  ghost predicate SquaredScale(e: real, s: real, u: real) { (e * e) * (1.0 + u * u) <= 2.0 * u * (2.0 * (s * s) - e * e) }

  /** Each pass squares the scale. */
  lemma WithinSquares(x: real, r: real, n: real, t: real)
    requires x > 0.0 && r > 0.0 && t >= 0.0 && Halves(x, r, n) && Within(x, r, t)
    ensures Within(x, n, t * t)
  {
    hide WithinScale, SquaredScale;
    Bound(r * r - x, r * r + x, t);
    FromBound(x, r, n, r * r - x, r * r + x, t * t);
  }

  lemma FromBound(x: real, r: real, n: real, e: real, s: real, u: real)
    requires r > 0.0 && Halves(x, r, n) && e == r * r - x && s == r * r + x
    requires SquaredScale(e, s, u)
    ensures Within(x, n, u)
  {
    hide WithinScale, SquaredScale;
    var f, g := NewBound(x, r, n, e, s, u);
  }

  lemma NewBound(x: real, r: real, n: real, e: real, s: real, u: real) returns (f: real, g: real)
    requires r > 0.0 && Halves(x, r, n) && e == r * r - x && s == r * r + x
    requires SquaredScale(e, s, u)
    ensures f == n * n - x && g == n * n + x && WithinScale(f, g, u)
  {
    var q := r * r;
    f, g := n * n - x, n * n + x;
    NewValues(x, r, n, q, f);
    assert e == q - x && s == q + x && g == f + 2.0 * x;
    Cleared(r, q, e, s, f, g, u);
  }

  lemma NewValues(x: real, r: real, n: real, q: real, f: real)
    requires r > 0.0 && Halves(x, r, n) && q == r * r && f == n * n - x
    ensures f >= 0.0 && 4.0 * q * f == (q - x) * (q - x)
    ensures 4.0 * q * (f + 2.0 * x) == 2.0 * ((q + x) * (q + x)) - (q - x) * (q - x)
  {
    Residue(x, r, n);
    SumOfNew(x, q, f);
  }

  /** The bound on the old value, squared. */
  lemma Bound(e: real, s: real, t: real)
    requires WithinScale(e, s, t)
    ensures SquaredScale(e, s, t * t)
  {
    SquareBound(e * (1.0 + t * t), 2.0 * t * s);
    Expand(e, s, t);
  }

  lemma Expand(e: real, s: real, t: real)
    requires (e * (1.0 + t * t)) * (e * (1.0 + t * t)) <= (2.0 * t * s) * (2.0 * t * s)
    ensures (e * e) * (1.0 + (t * t) * (t * t)) <= 2.0 * (t * t) * (2.0 * (s * s) - e * e)
  {
    var u := t * t;
    assert (2.0 * t * s) * (2.0 * t * s) == 4.0 * u * (s * s);
    assert (e * (1.0 + u)) * (e * (1.0 + u)) == (e * e) * (1.0 + u * u) + 2.0 * u * (e * e);
  }

  lemma SumOfNew(x: real, q: real, f: real)
    requires 4.0 * q * f == (q - x) * (q - x)
    ensures 4.0 * q * (f + 2.0 * x) == 2.0 * ((q + x) * (q + x)) - (q - x) * (q - x)
  {
    assert (q + x) * (q + x) - (q - x) * (q - x) == 4.0 * (q * x);
  }

  /** The factor 4q of both sides is cancelled. */
  lemma Cleared(r: real, q: real, e: real, s: real, f: real, g: real, u: real)
    requires r > 0.0 && q == r * r && f >= 0.0
    requires 4.0 * q * f == e * e && 4.0 * q * g == 2.0 * (s * s) - e * e
    requires (e * e) * (1.0 + u * u) <= 2.0 * u * (2.0 * (s * s) - e * e)
    ensures -(2.0 * u * g) <= f * (1.0 + u * u) <= 2.0 * u * g
  {
    var a, b := f * (1.0 + u * u), 2.0 * u * g;
    assert 4.0 * (q * a) == (4.0 * q * f) * (1.0 + u * u);
    assert 4.0 * (q * b) == 2.0 * u * (4.0 * q * g);
    LessByFactor(r, q, a, b);
    assert u * u >= 0.0;
    ScaleLe(0.0, f, 1.0 + u * u);
  }

  lemma SquareBound(a: real, b: real)
    requires -b <= a <= b
    ensures a * a <= b * b
  {
    ScaleLe(a, b, b - a);
    assert (b - a) * (b + a) >= 0.0;
  }

  lemma LessByFactor(r: real, q: real, a: real, b: real)
    requires r > 0.0 && q == r * r && q * a <= q * b
    ensures a <= b
  {
    assert r * (r * (b - a)) == q * b - q * a;
    NonNegativeFactor(r, r * (b - a));
    NonNegativeFactor(r, b - a);
  }

  /** Each number is the square of the one before. */
  ghost predicate Squares(ts: seq<real>) { forall i :: 0 < i < |ts| ==> ts[i] == ts[i - 1] * ts[i - 1] }

  lemma {:induction false} WithinSquared(x: real, rs: seq<real>, ts: seq<real>, k: nat)
    requires IsRun(x, rs) && x > 0.0 && k < |rs| == |ts| && Squares(ts) && 0.0 <= ts[0] <= 0.2 && Within(x, rs[0], ts[0])
    ensures Within(x, rs[k], ts[k]) && 0.0 <= ts[k] <= 0.2
  {
    hide Within, Halves;
    if k > 0 {
      WithinSquared(x, rs, ts, k - 1);
      assert Halves(x, rs[k - 1], rs[k]) && ts[k] == ts[k - 1] * ts[k - 1];
      WithinNext(x, rs[k - 1], rs[k], ts[k - 1], ts[k]);
    }
  }

  lemma WithinNext(x: real, r: real, n: real, t: real, u: real)
    requires x > 0.0 && r > 0.0 && 0.0 <= t <= 0.2 && Halves(x, r, n) && Within(x, r, t) && u == t * t
    ensures Within(x, n, u) && 0.0 <= u <= 0.2
  {
    WithinSquares(x, r, n, t);
    SmallSquare(t);
  }

  /** The table holds the roots of 0 to 9, rounded to five decimals, and a closing zero. */
  lemma TableIsRounded(i: nat)
    requires i < 10
    ensures |SQRT_TABLE| == 11 && SQRT_TABLE[10] == 0.0
    ensures var r := SQRT_TABLE[i];
            && (r * 100000.0).Floor as real == r * 100000.0
            && if i == 0 then r == 0.0
               else r > 0.0 && (r - 0.000005) * (r - 0.000005) <= i as real <= (r + 0.000005) * (r + 0.000005)
  {
    if i == 0 {} else if i == 1 {} else if i == 2 {} else if i == 3 {} else if i == 4 {} else if i == 5 {}
    else if i == 6 {} else if i == 7 {} else if i == 8 {} else { assert i == 9; }
  }

  /** Every table entry is within a scale of 1/5 of the root of every argument it serves. */
  lemma TableWithin(x: real)
    requires 1.0 <= x < 10.0
    ensures Within(x, Start(x), 0.2)
  {
    var i := x.Floor;
    assert 1 <= i < 10 && i as real <= x < (i + 1) as real;
    if i == 1 {} else if i == 2 {} else if i == 3 {} else if i == 4 {} else if i == 5 {}
    else if i == 6 {} else if i == 7 {} else if i == 8 {} else { assert i == 9; }
  }

  lemma SmallSquare(a: real)
    requires 0.0 <= a <= 0.2
    ensures 0.0 <= a * a <= 0.2
  {
    ScaleLe(a, 0.2, a);
    assert 0.2 * a <= 0.04;
    assert a * a <= 0.2 * a;
  }

  ghost predicate SmallResidue(x: real, r: real, bound: real) { 0.0 <= r * r - x <= bound }

  /** For arguments served by the table the residue after k passes is at most 63 / 5^(2^k). */
  lemma ErrorFromTable(x: real, rs: seq<real>, ts: seq<real>, k: nat)
    requires 1.0 <= x < 10.0 && IsRun(x, rs) && rs != [] && rs[0] == Start(x)
    requires 0 < k < |rs| == |ts| && Squares(ts) && ts[0] == 0.2
    ensures SmallResidue(x, rs[k], 63.0 * ts[k])
  {
    TableWithin(x);
    WithinSquared(x, rs, ts, k);
    FromAboveNeverUp(x, rs, k);
    ScaleToResidue(x, rs[k], ts[k]);
  }

  /** ... so the error of a result served by the table is at most 63 / 5^1024. */
  lemma ErrorOfTableResult(x: real, rs: seq<real>, result: real)
    requires 1.0 <= x < 10.0 && IsCall(x, rs, result)
    ensures 0.0 <= result * result - x <= 63.0 * Tower(0.2, |rs| - 1)
  {
    var ts := TowersOf(0.2, |rs|);
    ErrorFromTable(x, rs, ts, |rs| - 1);
  }

  function TowersOf(b: real, n: nat): (ts: seq<real>)
    ensures |ts| == n && Squares(ts) && (n > 0 ==> ts[0] == b)
    ensures forall i :: 0 <= i < n ==> ts[i] == Tower(b, i)
  {
    seq(n, i requires 0 <= i => Tower(b, i))
  }

  lemma ScaleToResidue(x: real, r: real, t: real)
    requires 0.0 <= t <= 0.2 && 0.0 < x < 10.0 && r * r >= x && Within(x, r, t)
    ensures SmallResidue(x, r, 63.0 * t)
  {
    var e := r * r - x;
    Shrink(e, x, t);
    Enough(e, (1.0 - t) * (1.0 - t), x, t);
  }

  lemma Shrink(e: real, x: real, t: real)
    requires 0.0 <= t <= 0.2 && e * (1.0 + t * t) <= 2.0 * t * (e + 2.0 * x)
    ensures e * ((1.0 - t) * (1.0 - t)) <= 4.0 * t * x
    ensures (1.0 - t) * (1.0 - t) >= 0.64
  {
    ScaleLe(0.8, 1.0 - t, 0.8);
    ScaleLe(0.8, 1.0 - t, 1.0 - t);
  }

  lemma Enough(e: real, d: real, x: real, t: real)
    requires e >= 0.0 && d >= 0.64 && 0.0 < x < 10.0 && t >= 0.0 && e * d <= 4.0 * t * x
    ensures e <= 63.0 * t
  {
    ScaleLe(0.64, d, e);
    ScaleLe(x, 10.0, 4.0 * t);
  }

  // ---------- exact results ----------

  /** A pass reaches the root exactly if and only if it starts there. */
  lemma {:induction false} ExactIff(x: real, rs: seq<real>, k: nat)
    requires IsRun(x, rs) && k < |rs|
    ensures rs[k] * rs[k] == x <==> rs[0] * rs[0] == x
  {
    if k > 0 {
      ExactIff(x, rs, k - 1);
      ExactStep(x, rs[k - 1], rs[k]);
    }
  }

  lemma ExactStep(x: real, r: real, n: real)
    requires r > 0.0 && Halves(x, r, n)
    ensures n * n == x <==> r * r == x
  {
    Residue(x, r, n);
    var e, f := r * r - x, n * n - x;
    assert r * (r * (4.0 * f)) == e * e;
    ZeroProduct(r, r * (4.0 * f));
    ZeroProduct(r, 4.0 * f);
    ZeroProduct(e, e);
  }

  lemma ZeroProduct(a: real, b: real)
    ensures a * b == 0.0 <==> a == 0.0 || b == 0.0
  {}

  /** The arguments whose root is computed exactly: 1, 4, 9 and the squares of three rounded-up table entries. */
  lemma ExactArguments(x: real, rs: seq<real>, result: real)
    requires x > 0.0 && IsCall(x, rs, result)
    ensures result * result == x
       <==> x in {1.0, 4.0, 9.0, 2.23607 * 2.23607, 2.44949 * 2.44949, 2.82843 * 2.82843}
  {
    ExactIff(x, rs, 10);
    ExactStart(x);
  }

  lemma ExactStart(x: real)
    requires x > 0.0
    ensures Start(x) * Start(x) == x
       <==> x in {1.0, 4.0, 9.0, 2.23607 * 2.23607, 2.44949 * 2.44949, 2.82843 * 2.82843}
  {
    if 1.0 <= x < 10.0 {
      var i := x.Floor;
      assert 1 <= i < 10 && i as real <= x < (i + 1) as real;
      if i == 1 {} else if i == 2 {} else if i == 3 {} else if i == 4 {} else if i == 5 {}
      else if i == 6 {} else if i == 7 {} else if i == 8 {} else { assert i == 9; }
    } else {
      ZeroProduct(x, x - 1.0);
      assert x * x - x == x * (x - 1.0);
    }
  }
}
