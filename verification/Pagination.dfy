/** Pages of a list: parsing of the request, 64-bit offsets and the floating-point page count. */
module Pagination {
  import opened Common
  import opened Arithmetic

  const DEFAULT_LIMIT := 10
  const MIN_LIMIT := 1
  const MAX_LIMIT := 500
  const DEFAULT_PAGE := 1

  const TWO_52 := 0x10_0000_0000_0000
  const TWO_53 := 0x20_0000_0000_0000
  const TWO_63 := 0x8000_0000_0000_0000
  const TWO_64 := 0x1_0000_0000_0000_0000

  // ---- 64-bit integers ----

  predicate IsInt64(n: int) {
    -TWO_63 <= n < TWO_63
  }

  /** The value that a 64-bit register holds for an integer. */
  function Wrap(n: int): (r: int)
    ensures IsInt64(r) && (IsInt64(n) ==> r == n)
  {
    (n + TWO_63) % TWO_64 - TWO_63
  }

  // ---- The request ----

  predicate IsDigit(c: char) {
    '0' <= c <= '9'
  }

  function Digits(s: string): nat
    requires forall c :: c in s ==> IsDigit(c)
  {
    assert s != [] ==> IsDigit(s[|s|-1]);
    if s == [] then 0 else Digits(s[..|s|-1]) * 10 + (s[|s|-1] as int - '0' as int)
  }

  /** `strconv.ParseUint(s, 10, 64)`. */
  function ParseUint(s: string): (r: Option<nat>)
    ensures r.Some? ==> r.value < TWO_64
  {
    if s == [] || exists c :: c in s && !IsDigit(c) then None
    else if Digits(s) < TWO_64 then Some(Digits(s)) else None
  }

  /** The usual decimal text of a number. */
  function Decimal(n: nat): (s: string)
    ensures s != [] && forall c :: c in s ==> IsDigit(c)
  {
    var last := [(n % 10 + '0' as int) as char];
    if n < 10 then last else Decimal(n / 10) + last
  }

  lemma {:induction false} DigitsDecimal(n: nat)
    ensures Digits(Decimal(n)) == n
  {
    var s := Decimal(n);
    if n >= 10 {
      DigitsDecimal(n / 10);
      assert s[..|s|-1] == Decimal(n / 10);
    } else {
      assert s[..|s|-1] == [];
    }
  }

  /** Parsing undoes writing. */
  lemma ParseDecimal(n: nat)
    ensures ParseUint(Decimal(n)) == if n < TWO_64 then Some(n) else None
  {
    DigitsDecimal(n);
  }

  /** Every limit is between 1 and 500, whatever was asked. */
  function LimitParser(limit: string): (r: int)
    ensures MIN_LIMIT <= r <= MAX_LIMIT
    ensures ParseUint(limit).Some? && MIN_LIMIT <= ParseUint(limit).value <= MAX_LIMIT ==> r == ParseUint(limit).value
  {
    match ParseUint(limit)
    case None => DEFAULT_LIMIT
    case Some(l) =>
      var lm := Wrap(l);
      if lm >= MIN_LIMIT && lm <= MAX_LIMIT then lm else DEFAULT_LIMIT
  }

  /** A page number can wrap to a negative one. */
  function PageParser(page: string): (r: int)
    ensures IsInt64(r)
    ensures r < 0 <==> ParseUint(page).Some? && ParseUint(page).value >= TWO_63
  {
    match ParseUint(page)
    case None => DEFAULT_PAGE
    case Some(p) => Wrap(p)
  }

  // ---- The page count, in floating point ----

  function Pow2(k: nat): (r: nat)
    ensures r > 0
  {
    if k == 0 then 1 else 2 * Pow2(k - 1)
  }

  /** The nearest integer to `n / d`, the even one of two. */
  function NearestEven(n: nat, d: nat): (m: nat)
    requires d > 0
    ensures 2 * n - d <= 2 * (m * d) <= 2 * n + d
  {
    RoundDown(n, d);
    RoundUp(n, d);
    var q: int, r: int := n / d, n % d;
    if 2 * r < d || (2 * r == d && q % 2 == 0) then q else q + 1
  }

  lemma RoundDown(n: nat, d: nat)
    requires d > 0
    ensures n / d >= 0 && (n / d) * d - n == -(n % d)
  {
    assert n == d * (n / d) + n % d;
    if n / d < 0 {
      ScaledApart(n / d, d);
    }
  }

  lemma RoundUp(n: nat, d: nat)
    requires d > 0
    ensures (n / d + 1) * d - n == d - n % d
  {
    RoundDown(n, d);
    MulSucc(n / d, d);
  }

  /** How far the quotient is shifted left to have 53 significant bits. */
  function Scale(a: nat, b: nat): (s: nat)
    requires 0 < a < TWO_53 * b
    ensures TWO_52 * b <= a * Pow2(s) < TWO_53 * b
    decreases TWO_52 * b - a
  {
    if TWO_52 * b <= a then 0
    else
      var s := Scale(2 * a, b);
      assert 2 * a * Pow2(s) == a * Pow2(s + 1);
      s + 1
  }

  /** A number with a 53-bit significand: `m / 2^s`. */
  datatype Float = Float(m: nat, s: nat)

  /** The double nearest to `a / b`, for operands that are doubles themselves: round to
      nearest, ties to even (section 4.3.1 of IEEE 754-2008). */
  function Quotient(a: nat, b: nat): (f: Float)
    requires 0 < a < TWO_53 * b
    ensures TWO_52 * b <= a * Pow2(f.s)
    ensures 2 * (a * Pow2(f.s)) - b <= 2 * (f.m * b) <= 2 * (a * Pow2(f.s)) + b
  {
    var s := Scale(a, b);
    Float(NearestEven(a * Pow2(s), b), s)
  }

  function CeilDiv(a: nat, b: nat): nat
    requires b > 0
  {
    (a + b - 1) / b
  }

  /** `math.Ceil`. */
  function Ceil(f: Float): nat {
    CeilDiv(f.m, Pow2(f.s))
  }

  lemma CeilDivBounds(a: nat, b: nat)
    requires b > 0
    ensures b * CeilDiv(a, b) - b < a <= b * CeilDiv(a, b)
  {
    DivBounds(a + b - 1, b);
  }

  lemma CeilDivIs(a: nat, b: nat, c: nat)
    requires b > 0 && b * c - b < a <= b * c
    ensures CeilDiv(a, b) == c
  {
    DivIs(a + b - 1, b, c);
  }

  /** Rounding the quotient to a double never changes its ceiling, below 2^53. */
  lemma CeilingIsExact(a: nat, b: nat)
    requires 0 < a < TWO_53 && b > 0
    ensures a < TWO_53 * b && Ceil(Quotient(a, b)) == CeilDiv(a, b)
  {
    MulMono(1, b, TWO_53);
    var f := Quotient(a, b);
    CeilDivBounds(a, b);
    UnitIsSmall(a, b, Pow2(f.s));
    AtMost(a, b, Pow2(f.s), CeilDiv(a, b), f.m);
    MoreThan(a, b, Pow2(f.s), CeilDiv(a, b) - 1, f.m);
    CeilIsBetween(f.m, Pow2(f.s), CeilDiv(a, b));
  }

  /** Half a unit in the last place is less than `1/b`. */
  lemma UnitIsSmall(a: nat, b: nat, p: nat)
    requires a < TWO_53 && TWO_52 * b <= a * p && b > 0 && p > 0
    ensures b < 2 * p
  {
    assert a * p < TWO_53 * p by {
      assert (TWO_53 - a) * p > 0;
    }
  }

  lemma AtMost(a: int, b: int, p: int, c: int, m: int)
    requires b > 0 && p > 0 && a <= b * c && 2 * (m * b - a * p) <= b
    ensures m <= p * c
  {
    assert a * p <= (b * c) * p by { MulMono(a, b * c, p); }
    assert (b * c) * p == b * (p * c);
    assert m * b == b * m;
    assert b * m - b * (p * c) == b * (m - p * c);
    ScaledApart(m - p * c, b);
  }

  lemma MoreThan(a: int, b: int, p: int, c: int, m: int)
    requires b > 0 && b < 2 * p && b * c + 1 <= a && -b <= 2 * (m * b - a * p)
    ensures p * c < m
  {
    assert a * p >= (b * c + 1) * p by { MulMono(b * c + 1, a, p); }
    assert (b * c + 1) * p == b * (p * c) + p;
    assert m * b == b * m;
    assert b * m - b * (p * c) == b * (m - p * c);
    assert 2 * (b * (m - p * c)) >= 2 * p - b;
    ScaledApart(m - p * c, b);
  }

  lemma CeilIsBetween(m: nat, p: nat, c: nat)
    requires p > 0 && p * (c - 1) < m <= p * c
    ensures CeilDiv(m, p) == c
  {
    assert p * (c - 1) == p * c - p;
    CeilDivIs(m, p, c);
  }

  // ---- The quotient is the nearest double ----

  function Abs(x: int): (r: int)
    ensures r >= 0
  {
    if x < 0 then -x else x
  }

  /** The distance of `f` from `a / b`, times `b`, the denominator of `f` and that of `g`. */
  function Distance(f: Float, g: Float, a: nat, b: nat): int {
    Abs(f.m * b - a * Pow2(f.s)) * Pow2(g.s)
  }

  /** No double is closer to the exact quotient than the one chosen. */
  lemma QuotientIsNearest(a: nat, b: nat, g: Float)
    requires 0 < a < TWO_53 * b && g.m < TWO_53
    ensures Distance(Quotient(a, b), g, a, b) <= Distance(g, Quotient(a, b), a, b)
  {
    var f := Quotient(a, b);
    var p, r := Pow2(f.s), Pow2(g.s);
    if g.s <= f.s {
      Pow2Sum(g.s, f.s - g.s);
      var d := Pow2(f.s - g.s);
      NoneNearer(a * p, b, g.m * d);
      CoarserGrid(a, b, f.m, g.m, p, r, d);
    } else {
      Pow2Sum(f.s, g.s - f.s);
      var d := Pow2(g.s - f.s);
      assert d == 2 * Pow2(g.s - f.s - 1);
      NoneNearer(a * p, b, TWO_52);
      FinerGrid(a, b, f.m, g.m, p, r, d);
    }
  }

  /** A double `gm / r` of a coarser grid, `p == r * d`, lies on the grid of `1 / p`. */
  lemma CoarserGrid(a: int, b: int, m: int, gm: int, p: int, r: int, d: int)
    requires r > 0 && d > 0 && p == r * d && Abs(m * b - a * p) <= Abs((gm * d) * b - a * p)
    ensures Abs(m * b - a * p) * r <= Abs(gm * b - a * r) * p
  {
    var x := gm * b - a * r;
    Shifted(a, b, gm, r, d);
    AbsScaled(x, d);
    Regroup(Abs(m * b - a * p), Abs(x), r, d);
  }

  lemma Shifted(a: int, b: int, gm: int, r: int, d: int)
    ensures (gm * d) * b - a * (r * d) == (gm * b - a * r) * d
  {
  }

  lemma Regroup(y: int, x: int, r: int, d: int)
    requires r > 0 && y <= x * d
    ensures y * r <= x * (r * d)
  {
    MulMono(y, x * d, r);
    assert r * (x * d) == x * (r * d);
  }

  /** A double `gm / r` of a finer grid, `r == p * d`, lies below `2^52 / p`, which does not
      exceed the exact quotient. */
  lemma FinerGrid(a: int, b: int, m: int, gm: int, p: int, r: int, d: int)
    requires p > 0 && d >= 2 && b > 0 && r == p * d && 0 <= gm < TWO_53 && TWO_52 * b <= a * p
    requires Abs(m * b - a * p) <= Abs(TWO_52 * b - a * p)
    ensures Abs(m * b - a * p) * r <= Abs(gm * b - a * r) * p
  {
    var n := a * p;
    assert a * r == n * d;
    MulMono(gm, TWO_53, b);
    MulMono(2, d, TWO_52 * b);
    MulMono(TWO_52 * b, n, d);
    var x, y := Abs(m * b - n), n * d - gm * b;
    assert d * (n - TWO_52 * b) == d * n - d * (TWO_52 * b);
    MulMono(x, n - TWO_52 * b, d);
    assert d * x <= y;
    MulMono(d * x, y, p);
    assert p * (d * x) == x * (p * d);
  }

  lemma {:induction false} Pow2Sum(x: nat, y: nat)
    ensures Pow2(x + y) == Pow2(x) * Pow2(y)
  {
    if x > 0 {
      Pow2Sum(x - 1, y);
      assert x + y - 1 == (x - 1) + y;
    }
  }

  lemma AbsScaled(x: int, d: int)
    requires d > 0
    ensures Abs(x * d) == Abs(x) * d
  {
  }

  /** Of all multiples of `d` the nearest to `n` is the chosen one. */
  lemma NoneNearer(n: nat, d: nat, k: nat)
    requires d > 0
    ensures Abs(NearestEven(n, d) * d - n) <= Abs(k * d - n)
  {
    var m: int := NearestEven(n, d);
    var step: int := k - m;
    ScaledApart(step, d);
    assert k * d - m * d == d * step;
  }
}
