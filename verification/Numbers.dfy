/**
  JSON numbers between Go's int, float64 and decimal text (encoding/json under
  internal/token_manager/jwt.go): an integer read into `any` becomes the nearest binary64 value
  (RFC 8259 section 6), is printed as that value's shortest decimal, and is read as an int at last.
 */
module Numbers {
  import opened Domain

  // ----- binary64 on integral values -----

  const TWO53: nat := 0x20_0000_0000_0000

  /** The spacing of binary64 values at magnitude `m`. */
  function Ulp(m: nat): (u: nat)
    ensures u >= 1
  {
    if m < TWO53 then 1 else 2 * Ulp(m / 2)
  }

  /** Nearest representable magnitude, ties to even. */
  function RoundMagnitude(m: nat): nat {
    var u := Ulp(m);
    var q, r := m / u, m % u;
    if 2 * r < u || (2 * r == u && q % 2 == 0) then q * u else (q + 1) * u
  }

  function Signed(negative: bool, m: nat): int {
    var n: int := m;
    if negative then -n else n
  }

  function Magnitude(n: int): nat {
    if n < 0 then -n else n
  }

  function Round(n: int): int {
    Signed(n < 0, RoundMagnitude(Magnitude(n)))
  }

  function Pow10(k: nat): (p: nat)
    ensures p >= 1
  {
    if k == 0 then 1 else 10 * Pow10(k - 1)
  }

  /** The largest multiple of 10^k up to `f`. */
  function Below(f: nat, k: nat): (lo: nat)
    ensures lo <= f
  {
    if k == 0 then f else 10 * Below(f / 10, k - 1)
  }

  /**
    The value Go prints for an integral float: the one with the fewest significant digits that
    reads back as `f`, and the closer of two such, filled up with zeros. `k` bounds the zeros.
   */
  function Shortest(f: nat, k: nat): nat {
    if k == 0 then f
    else
      var p := Pow10(k);
      var lo := Below(f, k);
      var near, far := if 2 * (f - lo) <= p then lo else lo + p, if 2 * (f - lo) <= p then lo + p else lo;
      if RoundMagnitude(near) == f then near
      else if RoundMagnitude(far) == f then far
      else Shortest(f, k - 1)
  }

  // ----- decimal texts -----

  function Digit(d: nat): char
    requires d < 10
  {
    "0123456789"[d]
  }

  predicate IsDigit(ch: char) {
    '0' <= ch <= '9'
  }

  function PrintNat(n: nat): string {
    if n < 10 then [Digit(n)] else PrintNat(n / 10) + [Digit(n % 10)]
  }

  function ParseNat(s: string): Option<nat> {
    if s == [] || !IsDigit(s[|s| - 1]) then None
    else
      var d := s[|s| - 1] as int - '0' as int;
      if |s| == 1 then Some(d)
      else
        var rest := ParseNat(s[..|s| - 1]);
        if rest.None? then None else Some(10 * rest.value + d)
  }

  function Print(n: int): string {
    if n < 0 then "-" + PrintNat(-n) else PrintNat(n)
  }

  function Parse(s: string): Option<int> {
    if s != [] && s[0] == '-' then
      var m := ParseNat(s[1..]);
      if m.None? then None else Some(0 - m.value)
    else ParseNat(s)
  }

  lemma {:induction false} ParseNatPrintNat(n: nat)
    ensures ParseNat(PrintNat(n)) == Some(n) && IsDigit(PrintNat(n)[0])
  {
    if n >= 10 {
      ParseNatPrintNat(n / 10);
      var s := PrintNat(n);
      assert s[..|s| - 1] == PrintNat(n / 10);
    }
  }

  lemma ParsePrint(n: int)
    ensures Parse(Print(n)) == Some(n)
  {
    var m := Magnitude(n);
    ParseNatPrintNat(m);
    var digits := PrintNat(m);
    if n < 0 {
      assert ("-" + digits)[1..] == digits;
    }
  }

  // ----- the encoder on numbers -----

  const MAX_ZEROS: nat := 21

  predicate InInt64(n: int) {
    -0x8000_0000_0000_0000 <= n < 0x8000_0000_0000_0000
  }

  /** Unmarshal into `any`: a number becomes a float. */
  function DecodeFloat(text: string): Option<int> {
    var n := Parse(text);
    if n.None? then None else Some(Round(n.value))
  }

  /** The decimal a float is printed as. */
  function Printed(f: int): int {
    Signed(f < 0, Shortest(Magnitude(f), MAX_ZEROS))
  }

  function EncodeFloat(f: int): string {
    Print(Printed(f))
  }

  /** Unmarshal into an `int` field. */
  function DecodeInt(text: string): Result<int> {
    var n := Parse(text);
    if n.Some? && InInt64(n.value) then Ok(n.value) else Err(ErrInvalidToken)
  }

  /** What becomes of an id between Register or LogIn and the middleware: two trips through floats. */
  function ThroughJson(id: int): Result<int> {
    var f1 := DecodeFloat(Print(id));
    if f1.None? then Err(ErrInternal) else
    var f2 := DecodeFloat(EncodeFloat(f1.value));
    if f2.None? then Err(ErrInvalidToken) else
    DecodeInt(EncodeFloat(f2.value))
  }

  // ----- exactness up to 2^53 -----

  lemma SmallExact(m: nat)
    requires m <= TWO53
    ensures RoundMagnitude(m) == m
  {
    if m == TWO53 {
      assert Ulp(TWO53) == 2;
    }
  }

  lemma {:induction false} QuotientBounds(m: nat)
    requires m >= TWO53
    ensures TWO53 / 2 <= m / Ulp(m) < TWO53 && Ulp(m) >= 2
    ensures m >= 2 * TWO53 ==> Ulp(m) >= 4
  {
    var h := m / 2;
    if h >= TWO53 {
      QuotientBounds(h);
    }
    DivTwice(m, Ulp(h));
  }

  lemma DivTwice(m: nat, u: nat)
    requires u >= 1
    ensures m / (2 * u) == m / 2 / u
  {
    var q, r := m / 2 / u, m / 2 % u;
    assert m / 2 == q * u + r;
    var s := 2 * r + m % 2;
    assert m == 2 * (q * u + r) + m % 2 == q * (2 * u) + s;
    assert 0 <= s < 2 * u;
    QuotientIs(m, 2 * u, q, s);
  }

  lemma AtLeastOnce(a: int, d: int)
    requires a >= 1 && d >= 1
    ensures a * d >= d
  {
  }

  lemma QuotientIs(m: nat, d: nat, q: nat, r: nat)
    requires d >= 1 && r < d && m == q * d + r
    ensures m / d == q
  {
    var q' := m / d;
    assert m == d * q' + m % d;
    assert (q - q') * d == q * d - q' * d;
    if q' < q {
      AtLeastOnce(q - q', d);
    } else if q' > q {
      assert (q' - q) * d == q' * d - q * d;
      AtLeastOnce(q' - q, d);
    }
  }

  lemma Multiple(n: nat, d: nat, q: nat)
    requires d >= 1 && n == q * d
    ensures n / d == q && n % d == 0
  {
    QuotientIs(n, d, q, 0);
    assert n == d * (n / d) + n % d;
  }

  lemma ProductBound(q: nat, u: nat)
    requires q >= TWO53 / 2 && u >= 4
    ensures q * u >= 2 * TWO53
  {
    assert q * u == TWO53 / 2 * u + (q - TWO53 / 2) * u;
  }

  lemma RoundBelow(m: nat)
    ensures RoundMagnitude(m) >= m / Ulp(m) * Ulp(m)
  {
    var q, u := m / Ulp(m), Ulp(m);
    assert (q + 1) * u == q * u + u;
  }

  /** Beyond 2^53 only 2^53 + 1 rounds to 2^53. */
  lemma LargeStaysLarge(m: nat)
    requires m >= TWO53 + 2
    ensures RoundMagnitude(m) >= TWO53 + 2
  {
    RoundBelow(m);
    if m < 2 * TWO53 {
      assert Ulp(m / 2) == 1 && Ulp(m) == 2;
    } else {
      QuotientBounds(m);
      ProductBound(m / Ulp(m), Ulp(m));
    }
  }

  /** No multiple of ten other than `f` itself reads back as an `f` up to 2^53. */
  lemma OnlyItself(f: nat, x: nat)
    requires f <= TWO53 && x % 10 == 0
    ensures RoundMagnitude(x) == f ==> x == f
  {
    if x <= TWO53 {
      SmallExact(x);
    } else {
      LargeStaysLarge(x);
    }
  }

  lemma MultiplesOfTen(f: nat, k: nat)
    requires k > 0
    ensures Below(f, k) % 10 == 0 && (Below(f, k) + Pow10(k)) % 10 == 0
  {
    var a, b := Below(f / 10, k - 1), Pow10(k - 1);
    assert (10 * a) % 10 == 0 && (10 * (a + b)) % 10 == 0;
  }

  lemma {:induction false} SmallShortest(f: nat, k: nat)
    requires f <= TWO53
    ensures Shortest(f, k) == f
  {
    if k > 0 {
      SmallShortest(f, k - 1);
      MultiplesOfTen(f, k);
      OnlyItself(f, Below(f, k));
      OnlyItself(f, Below(f, k) + Pow10(k));
    }
  }

  lemma {:induction false} ShortestReadsBack(f: nat, k: nat)
    requires RoundMagnitude(f) == f
    ensures RoundMagnitude(Shortest(f, k)) == f
  {
    if k > 0 {
      ShortestReadsBack(f, k - 1);
    }
  }

  /** A representable integral float survives being printed with few digits and read again. */
  lemma FloatsSurvivePrinting(f: int)
    requires Round(f) == f
    ensures Round(Printed(f)) == f && DecodeFloat(EncodeFloat(f)) == Some(f)
  {
    SignedReadsBack(f, MAX_ZEROS);
    ParsePrint(Printed(f));
  }

  lemma SignedReadsBack(f: int, zeros: nat)
    requires Round(f) == f
    ensures Round(Signed(f < 0, Shortest(Magnitude(f), zeros))) == f
  {
    ShortestReadsBack(Magnitude(f), zeros);
  }

  // ----- what becomes of any id -----

  predicate Exact(x: nat) {
    x % Ulp(x) == 0
  }

  lemma ExactStays(x: nat)
    requires Exact(x)
    ensures RoundMagnitude(x) == x
  {
  }

  lemma DoubleExact(y: nat)
    requires Exact(y) && 2 * y >= TWO53
    ensures Exact(2 * y)
  {
    var u := Ulp(y);
    assert 2 * y / 2 == y;
    assert Ulp(2 * y) == 2 * u;
    assert y == y / u * u;
    assert 2 * y == y / u * (2 * u);
    Multiple(2 * y, 2 * u, y / u);
  }

  /** A quotient of 53 bits, scaled by a spacing of binary64, is representable. */
  lemma {:induction false} ScaledExact(m: nat, q: nat)
    requires TWO53 / 2 <= q <= TWO53
    ensures Exact(q * Ulp(m))
  {
    if m >= TWO53 {
      ScaledExact(m / 2, q);
      var u := Ulp(m / 2);
      assert q * (2 * u) == 2 * (q * u);
      AtLeastOnce(u, q);
      assert u * q == q * u;
      DoubleExact(q * u);
    } else {
      assert Ulp(TWO53) == 2;
    }
  }

  lemma RoundingIsExact(m: nat)
    ensures Exact(RoundMagnitude(m))
  {
    if m >= TWO53 {
      QuotientBounds(m);
      ScaledExact(m, m / Ulp(m));
      ScaledExact(m, m / Ulp(m) + 1);
    }
  }

  lemma RoundTwice(n: int)
    ensures Round(Round(n)) == Round(n)
  {
    RoundingIsExact(Magnitude(n));
    ExactStays(RoundMagnitude(Magnitude(n)));
  }

  // ----- the rounding is to nearest, ties to even -----

  lemma {:induction false} SameQuotientSameUlp(m: nat, x: nat)
    requires x / Ulp(m) == m / Ulp(m)
    ensures Ulp(x) == Ulp(m)
  {
    if m >= TWO53 {
      QuotientBounds(m);
      var u, q := Ulp(m), x / Ulp(m);
      assert x == q * u + x % u;
      assert q * u == q * 2 + q * (u - 2);
      DivTwice(m, Ulp(m / 2));
      DivTwice(x, Ulp(m / 2));
      SameQuotientSameUlp(m / 2, x / 2);
    }
  }

  lemma Between(x: nat, u: nat, q: nat)
    requires u >= 1 && q * u <= x < q * u + u
    ensures x / u == q && (x % u == 0 ==> x == q * u)
  {
    QuotientIs(x, u, q, x - q * u);
    assert x == u * (x / u) + x % u;
  }

  lemma NoneBetween(m: nat, x: nat, u: nat, q: nat)
    requires Exact(x) && u == Ulp(m) && q == m / u
    ensures x <= q * u || x >= q * u + u
  {
    if q * u < x < q * u + u {
      Between(x, u, q);
      SameQuotientSameUlp(m, x);
    }
  }

  function Distance(a: nat, b: nat): nat {
    if a < b then b - a else a - b
  }

  /** No representable value is closer, and of two that are equally close the even one is taken. */
  lemma RoundsToNearest(m: nat, x: nat)
    requires Exact(x)
    ensures Exact(RoundMagnitude(m)) && Distance(RoundMagnitude(m), m) <= Distance(x, m)
    ensures Distance(RoundMagnitude(m), m) == Distance(x, m) && x != RoundMagnitude(m)
            ==> RoundMagnitude(m) / Ulp(m) % 2 == 0
  {
    RoundingIsExact(m);
    var base := Neighbours(m, x);
    NearestOfTwo(m, x, base, Ulp(m), RoundMagnitude(m));
  }

  /** `base` and `base + Ulp(m)` enclose `m`, not `x`, and are what `m` can be rounded to. */
  lemma Neighbours(m: nat, x: nat) returns (base: nat)
    requires Exact(x)
    ensures base <= m < base + Ulp(m) && (x <= base || x >= base + Ulp(m))
    ensures RoundMagnitude(m) == base ==> 2 * (m - base) <= Ulp(m)
    ensures RoundMagnitude(m) != base ==> RoundMagnitude(m) == base + Ulp(m) && 2 * (m - base) >= Ulp(m)
    ensures 2 * (m - base) == Ulp(m) ==> RoundMagnitude(m) / Ulp(m) % 2 == 0
  {
    base := RoundedFrom(m, Ulp(m), m / Ulp(m), m % Ulp(m), RoundMagnitude(m));
    NoneBetween(m, x, Ulp(m), m / Ulp(m));
  }

  lemma RoundedFrom(m: nat, u: nat, q: nat, r: nat, rounded: nat) returns (base: nat)
    requires u >= 1 && q == m / u && r == m % u
    requires rounded == if 2 * r < u || (2 * r == u && q % 2 == 0) then q * u else (q + 1) * u
    ensures base == q * u && m == base + r && r < u
    ensures rounded == base ==> 2 * r <= u
    ensures rounded != base ==> rounded == base + u && 2 * r >= u
    ensures 2 * r == u ==> rounded / u % 2 == 0
  {
    base := q * u;
    Distribute(q, u);
    QuotientAndRest(m, u);
    Multiple(q * u, u, q);
    Multiple(q * u + u, u, q + 1);
  }

  lemma Distribute(q: nat, u: nat)
    ensures (q + 1) * u == q * u + u
  {
  }

  lemma QuotientAndRest(m: nat, u: nat)
    requires u >= 1
    ensures m == m / u * u + m % u
  {
  }

  lemma NearestOfTwo(m: nat, x: nat, base: nat, u: nat, rounded: nat)
    requires base <= m < base + u && (x <= base || x >= base + u)
    requires rounded == base ==> 2 * (m - base) <= u
    requires rounded != base ==> rounded == base + u && 2 * (m - base) >= u
    ensures Distance(rounded, m) <= Distance(x, m)
    ensures Distance(rounded, m) == Distance(x, m) && x != rounded ==> 2 * (m - base) == u
  {
  }

  lemma RoundIsMonotone(a: nat, b: nat)
    requires a <= b
    ensures RoundMagnitude(a) <= RoundMagnitude(b)
  {
    RoundingIsExact(a);
    RoundingIsExact(b);
    RoundsToNearest(a, RoundMagnitude(b));
    RoundsToNearest(b, RoundMagnitude(a));
  }

  // ----- the printed decimal is the shortest, and of those the closest -----

  predicate ReadsAs(x: nat, f: nat) {
    RoundMagnitude(x) == f
  }

  lemma TenTimes(b: nat, p: nat)
    requires p >= 1 && b % p == 0
    ensures 10 * b % (10 * p) == 0
  {
    QuotientAndRest(b, p);
    assert 10 * b == b / p * (10 * p);
    Multiple(10 * b, 10 * p, b / p);
  }

  lemma {:induction false} BelowIs(f: nat, k: nat)
    ensures Below(f, k) % Pow10(k) == 0 && f < Below(f, k) + Pow10(k)
  {
    if k > 0 {
      BelowIs(f / 10, k - 1);
      TenTimes(Below(f / 10, k - 1), Pow10(k - 1));
    }
  }

  lemma NoMultipleBetween(x: nat, lo: nat, p: nat)
    requires p >= 1 && x % p == 0 && lo % p == 0
    ensures x <= lo || x >= lo + p
  {
    var i, j := x / p, lo / p;
    assert x == i * p && lo == j * p;
    if i > j {
      assert x - lo == (i - j) * p;
      AtLeastOnce(i - j, p);
    } else {
      assert lo - x == (j - i) * p;
    }
  }

  lemma NextMultiple(lo: nat, p: nat)
    requires p >= 1 && lo % p == 0
    ensures (lo + p) % p == 0
  {
    assert lo == lo / p * p;
    assert lo + p == (lo / p + 1) * p;
    Multiple(lo + p, p, lo / p + 1);
  }

  /** If any multiple of 10^k reads as `f`, then the neighbour of `f` on its side does and is no further away. */
  lemma NeighbourSuffices(f: nat, k: nat, x: nat)
    requires ReadsAs(f, f) && ReadsAs(x, f) && x % Pow10(k) == 0
    ensures var lo := Below(f, k);
            || (ReadsAs(lo, f) && Distance(lo, f) <= Distance(x, f))
            || (ReadsAs(lo + Pow10(k), f) && Distance(lo + Pow10(k), f) <= Distance(x, f))
  {
    var lo, p := Below(f, k), Pow10(k);
    BelowIs(f, k);
    NoMultipleBetween(x, lo, p);
    if x <= lo {
      RoundIsMonotone(x, lo);
      RoundIsMonotone(lo, f);
    } else {
      RoundIsMonotone(f, lo + p);
      RoundIsMonotone(lo + p, x);
    }
  }

  predicate EndsIn(x: nat, zeros: nat) {
    x % Pow10(zeros) == 0
  }

  /**
    `s` reads as `f` and ends in `j` zeros; nothing that reads as `f` ends in more, up to `k`, and
    nothing that ends in as many is closer.
   */
  ghost predicate BestAt(f: nat, k: nat, s: nat, j: nat) {
    && j <= k && EndsIn(s, j) && ReadsAs(s, f)
    && (forall x: nat :: ReadsAs(x, f) && EndsIn(x, j) ==> Distance(s, f) <= Distance(x, f))
    && (forall i: nat, x: nat :: j < i <= k && ReadsAs(x, f) ==> !EndsIn(x, i))
  }

  predicate NeighbourReads(f: nat, k: nat) {
    ReadsAs(Below(f, k), f) || ReadsAs(Below(f, k) + Pow10(k), f)
  }

  lemma NeighbourIsBest(f: nat, k: nat)
    requires k > 0 && ReadsAs(f, f) && NeighbourReads(f, k)
    ensures BestAt(f, k, Shortest(f, k), k)
  {
    BelowIs(f, k);
    NextMultiple(Below(f, k), Pow10(k));
    forall x: nat | ReadsAs(x, f) && EndsIn(x, k) ensures Distance(Shortest(f, k), f) <= Distance(x, f) {
      NeighbourSuffices(f, k, x);
    }
  }

  lemma NoneWithSoMany(f: nat, k: nat, s: nat, j: nat)
    requires k > 0 && ReadsAs(f, f) && !NeighbourReads(f, k) && BestAt(f, k - 1, s, j)
    ensures BestAt(f, k, s, j)
  {
    forall x: nat | ReadsAs(x, f) ensures !EndsIn(x, k) {
      if EndsIn(x, k) {
        NeighbourSuffices(f, k, x);
      }
    }
  }

  lemma BestItself(f: nat)
    requires ReadsAs(f, f)
    ensures BestAt(f, 0, Shortest(f, 0), 0)
  {
  }

  lemma ShortestSkips(f: nat, k: nat)
    requires k > 0 && !NeighbourReads(f, k)
    ensures Shortest(f, k) == Shortest(f, k - 1)
  {
  }

  /** What is printed has as many zeros as any decimal that reads back, and is the closest of those. */
  lemma {:induction false} ShortestIsShortest(f: nat, k: nat)
    requires ReadsAs(f, f)
    ensures exists j :: BestAt(f, k, Shortest(f, k), j)
  {
    if k == 0 {
      BestItself(f);
    } else if NeighbourReads(f, k) {
      NeighbourIsBest(f, k);
    } else {
      ShortestIsShortest(f, k - 1);
      var j :| BestAt(f, k - 1, Shortest(f, k - 1), j);
      NoneWithSoMany(f, k, Shortest(f, k - 1), j);
      ShortestSkips(f, k);
    }
  }

  lemma DoubleIsExact(f: nat)
    requires ReadsAs(f, f)
    ensures Exact(2 * f)
  {
    RoundingIsExact(f);
    if 2 * f >= TWO53 {
      DoubleExact(f);
    }
  }

  lemma TooFar(f: nat, x: nat)
    requires ReadsAs(f, f) && 0 < f && 2 * f <= x
    ensures !ReadsAs(x, f)
  {
    DoubleIsExact(f);
    RoundsToNearest(x, 2 * f);
  }

  lemma ManyZerosAreFar(x: nat, zeros: nat)
    requires zeros > 21 && EndsIn(x, zeros) && x > 0
    ensures x >= 10_000_000_000_000_000_000_000
  {
    PowersGrow(zeros);
    QuotientAndRest(x, Pow10(zeros));
    AtLeastOnce(x / Pow10(zeros), Pow10(zeros));
  }

  lemma {:induction false} PowersGrow(k: nat)
    requires k > 21
    ensures Pow10(k) >= 10_000_000_000_000_000_000_000
  {
    if k > 22 {
      PowersGrow(k - 1);
    } else {
      PowerOfSum(11, 11);
      assert Pow10(11) == 100_000_000_000;
    }
  }

  lemma {:induction false} PowerOfSum(a: nat, b: nat)
    ensures Pow10(a + b) == Pow10(a) * Pow10(b)
  {
    if a > 0 {
      PowerOfSum(a - 1, b);
      assert 10 * Pow10(a - 1) * Pow10(b) == 10 * (Pow10(a - 1) * Pow10(b));
    }
  }

  /** `s` reads as `f` with as many trailing zeros as anything that does, and none of those is closer. */
  ghost predicate ShortestFor(f: nat, s: nat, zeros: nat) {
    && EndsIn(s, zeros) && ReadsAs(s, f)
    && (forall x: nat :: ReadsAs(x, f) && EndsIn(x, zeros) ==> Distance(s, f) <= Distance(x, f))
    && (forall i: nat, x: nat :: zeros < i && ReadsAs(x, f) ==> !EndsIn(x, i))
  }

  lemma ShortestOfAll(f: nat, k: nat)
    requires ReadsAs(f, f) && 0 < f < 1_000_000_000_000_000_000_000 && k >= 21
    ensures exists zeros :: ShortestFor(f, Shortest(f, k), zeros)
  {
    ShortestIsShortest(f, k);
    var j :| BestAt(f, k, Shortest(f, k), j);
    BestOfAll(f, k, Shortest(f, k), j);
  }

  lemma BestOfAll(f: nat, k: nat, s: nat, j: nat)
    requires ReadsAs(f, f) && 0 < f < 1_000_000_000_000_000_000_000 && k >= 21 && BestAt(f, k, s, j)
    ensures ShortestFor(f, s, j)
  {
    forall i: nat, x: nat | j < i && ReadsAs(x, f) ensures !EndsIn(x, i) {
      if i > k && EndsIn(x, i) {
        MultipleIsFar(f, x, i);
      }
    }
  }

  lemma MultipleIsFar(f: nat, x: nat, zeros: nat)
    requires ReadsAs(f, f) && 0 < f < 1_000_000_000_000_000_000_000 && zeros > 21 && EndsIn(x, zeros)
    ensures !ReadsAs(x, f)
  {
    if x > 0 {
      ManyZerosAreFar(x, zeros);
      TooFar(f, x);
    }
  }

  /** Below 10^21, where Go prints without an exponent, a float is printed as the shortest decimal there is. */
  lemma PrintedIsShortest(f: int)
    requires Round(f) == f && 0 < Magnitude(f) < 1_000_000_000_000_000_000_000
    ensures exists s, zeros :: Printed(f) == Signed(f < 0, s) && ShortestFor(Magnitude(f), s, zeros)
  {
    ShortestOfAll(Magnitude(f), MAX_ZEROS);
  }

  /**
    Every id comes back as the shortest decimal of the float nearest to it, or is refused where
    that decimal does not fit into 64 bits; what comes back once comes back unchanged ever after.
   */
  lemma IdComesBackAs(id: int)
    ensures var back := Printed(Round(id));
            ThroughJson(id) == if -9_223_372_036_854_775_808 <= back <= 9_223_372_036_854_775_807
                               then Ok(back) else Err(ErrInvalidToken)
    ensures ThroughJson(id).Ok? ==> ThroughJson(ThroughJson(id).value) == ThroughJson(id)
  {
    IdTravels(id);
    var f := Round(id);
    RoundTwice(id);
    FloatsSurvivePrinting(f);
    IdTravels(Printed(f));
  }

  lemma IdTravels(id: int)
    ensures ThroughJson(id) == if InInt64(Printed(Round(id))) then Ok(Printed(Round(id))) else Err(ErrInvalidToken)
  {
    ParsePrint(id);
    RoundTwice(id);
    FloatsSurvivePrinting(Round(id));
    ParsePrint(Printed(Round(id)));
  }

  /** An id survives if and only if it is the shortest decimal of its nearest float. */
  lemma SurvivesIff(id: int)
    requires -9_223_372_036_854_775_808 <= id <= 9_223_372_036_854_775_807
    ensures ThroughJson(id) == Ok(id) <==> id == Printed(Round(id))
  {
    IdTravels(id);
  }

  lemma UlpBeyond(m: nat)
    requires TWO53 <= m < TWO53 + 4
    ensures Ulp(m) == 2
  {
    assert Ulp(m / 2) == 1;
  }

  lemma OnlyItselfBeyond(x: nat)
    requires ReadsAs(x, TWO53 + 2)
    ensures x == TWO53 + 2
  {
    UlpBeyond(TWO53 + 1);
    UlpBeyond(TWO53 + 3);
    if x <= TWO53 + 1 {
      RoundIsMonotone(x, TWO53 + 1);
    } else if x >= TWO53 + 3 {
      RoundIsMonotone(TWO53 + 3, x);
    }
  }

  /** The second id beyond 2^53 comes back as itself. */
  lemma SecondLargeIdSurvives()
    ensures ThroughJson(9_007_199_254_740_994) == Ok(9_007_199_254_740_994)
  {
    UlpBeyond(TWO53 + 2);
    ShortestReadsBack(TWO53 + 2, MAX_ZEROS);
    OnlyItselfBeyond(Shortest(TWO53 + 2, MAX_ZEROS));
    IdTravels(TWO53 + 2);
  }

  lemma WindowOf2To56(x: nat)
    requires ReadsAs(x, 72_057_594_037_927_936)
    ensures 72_057_594_037_927_932 <= x <= 72_057_594_037_927_944
  {
    var below, above := 72_057_594_037_927_931, 72_057_594_037_927_945;
    assert Ulp(below) == 8 && Ulp(above) == 16;
    if x <= below {
      RoundIsMonotone(x, below);
    } else if x >= above {
      RoundIsMonotone(above, x);
    }
  }

  lemma Around2To56(f: nat)
    requires f == 72_057_594_037_927_936
    ensures ReadsAs(f, f) && ReadsAs(f + 4, f) && EndsIn(f + 4, 1)
  {
    assert Ulp(72_057_594_037_927_936) == 16 && Ulp(72_057_594_037_927_940) == 16;
    OneZero(72_057_594_037_927_940);
  }

  lemma BestFor2To56(f: nat, k: nat, s: nat, j: nat)
    requires f == 72_057_594_037_927_936 && k > 0 && BestAt(f, k, s, j)
    ensures s == f + 4
  {
    Around2To56(f);
    TenDivides(s, j);
    WindowOf2To56(s);
  }

  lemma OneZero(x: nat)
    ensures EndsIn(x, 1) <==> x % 10 == 0
  {
    assert Pow10(1) == 10;
  }

  /** Being a float is not enough: 2^56 is one, and comes back as the multiple of ten next to it. */
  lemma ExactIdChanges()
    ensures ThroughJson(72_057_594_037_927_936) == Ok(72_057_594_037_927_940)
  {
    var f := 72_057_594_037_927_936;
    Around2To56(f);
    ShortestIsShortest(f, MAX_ZEROS);
    var j :| BestAt(f, MAX_ZEROS, Shortest(f, MAX_ZEROS), j);
    BestFor2To56(f, MAX_ZEROS, Shortest(f, MAX_ZEROS), j);
    IdTravels(f);
  }

  lemma TenDivides(s: nat, j: nat)
    requires j > 0 && EndsIn(s, j)
    ensures s % 10 == 0
  {
    QuotientAndRest(s, Pow10(j));
    assert s == 10 * (s / Pow10(j) * Pow10(j - 1));
  }

  /** Two ids are taken for the same user if and only if one float is nearest to both. */
  lemma ConfusedIff(a: int, b: int)
    ensures ThroughJson(a).Ok? ==> (ThroughJson(a) == ThroughJson(b) <==> Round(a) == Round(b))
  {
    IdTravels(a);
    IdTravels(b);
    RoundTwice(a);
    RoundTwice(b);
    FloatsSurvivePrinting(Round(a));
    FloatsSurvivePrinting(Round(b));
  }

  lemma FloatTrip(n: int)
    requires Magnitude(n) <= TWO53
    ensures Round(n) == n && EncodeFloat(n) == Print(n) && DecodeFloat(Print(n)) == Some(n)
  {
    SmallExact(Magnitude(n));
    SmallShortest(Magnitude(n), MAX_ZEROS);
    ParsePrint(n);
  }

  lemma SmallIdsSurvive(id: int)
    requires Magnitude(id) <= TWO53
    ensures ThroughJson(id) == Ok(id)
  {
    FloatTrip(id);
    ParsePrint(id);
  }

  lemma FirstOdd()
    ensures Round(TWO53 + 1) == TWO53
  {
    assert Ulp(TWO53 / 2) == 1;
    assert Ulp(TWO53 + 1) == 2;
  }

  /** The first id beyond the bound comes back as its neighbour. */
  lemma FirstLargeIdChanges()
    ensures ThroughJson(9_007_199_254_740_993) == Ok(9_007_199_254_740_992)
  {
    ParsePrint(TWO53 + 1);
    FirstOdd();
    FloatTrip(TWO53);
    ParsePrint(TWO53);
  }

  /** 2^53 is the exact bound: all ids within `b` survive if and only if `b` is at most 2^53. */
  lemma ExactBound(b: nat)
    ensures (forall id: int :: Magnitude(id) <= b ==> ThroughJson(id) == Ok(id)) <==> b <= 9_007_199_254_740_992
  {
    if b <= TWO53 {
      forall id: int | Magnitude(id) <= b ensures ThroughJson(id) == Ok(id) {
        SmallIdsSurvive(id);
      }
    } else {
      FirstLargeIdChanges();
      assert Magnitude(TWO53 + 1) <= b;
    }
  }
}
