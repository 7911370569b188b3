/**
  Fixed-width integers and the checked arithmetic of the ledger.
  Go's unchecked `+=` and `-=` on uint64 are `WrapAdd` and `WrapSub`; the helpers
  that return an error are `CheckedAdd`, `CheckedSub` and `Ratio`.
 */
module Arithmetic {
  import opened Outcomes

  const TWO64: int := 0x1_0000_0000_0000_0000
  const MAX64: int := 0xFFFF_FFFF_FFFF_FFFF
  const MAX32: int := 0xFFFF_FFFF

  type u64 = x: int | 0 <= x < 0x1_0000_0000_0000_0000
  type u32 = x: int | 0 <= x < 0x1_0000_0000
  type u8 = x: int | 0 <= x < 0x100

  const SCALE: u64 := 1_000_000
  const BPS: u64 := 10_000
  const YEAR: u64 := 31_536_000

  function Min(a: int, b: int): int {
    if a <= b then a else b
  }

  /** Unchecked addition: wraps around at 2^64. */
  function WrapAdd(a: u64, b: u64): u64 {
    if a + b < TWO64 then a + b else a + b - TWO64
  }

  /** Unchecked subtraction: wraps around below zero. */
  function WrapSub(a: u64, b: u64): u64 {
    if b <= a then a - b else a - b + TWO64
  }

  function CheckedAdd(a: u64, b: u64): Result<u64> {
    if MAX64 - a < b then Err(Overflow) else Ok(a + b)
  }

  function CheckedSub(a: u64, b: u64): Result<u64> {
    if a < b then Err(Underflow) else Ok(a - b)
  }

  /** A quotient of unbounded integers, rounded down or up, that must fit in 64 bits. */
  function Ratio(numerator: nat, denominator: nat, roundUp: bool): Result<u64> {
    if denominator == 0 then Err(DivisionByZero)
    else
      var floor := numerator / denominator;
      var quotient := if roundUp && numerator % denominator != 0 then floor + 1 else floor;
      if quotient > MAX64 then Err(Overflow) else Ok(quotient)
  }

  function Product(xs: seq<u64>): (p: nat)
  {
    if |xs| == 0 then 1 else Product(xs[..|xs| - 1]) * xs[|xs| - 1]
  }

  /** mulDivBy: the product of `values` over the product of `denominators`. */
  function MulDivBy(values: seq<u64>, denominators: seq<u64>, roundUp: bool): Result<u64> {
    Ratio(Product(values), Product(denominators), roundUp)
  }

  lemma ProductOf(a: u64, b: u64, c: u64, d: u64)
    ensures Product([a]) == a
    ensures Product([a, b]) == a * b
    ensures Product([a, b, c]) == a * b * c
    ensures Product([a, b, c, d]) == a * b * c * d
  {
    assert [a][..0] == [];
    assert [a, b][..1] == [a];
    assert [a, b, c][..2] == [a, b];
    assert [a, b, c, d][..3] == [a, b, c];
  }

  lemma {:induction false} ProductZero(xs: seq<u64>)
    ensures Product(xs) == 0 <==> 0 in xs
  {
    if |xs| > 0 {
      var init, last := xs[..|xs| - 1], xs[|xs| - 1];
      ProductZero(init);
      assert xs == init + [last];
      MulZero(Product(init), last);
    }
  }

  lemma MulZero(a: nat, b: nat)
    ensures a * b == 0 <==> a == 0 || b == 0
  {
    if a > 0 && b > 0 { MulMono(1, a, b); }
  }

  lemma MulMono(a: nat, b: nat, c: nat)
    requires a <= b
    ensures a * c <= b * c
  {
    calc {
      b * c - a * c;
      (b - a) * c;
    }
  }

  /** The big-integer loops of mulDivBy compute exactly `MulDivBy`. */
  method ComputeMulDivBy(values: seq<u64>, denominators: seq<u64>, roundUp: bool) returns (r: Result<u64>)
    ensures r == MulDivBy(values, denominators, roundUp)
  {
    var product: nat := 1;
    var i := 0;
    while i < |values|
      invariant 0 <= i <= |values|
      invariant product == Product(values[..i])
    {
      assert values[..i + 1][..i] == values[..i];
      product := product * values[i];
      i := i + 1;
    }
    assert values[..i] == values;
    var divisor: nat := 1;
    i := 0;
    while i < |denominators|
      invariant 0 <= i <= |denominators|
      invariant divisor == Product(denominators[..i])
      invariant 0 !in denominators[..i]
    {
      assert denominators[..i + 1][..i] == denominators[..i];
      if denominators[i] == 0 {
        ProductZero(denominators);
        return Err(DivisionByZero);
      }
      divisor := divisor * denominators[i];
      i := i + 1;
    }
    assert denominators[..i] == denominators;
    ProductZero(denominators);
    var quotient, remainder := product / divisor, product % divisor;
    if roundUp && remainder != 0 {
      quotient := quotient + 1;
    }
    if quotient > MAX64 {
      return Err(Overflow);
    }
    return Ok(quotient);
  }

  // ---- Facts about floors and ceilings -------------------------------------

  lemma FloorBounds(n: nat, d: nat)
    requires d > 0
    ensures (n / d) * d <= n < (n / d + 1) * d
  {
    assert n == (n / d) * d + n % d;
  }

  lemma FloorAtLeast(n: nat, d: nat, q: nat)
    requires d > 0
    ensures q * d <= n <==> q <= n / d
  {
    FloorBounds(n, d);
    if q <= n / d {
      MulMono(q, n / d, d);
    } else {
      MulMono(n / d + 1, q, d);
    }
  }

  lemma FloorMono(n: nat, m: nat, d: nat)
    requires d > 0 && n <= m
    ensures n / d <= m / d
  {
    var q := n / d;
    FloorAtLeast(n, d, q);
    assert q * d <= m;
    FloorAtLeast(m, d, q);
  }

  lemma FloorAntitone(n: nat, c: nat, d: nat)
    requires 0 < c <= d
    ensures n / d <= n / c
  {
    var q := n / d;
    FloorAtLeast(n, d, q);
    MulMono(c, d, q);
    assert q * c == c * q && q * d == d * q;
    FloorAtLeast(n, c, q);
  }

  /** Rounding up gives the least integer whose multiple reaches the numerator. */
  lemma CeilingBounds(n: nat, d: nat)
    requires d > 0
    ensures
      var c := if n % d != 0 then n / d + 1 else n / d;
      n <= c * d && (forall q: nat :: n <= q * d ==> c <= q)
  {
    FloorBounds(n, d);
    var c := if n % d != 0 then n / d + 1 else n / d;
    forall q: nat | n <= q * d ensures c <= q {
      if q < c {
        MulMono(q, c - 1, d);
        assert false;
      }
    }
  }

  lemma FloorAdd(a: nat, b: nat, d: nat)
    requires d > 0
    ensures a / d + b / d <= (a + b) / d <= a / d + b / d + 1
  {
    var p, q := a / d, b / d;
    FloorBounds(a, d);
    FloorBounds(b, d);
    Distribute(p, q, d);
    FloorAtLeast(a + b, d, p + q);
    Distribute(p + 1, q + 1, d);
    FloorAtLeast(a + b, d, p + q + 2);
  }

  lemma Distribute(p: nat, q: nat, d: nat)
    ensures (p + q) * d == p * d + q * d
  {
  }
}
