/** Launch velocity of a fishing hook, in integer arithmetic. */
module Fishing {
  import opened Options

  const MAX_U64: nat := 0xFFFF_FFFF_FFFF_FFFF
  const MAX_U32: nat := 0xFFFF_FFFF

  newtype Int16 = x: int | -0x8000 <= x < 0x8000

  predicate IsRoot(value: nat, r: nat) {
    r * r <= value < (r + 1) * (r + 1)
  }

  lemma RootIsUnique(value: nat, r: nat, q: nat)
    requires IsRoot(value, r) && IsRoot(value, q)
    ensures r == q
  {
    if r < q { SquaresGrow(r + 1, q); }
    if q < r { SquaresGrow(q + 1, r); }
  }

  lemma SquaresGrow(a: nat, b: nat)
    requires a <= b
    ensures a * a <= b * b
  {
    assert a * a <= a * b <= b * b;
  }

  function SaturatingAdd(a: nat, b: nat): nat {
    if a + b > MAX_U64 then MAX_U64 else a + b
  }

  function Power2(n: nat): (p: nat)
    ensures p >= 1
  {
    if n == 0 then 1 else 2 * Power2(n - 1)
  }

  /**
   * The digits of the root found so far are `high`, a root to the next `unit`: `remainder` is what its
   * square leaves, `root` holds it scaled by `unit`, and `bit` is the square of half a unit.
   */
  predicate DigitsFound(value: nat, remainder: nat, root: nat, bit: nat, high: nat, unit: nat) {
    && unit >= 1 && high + unit <= MAX_U32 + 1
    && root == high * unit
    && bit == unit * unit / 4
    && remainder + high * high == value
    && value < (high + unit) * (high + unit)
  }

  /** The exact integer square root; no addition saturates and the final clamp changes nothing. */
  method IntegerSqrt(value: nat) returns (result: nat, ghost clamped: bool)
    requires value <= MAX_U64
    ensures IsRoot(value, result) && result <= MAX_U32
    ensures !clamped
  {
    var remainder: nat, root: nat, bit: nat := value, 0, 0x4000_0000_0000_0000;
    hide DigitsFound, IsRoot, Power2;
    clamped := false;
    ghost var high: nat, unit: nat := 0, MAX_U32 + 1;
    PowerOf32();
    DigitsStart(value);
    for i := 0 to 32
      invariant !clamped
      invariant unit == Power2(32 - i) && DigitsFound(value, remainder, root, bit, high, unit)
    {
      ghost var half := Power2(31 - i);
      PowerHalves(32 - i);
      NextDigit(value, remainder, root, bit, high, half);
      clamped := clamped || root + bit > MAX_U64;
      var trial := SaturatingAdd(root, bit);
      if remainder >= trial {
        remainder := remainder - trial;
        clamped := clamped || root / 2 + bit > MAX_U64;
        root := SaturatingAdd(root / 2, bit);
        high := high + half;
      } else {
        root := root / 2;
      }
      bit := bit / 4;
      unit := half;
    }
    PowerOf0();
    DigitsEnd(value, remainder, root, bit, high);
    clamped := clamped || root > MAX_U32;
    result := if root < MAX_U32 then root else MAX_U32;
  }

  lemma DigitsStart(value: nat)
    requires value <= MAX_U64
    ensures DigitsFound(value, value, 0, 0x4000_0000_0000_0000, 0, MAX_U32 + 1)
  {
  }

  lemma DigitsEnd(value: nat, remainder: nat, root: nat, bit: nat, high: nat)
    requires DigitsFound(value, remainder, root, bit, high, 1)
    ensures IsRoot(value, root) && root <= MAX_U32
  {
  }

  lemma PowerHalves(n: nat)
    requires n > 0
    ensures Power2(n) == 2 * Power2(n - 1)
  {
  }

  lemma PowerOf0()
    ensures Power2(0) == 1
  {
  }

  lemma PowerOf32()
    ensures Power2(32) == MAX_U32 + 1
  {
    assert Power2(8) == 256;
    assert Power2(16) == 65536;
    assert Power2(24) == 0x100_0000;
  }

  /** One digit of the root, taken when the square of the digits with it still fits. */
  lemma NextDigit(value: nat, remainder: nat, root: nat, bit: nat, high: nat, half: nat)
    requires half >= 1 && DigitsFound(value, remainder, root, bit, high, 2 * half)
    ensures remainder <= value && root + bit <= MAX_U64 && root / 2 + bit <= MAX_U64
    ensures remainder >= root + bit
            ==> DigitsFound(value, remainder - (root + bit), root / 2 + bit, bit / 4, high + half, half)
    ensures remainder < root + bit ==> DigitsFound(value, remainder, root / 2, bit / 4, high, half)
  {
    assert bit == half * half by { assert (2 * half) * (2 * half) == 4 * (half * half); }
    assert root / 2 == high * half by { assert high * (2 * half) == 2 * (high * half); }
    assert (high + half) * (high + half) == high * high + root + bit;
    assert (high + half) * half == root / 2 + bit;
    SquaresGrow(high + half, MAX_U32);
  }

  // ---------------------------------------------------------------- launch

  function SquaredLength(v: seq<int>): int
    requires |v| == 3
  {
    v[0] * v[0] + v[1] * v[1] + v[2] * v[2]
  }

  function CheckedAdd(a: nat, b: nat): Option<nat> {
    if a + b > MAX_U64 then None else Some(a + b)
  }

  /** `try_fold` of the squares with `checked_add`. */
  function SumOfSquares(look: seq<Int16>, total: nat): (sum: Option<nat>)
    decreases |look|
  {
    if |look| == 0 then Some(total)
    else
      var c := look[0] as int;
      match CheckedAdd(total, c * c)
      case None => None
      case Some(more) => SumOfSquares(look[1..], more)
  }

  function Components(look: seq<Int16>): (v: seq<int>)
    ensures |v| == |look|
  {
    seq(|look|, i requires 0 <= i < |look| => look[i] as int)
  }

  /** Rust's division of integers truncates toward zero. */
  function TruncatingDiv(a: int, b: int): int
    requires b > 0
  {
    if a >= 0 then a / b else -((-a) / b)
  }

  predicate FitsI32(n: int) {
    -0x8000_0000 <= n <= 0x7FFF_FFFF
  }

  lemma SumIsSquaredLength(look: seq<Int16>)
    requires |look| == 3
    ensures SumOfSquares(look, 0) == Some(SquaredLength(Components(look)))
    ensures 0 <= SquaredLength(Components(look))
  {
    ComponentSquare(look[0]);
    ComponentSquare(look[1]);
    ComponentSquare(look[2]);
    var x, y, z := look[0] as int, look[1] as int, look[2] as int;
    calc {
      SumOfSquares(look, 0);
      SumOfSquares(look[1..], x * x);
      SumOfSquares(look[1..][1..], x * x + y * y);
      { assert look[1..][1..][0] == look[2]; }
      SumOfSquares(look[1..][1..][1..], x * x + y * y + z * z);
    }
  }

  lemma ComponentSquare(c: Int16)
    ensures 0 <= (c as int) * (c as int) <= 0x4000_0000
  {
    var a := if c >= 0 then c as int else -(c as int);
    SquaresGrow(a, 0x8000);
  }

  function Magnitude(n: int): nat {
    if n < 0 then -n else n
  }

  predicate ScaledSize(w: nat, a: nat, length: nat) {
    w * length <= 14_000 * a < (w + 1) * length
  }

  /** A scaled component: the look's, stretched to length 14000 and truncated toward zero. */
  predicate Scaled(v: int, c: int, length: nat) {
    && ScaledSize(Magnitude(v), Magnitude(c), length)
    && (v > 0 ==> c > 0)
    && (v < 0 ==> c < 0)
  }

  lemma DivisionScales(c: int, length: nat)
    requires length > 0
    ensures Scaled(TruncatingDiv(c * 14_000, length), c, length)
  {
    hide TruncatingDiv;
    TruncationShrinks(c * 14_000, length);
    var w, a := Magnitude(TruncatingDiv(c * 14_000, length)), Magnitude(c * 14_000);
    assert w * length <= a < (w + 1) * length;
    assert a == 14_000 * Magnitude(c);
  }

  lemma TruncationShrinks(a: int, b: int)
    requires b > 0
    ensures var q := TruncatingDiv(a, b);
      && Magnitude(q) * b <= Magnitude(a) < (Magnitude(q) + 1) * b
      && (q > 0 ==> a > 0)
      && (q < 0 ==> a < 0)
  {
    QuotientBounds(Magnitude(a), b);
  }

  lemma QuotientBounds(a: nat, b: nat)
    requires b > 0
    ensures a / b >= 0 && (a == 0 ==> a / b == 0)
    ensures a / b * b <= a < (a / b + 1) * b
  {
  }

  /** No component is longer than the integer root of the squared length. */
  lemma ComponentBelowRoot(a: nat, squared: nat, length: nat)
    requires a * a <= squared && IsRoot(squared, length)
    ensures a <= length
  {
    if a > length { SquaresGrow(length + 1, a); }
  }

  lemma SquareOfProduct(a: nat, b: nat)
    ensures (a * b) * (a * b) == (a * a) * (b * b)
  {
  }

  /** One component's share of the upper bound on the speed. */
  lemma ShareAbove(w: nat, a: nat, length: nat)
    requires ScaledSize(w, a, length)
    ensures (w * w) * (length * length) <= 196_000_000 * (a * a)
  {
    SquaresGrow(w * length, 14_000 * a);
    SquareOfProduct(w, length);
    assert (14_000 * a) * (14_000 * a) == 196_000_000 * (a * a);
  }

  /** One component's share of the lower bound. */
  lemma ShareBelow(w: nat, a: nat, length: nat)
    requires ScaledSize(w, a, length)
    ensures 196_000_000 * (a * a) <= (w * w + 2 * w + 1) * (length * length)
  {
    SquaresGrow(14_000 * a, (w + 1) * length);
    SquareOfProduct(w + 1, length);
    assert (14_000 * a) * (14_000 * a) == 196_000_000 * (a * a);
    assert (w + 1) * (w + 1) == w * w + 2 * w + 1;
  }

  lemma ProductsGrow(a: int, b: int, factor: nat)
    requires a <= b
    ensures a * factor <= b * factor
  {
  }

  lemma CancelFactor(a: int, b: int, factor: nat)
    requires a * factor <= b * factor && factor > 0
    ensures a <= b
  {
    if a > b { ProductsGrow(b + 1, a, factor); }
  }

  /** Truncation and the integer root together miss the intended speed by little. */
  lemma SpeedBounds(x: nat, y: nat, z: nat, u: nat, v: nat, w: nat, squared: nat, length: nat)
    requires squared == x * x + y * y + z * z && IsRoot(squared, length) && length >= 500
    requires ScaledSize(u, x, length) && ScaledSize(v, y, length) && ScaledSize(w, z, length)
    ensures 13_998 * 13_998 < u * u + v * v + w * w < 14_028 * 14_028
  {
    hide ScaledSize;
    var speed := u * u + v * v + w * w;
    SpeedAbove(x, y, z, u, v, w, squared, length);
    SpeedBelow(x, y, z, u, v, w, squared, length);
    SumOfThree(u, v, w);
    if u + v + w >= 24_300 { SquaresGrow(24_300, u + v + w); }
  }

  lemma SpeedAbove(x: nat, y: nat, z: nat, u: nat, v: nat, w: nat, squared: nat, length: nat)
    requires squared == x * x + y * y + z * z && IsRoot(squared, length) && length >= 500
    requires ScaledSize(u, x, length) && ScaledSize(v, y, length) && ScaledSize(w, z, length)
    ensures u * u + v * v + w * w < 14_028 * 14_028
  {
    hide ScaledSize;
    var speed, area := u * u + v * v + w * w, length * length;
    ShareAbove(u, x, length);
    ShareAbove(v, y, length);
    ShareAbove(w, z, length);
    Distribute(u * u, v * v, w * w, area);
    RootRatio(length);
    BoundSpeed(speed, area, squared, (length + 1) * (length + 1));
  }

  lemma BoundSpeed(speed: nat, area: nat, squared: nat, next: nat)
    requires speed * area <= 196_000_000 * squared && squared < next && 250_000 * next <= 251_001 * area
    ensures speed < 14_028 * 14_028
  {
    assert speed * area < 196_784_784 * area;
    if speed >= 196_784_784 { ProductsGrow(196_784_784, speed, area); }
  }

  lemma Distribute(a: nat, b: nat, c: nat, factor: nat)
    ensures (a + b + c) * factor == a * factor + b * factor + c * factor
  {
  }

  lemma RootRatio(length: nat)
    requires length >= 500
    ensures 250_000 * ((length + 1) * (length + 1)) <= 251_001 * (length * length)
  {
    SquaresGrow(500 * (length + 1), 501 * length);
    assert (500 * (length + 1)) * (500 * (length + 1)) == 250_000 * ((length + 1) * (length + 1));
    assert (501 * length) * (501 * length) == 251_001 * (length * length);
  }

  lemma SpeedBelow(x: nat, y: nat, z: nat, u: nat, v: nat, w: nat, squared: nat, length: nat)
    requires squared == x * x + y * y + z * z && IsRoot(squared, length) && length >= 500
    requires ScaledSize(u, x, length) && ScaledSize(v, y, length) && ScaledSize(w, z, length)
    ensures 196_000_000 <= u * u + v * v + w * w + 2 * (u + v + w) + 3
  {
    hide ScaledSize;
    var area := length * length;
    var a, b, c := u * u + 2 * u + 1, v * v + 2 * v + 1, w * w + 2 * w + 1;
    ShareBelow(u, x, length);
    ShareBelow(v, y, length);
    ShareBelow(w, z, length);
    assert 196_000_000 * area <= (a + b + c) * area by { Distribute(a, b, c, area); }
    CancelFactor(196_000_000, a + b + c, area);
  }

  /** The mean of three numbers is at most their root mean square. */
  lemma SumOfThree(u: nat, v: nat, w: nat)
    ensures (u + v + w) * (u + v + w) <= 3 * (u * u + v * v + w * w)
  {
    SquareOfDifference(u, v);
    SquareOfDifference(v, w);
    SquareOfDifference(u, w);
    assert (u + v + w) * (u + v + w) == u * u + v * v + w * w + 2 * (u * v) + 2 * (v * w) + 2 * (u * w);
  }

  lemma SquareOfDifference(a: int, b: int)
    ensures 2 * (a * b) <= a * a + b * b
  {
    var d := a - b;
    assert d * d >= 0;
    assert d * d == a * a - 2 * (a * b) + b * b;
  }

  /** The look stretched to length 14000, component by component. */
  ghost predicate Stretched(look: seq<Int16>, level: seq<int>, length: nat)
    requires |look| == 3
  {
    |level| == 3 && forall i :: 0 <= i < 3 ==> Scaled(level[i], look[i] as int, length)
  }

  /** The conversions to i32 never fail. */
  lemma StretchedFits(look: seq<Int16>, i: nat, v: int, length: nat)
    requires |look| == 3 && i < 3 && Scaled(v, look[i] as int, length)
    requires IsRoot(SquaredLength(Components(look)), length) && length > 0
    ensures -14_000 <= v <= 14_000
  {
    hide IsRoot;
    var a := Magnitude(look[i] as int);
    ComponentSquare(look[0]);
    ComponentSquare(look[1]);
    ComponentSquare(look[2]);
    assert a * a == (look[i] as int) * (look[i] as int) by { NegatedProduct(look[i] as int); }
    ComponentBelowRoot(a, SquaredLength(Components(look)), length);
    assert Magnitude(v) * length <= 14_000 * length;
    CancelFactor(Magnitude(v), 14_000, length);
  }

  lemma NegatedProduct(a: int)
    ensures (-a) * (-a) == a * a
  {
  }

  lemma StretchedSpeed(look: seq<Int16>, level: seq<int>, length: nat)
    requires |look| == 3 && Stretched(look, level, length)
    requires SquaredLength(Components(look)) >= 250_000 && IsRoot(SquaredLength(Components(look)), length)
    ensures 13_998 * 13_998 < SquaredLength(level) < 14_028 * 14_028
  {
    hide IsRoot;
    forall n: int ensures Magnitude(n) * Magnitude(n) == n * n { NegatedProduct(n); }
    var x, y, z := Magnitude(look[0] as int), Magnitude(look[1] as int), Magnitude(look[2] as int);
    assert length >= 500 by { RootAtLeast(SquaredLength(Components(look)), length, 500); }
    assert Scaled(level[0], look[0] as int, length) && Scaled(level[1], look[1] as int, length)
           && Scaled(level[2], look[2] as int, length);
    SpeedBounds(x, y, z, Magnitude(level[0]), Magnitude(level[1]), Magnitude(level[2]), SquaredLength(Components(look)),
                length);
  }

  lemma RootAtLeast(value: nat, r: nat, least: nat)
    requires IsRoot(value, r) && least * least <= value
    ensures least <= r
  {
    if r < least { SquaresGrow(r + 1, least); }
  }

  /** What a cast's velocity promises: the look's direction at close to speed 14, and 3 upward. */
  ghost predicate Launched(look: seq<Int16>, velocity: seq<int>)
    requires |look| == 3
  {
    && |velocity| == 3
    && (forall i :: 0 <= i < 3 ==> FitsI32(velocity[i]))
    && var level := velocity[1 := velocity[1] - 3_000];
       && 13_998 * 13_998 < SquaredLength(level) < 14_028 * 14_028
       && forall length: nat, i :: IsRoot(SquaredLength(Components(look)), length) && 0 <= i < 3
            ==> Scaled(level[i], look[i] as int, length)
  }

  lemma StretchedIsLaunched(look: seq<Int16>, level: seq<int>, length: nat)
    requires |look| == 3 && Stretched(look, level, length) && length > 0
    requires SquaredLength(Components(look)) >= 250_000 && IsRoot(SquaredLength(Components(look)), length)
    ensures FitsI32(level[1] + 3_000) && Launched(look, level[1 := level[1] + 3_000])
  {
    hide IsRoot, Scaled, SquaredLength, Components;
    var velocity := level[1 := level[1] + 3_000];
    assert velocity[1 := velocity[1] - 3_000] == level;
    StretchedSpeed(look, level, length);
    forall i | 0 <= i < 3 ensures FitsI32(velocity[i]) {
      StretchedFits(look, i, level[i], length);
    }
    forall other: nat | IsRoot(SquaredLength(Components(look)), other) ensures other == length {
      RootIsUnique(SquaredLength(Components(look)), other, length);
    }
  }

  /** A velocity exists exactly for looks of squared length from 250000 to 1210000. */
  method LaunchVelocity(look: seq<Int16>) returns (launch: Option<seq<int>>)
    requires |look| == 3
    ensures launch.Some? <==> 250_000 <= SquaredLength(Components(look)) <= 1_210_000
    ensures launch.Some? ==> Launched(look, launch.value)
  {
    hide IsRoot, Scaled, SquaredLength, Components, Launched, TruncatingDiv;
    SumIsSquaredLength(look);
    var sum := SumOfSquares(look, 0);
    if sum.None? || !(250_000 <= sum.value <= 1_210_000) { return None; }
    var root, _ := IntegerSqrt(sum.value);
    RootAtLeast(sum.value, root, 500);
    var length := if root < 1 then 1 else root;
    var velocity := [0, 0, 0];
    for i := 0 to 3
      invariant |velocity| == 3 && forall k :: 0 <= k < i ==> Scaled(velocity[k], look[k] as int, length)
    {
      var scaled := TruncatingDiv((look[i] as int) * 14_000, length);
      DivisionScales(look[i] as int, length);
      StretchedFits(look, i, scaled, length);
      if !FitsI32(scaled) { return None; }
      velocity := velocity[i := scaled];
    }
    StretchedIsLaunched(look, velocity, length);
    if !FitsI32(velocity[1] + 3_000) { return None; }
    return Some(velocity[1 := velocity[1] + 3_000]);
  }
}
