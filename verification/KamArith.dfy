/**
 Multiplication of tagged 31-bit integers on 32-bit words, by chunks of 15 bits. The checked
 operations demand that their result fits in 32 bits, so that using one is a proof that it does.
 */
module KamArith {
  const CHUNK := 0x8000
  const MAX_CHUNK := CHUNK - 1
  const MIN31 := -0x4000_0000
  const MAX31 := 0x3FFF_FFFF

  predicate Is31(v: int) { MIN31 <= v <= MAX31 }

  predicate Is32(v: int) { -0x8000_0000 <= v <= 0x7FFF_FFFF }

  /** What is left of a number in a 32-bit word. */
  function Wrap(v: int): (r: int)
    ensures Is32(r) && (Is32(v) ==> r == v)
  {
    (v + 0x8000_0000) % 0x1_0000_0000 - 0x8000_0000
  }

  function Neg(a: int): int requires Is32(a) && Is32(-a) { -a }

  function Add(a: int, b: int): int requires Is32(a) && Is32(b) && Is32(a + b) { a + b }

  function Mul(a: int, b: int): int requires Is32(a) && Is32(b) && Is32(a * b) { a * b }

  /** Tagging, which loses the top bit of a number that does not fit in 31. */
  function Tag(v: int): int { Wrap(2 * v + 1) }

  /** Untagging, an arithmetic shift. */
  function Untag(t: int): int { t / 2 }

  lemma TagRoundTrip(v: int)
    requires Is32(v)
    ensures Untag(Tag(v)) == v <==> Is31(v)
  {
  }

  function Abs(v: int): nat { if v < 0 then -v else v }

  /** Two numbers that are 2^15 in size and differ in sign: their product fits but is refused. */
  predicate Refused(x: int, y: int) {
    (x == CHUNK && y == -CHUNK) || (x == -CHUNK && y == CHUNK)
  }

  lemma SizeOfProduct(x: int, y: int)
    ensures Abs(x * y) == Abs(x) * Abs(y)
    ensures x * y == if (x < 0) != (y < 0) then -(Abs(x) * Abs(y)) else Abs(x) * Abs(y)
  {
    assert (-x) * y == -(x * y) && x * (-y) == -(x * y) && (-x) * (-y) == x * y;
  }

  lemma MulBounds(a: nat, b: nat, m: nat, n: nat)
    requires a <= m && b <= n
    ensures a * b <= m * n
  {
    assert a * b <= m * b by { assert (m - a) * b >= 0; }
    assert m * b <= m * n by { assert m * (n - b) >= 0; }
  }

  lemma MulLower(a: nat, b: nat, m: nat, n: nat)
    requires m <= a && n <= b
    ensures m * n <= a * b
  {
    MulBounds(m, n, a, b);
  }

  /** The product by chunks: high part times `y`, shifted, plus low part times `y`. */
  lemma Chunks(x: nat, y: nat)
    ensures x * y == (x / CHUNK) * y * CHUNK + (x % CHUNK) * y
  {
    var h, l := x / CHUNK, x % CHUNK;
    assert x == h * CHUNK + l;
    assert x * y == h * CHUNK * y + l * y;
    assert h * CHUNK * y == h * y * CHUNK;
  }

  lemma BothLarge(x: nat, y: nat)
    requires CHUNK <= y <= x
    ensures x * y > -MIN31 || (x == CHUNK && y == CHUNK)
  {
    if x > CHUNK {
      MulLower(x, y, CHUNK + 1, CHUNK);
    }
  }

  lemma OneLarge(x: nat, y: nat)
    requires x <= -MIN31 && y <= MAX_CHUNK
    ensures var h, l := x / CHUNK, x % CHUNK;
      && h * y <= CHUNK * MAX_CHUNK && l * y <= MAX_CHUNK * MAX_CHUNK
      && x * y == h * y * CHUNK + l * y
  {
    Chunks(x, y);
    MulBounds(x / CHUNK, y, CHUNK, MAX_CHUNK);
    MulBounds(x % CHUNK, y, MAX_CHUNK, MAX_CHUNK);
  }

  /** The product of two sizes by chunks, `y` the smaller. It does not fit where the code raises
      Overflow before it has the product. */
  method MulChunks(x: nat, y: nat) returns (fits: bool, r: int)
    requires y <= x <= -MIN31
    ensures fits ==> r == x * y && Is32(r) && !(x == CHUNK && y == CHUNK)
    ensures !fits ==> x * y > -MIN31 || (x == CHUNK && y == CHUNK)
  {
    if y > MAX_CHUNK {
      BothLarge(x, y);
      return false, 0;
    }
    if x <= MAX_CHUNK {
      MulBounds(x, y, MAX_CHUNK, MAX_CHUNK);
      return true, Mul(x, y);
    }
    fits, r := MulHalves(x, y);
  }

  /** One factor is small: multiply the halves of the other by it. */
  method MulHalves(x: nat, y: nat) returns (fits: bool, r: int)
    requires x <= -MIN31 && y <= MAX_CHUNK
    ensures fits ==> r == x * y && Is32(r)
    ensures !fits ==> x * y > -MIN31
  {
    OneLarge(x, y);
    ProductNat(x / CHUNK, y);
    ProductNat(x % CHUNK, y);
    fits, r := Combine(Mul(x / CHUNK, y), Mul(x % CHUNK, y));
  }

  lemma ProductNat(a: nat, b: nat)
    ensures a * b >= 0
  {
  }

  /** Put the two partial products together, unless the high one is too large. */
  method Combine(high: nat, low: nat) returns (fits: bool, r: int)
    requires high <= CHUNK * MAX_CHUNK && low <= MAX_CHUNK * MAX_CHUNK
    ensures fits ==> r == high * CHUNK + low && Is32(r)
    ensures !fits ==> high * CHUNK + low > -MIN31
  {
    if high > MAX_CHUNK + 1 {
      return false, 0;
    }
    return true, Add(Mul(high, CHUNK), low);
  }

  /** The product, unless the code raises Overflow before it has it. */
  method MulSigned(a: int, b: int) returns (fits: bool, r: int)
    requires Is31(a) && Is31(b)
    ensures fits ==> r == a * b && Is32(r) && !Refused(a, b)
    ensures !fits ==> !Is31(a * b) || Refused(a, b)
  {
    var x, y := a, b;
    var isNegative := false;
    if x < 0 {
      x := Neg(x);
      isNegative := true;
    }
    if y < 0 {
      y := Neg(y);
      isNegative := !isNegative;
    }
    if y > x {
      x, y := y, x;
    }
    fits, r := MulChunks(x, y);
    SignedProduct(a, b, x, y);
    if fits && isNegative {
      r := Neg(r);
    }
  }

  lemma SignedProduct(a: int, b: int, x: nat, y: nat)
    requires (x == Abs(a) && y == Abs(b)) || (x == Abs(b) && y == Abs(a))
    ensures a * b == if (a < 0) != (b < 0) then -(x * y) else x * y
  {
    SizeOfProduct(a, b);
    assert Abs(a) * Abs(b) == Abs(b) * Abs(a);
  }

  /** The refused products are ones that fit. */
  lemma RefusedFits(x: int, y: int)
    requires Refused(x, y)
    ensures Is31(x) && Is31(y) && Is31(x * y)
  {
    assert x * y == -(CHUNK * CHUNK) && CHUNK * CHUNK == -MIN31;
  }

  /** PRIM_MUL_I31 on tagged operands. Where both sizes are below 2^15 the code leaves out the last
      test, which then cannot fail. */
  method MulI31(a: int, b: int) returns (overflow: bool, acc: int)
    requires Is31(Untag(a)) && Is31(Untag(b))
    ensures var p := Untag(a) * Untag(b);
      && (overflow <==> !Is31(p) || Refused(Untag(a), Untag(b)))
      && (!overflow ==> acc == 2 * p + 1)
  {
    var fits, temp := MulSigned(Untag(a), Untag(b));
    if !fits {
      return true, 0;
    }
    TagRoundTrip(temp);
    acc := Tag(temp);
    overflow := Untag(acc) != temp;
  }
}
