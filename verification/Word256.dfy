/**
 256-bit words and the operations of calldata arithmetic on them.
 */
module Word256 {
  import opened Common

  const WordBits: nat := 256
  const TwoTo64: nat := 0x1_0000_0000_0000_0000
  const TwoTo255: nat := 0x8000000000000000000000000000000000000000000000000000000000000000
  const TwoTo256: nat := 0x10000000000000000000000000000000000000000000000000000000000000000

  type U256 = x: nat | x < TwoTo256

  datatype Operation =
    | Addition | Subtraction | Multiplication | Division
    | BitwiseAnd | BitwiseOr | BitwiseXor
    | ShiftLeft | ShiftRight

  /** The value of `left op right`; none when an arithmetic operation leaves the word, a divisor is
      zero, or a shift distance does not fit 64 bits. */
  function Apply(op: Operation, left: U256, right: U256): Option<U256> {
    match op
    case Addition => Checked(left + right)
    case Subtraction => Checked(left - right)
    case Multiplication => Checked(left * right)
    case Division => if right == 0 then None else Some(Quotient(left, right))
    case BitwiseAnd => Some(BitwiseWord(op, left, right))
    case BitwiseOr => Some(BitwiseWord(op, left, right))
    case BitwiseXor => Some(BitwiseWord(op, left, right))
    case ShiftLeft => if right < TwoTo64 then Some((left * Pow2(right)) % TwoTo256) else None
    case ShiftRight => if right < TwoTo64 then Some(Quotient(left, Pow2(right))) else None
  }

  function Checked(value: int): Option<U256> {
    if 0 <= value < TwoTo256 then Some(value) else None
  }

  /** The quotient rounded down. */
  function Quotient(left: U256, divisor: nat): (r: U256)
    requires divisor > 0
    ensures r * divisor <= left < r * divisor + divisor
  {
    QuotientBounds(left, divisor);
    left / divisor
  }

  lemma QuotientBounds(a: nat, b: nat)
    requires b > 0
    ensures 0 <= a / b <= a
    ensures (a / b) * b <= a < (a / b) * b + b
  {
    EuclideanDivision(a, b);
    FactorBound(a / b, b, a % b, a);
  }

  lemma EuclideanDivision(a: nat, b: nat)
    requires b > 0
    ensures a == (a / b) * b + a % b && 0 <= a % b < b
  {
  }

  lemma FactorBound(q: nat, b: nat, r: nat, a: nat)
    requires b > 0 && a == q * b + r
    ensures q <= a
  {
    if q > 0 {
      assert q * b == q + q * (b - 1);
    }
  }

  lemma NonzeroMultiple(d: int, m: nat)
    ensures d >= 1 ==> d * m >= m
    ensures d <= -1 ==> d * m + m <= 0
  {
    if d >= 1 {
      assert d * m == (d - 1) * m + m;
    } else if d <= -1 {
      assert d * m + m == (d + 1) * m;
    }
  }

  /** Quotient and remainder are unique. */
  lemma UniqueDivision(m: nat, q: int, r: nat, q': int, r': nat)
    requires r < m && r' < m && q * m + r == q' * m + r'
    ensures q == q' && r == r'
  {
    var d := q - q';
    assert d * m == r' - r;
    NonzeroMultiple(d, m);
  }

  lemma DivisionIs(a: nat, m: nat, q: nat, r: nat)
    requires r < m && a == q * m + r
    ensures a / m == q && a % m == r
  {
    EuclideanDivision(a, m);
    UniqueDivision(m, q, r, a / m, a % m);
  }

  function Pow2(n: nat): (p: nat)
    ensures p > 0
  {
    if n == 0 then 1 else 2 * Pow2(n - 1)
  }

  lemma Pow2Of4(n: nat)
    requires n >= 4
    ensures Pow2(n) == 0x10 * Pow2(n - 4)
  {
    assert Pow2(n - 1) == 2 * Pow2(n - 2) && Pow2(n - 3) == 2 * Pow2(n - 4);
  }

  lemma Pow2Of16(n: nat)
    requires n >= 16
    ensures Pow2(n) == 0x1_0000 * Pow2(n - 16)
  {
    Pow2Of4(n);
    Pow2Of4(n - 4);
    Pow2Of4(n - 8);
    Pow2Of4(n - 12);
  }

  lemma Pow2Of64(n: nat)
    requires n >= 64
    ensures Pow2(n) == TwoTo64 * Pow2(n - 64)
  {
    Pow2Of16(n);
    Pow2Of16(n - 16);
    Pow2Of16(n - 32);
    Pow2Of16(n - 48);
  }

  lemma Pow2OfWord(n: nat)
    requires n >= 256
    ensures Pow2(n) == TwoTo256 * Pow2(n - 256)
  {
    Pow2Of64(n);
    Pow2Of64(n - 64);
    Pow2Of64(n - 128);
    Pow2Of64(n - 192);
  }

  /** Shifts by a whole word or more leave nothing. */
  lemma LongShiftsVanish(left: U256, right: U256)
    requires 256 <= right < TwoTo64
    ensures Apply(ShiftLeft, left, right) == Some(0)
    ensures Apply(ShiftRight, left, right) == Some(0)
  {
    var rest := Pow2(right - 256);
    Pow2OfWord(right);
    assert left * Pow2(right) == (left * rest) * TwoTo256;
    DivisionIs(left * Pow2(right), TwoTo256, left * rest, 0);
    DivisionIs(left, Pow2(right), 0, left);
  }

  // ---------------------------------------------------------------- bits

  predicate Bit(a: nat, i: nat) {
    if i == 0 then a % 2 == 1 else Bit(a / 2, i - 1)
  }

  predicate OnBits(op: Operation, a: bool, b: bool) {
    match op
    case BitwiseAnd => a && b
    case BitwiseOr => a || b
    case _ => a != b
  }

  function Bitwise(op: Operation, a: nat, b: nat, width: nat): (r: nat)
    ensures r < Pow2(width)
  {
    if width == 0 then 0
    else
      2 * Bitwise(op, a / 2, b / 2, width - 1) + (if OnBits(op, a % 2 == 1, b % 2 == 1) then 1 else 0)
  }

  function BitwiseWord(op: Operation, a: U256, b: U256): U256 {
    var width := WordBits;
    Pow2OfWord(width);
    Bitwise(op, a, b, width)
  }

  /** Each bit of the result depends on the same bit of the operands. */
  lemma {:induction false} BitwiseAt(op: Operation, a: nat, b: nat, width: nat, i: nat)
    requires i < width
    ensures Bit(Bitwise(op, a, b, width), i) <==> OnBits(op, Bit(a, i), Bit(b, i))
  {
    var low := if OnBits(op, a % 2 == 1, b % 2 == 1) then 1 else 0;
    var high := Bitwise(op, a / 2, b / 2, width - 1);
    assert (2 * high + low) / 2 == high && (2 * high + low) % 2 == low;
    if i > 0 {
      BitwiseAt(op, a / 2, b / 2, width - 1, i - 1);
    }
  }

  // The word is there, and this is its bit.
  predicate HasBit(word: Option<U256>, i: nat, bit: bool) { word.Some? && Bit(word.value, i) == bit }

  /** Bit `i` of a number is its digit of weight 2^i. */
  lemma {:induction false} BitIsDigit(a: nat, i: nat)
    ensures Bit(a, i) <==> a / Pow2(i) % 2 == 1
    decreases i
  {
    if i > 0 {
      BitIsDigit(a / 2, i - 1);
      HalveAndDivide(a, Pow2(i - 1));
    } else {
      DivisionIs(a, 1, a, 0);
    }
  }

  lemma HalveAndDivide(a: nat, d: nat)
    requires d > 0
    ensures a / 2 / d == a / (2 * d)
  {
    var q, r := a / 2 / d, a / 2 % d;
    EuclideanDivision(a / 2, d);
    EuclideanDivision(a, 2);
    assert q * (2 * d) == 2 * (q * d);
    DivisionIs(a, 2 * d, q, 2 * r + a % 2);
  }

  /** The arithmetic operations are exact or fail: with more than 256 bits, below zero, or by zero. */
  lemma ArithmeticIsExact(left: U256, right: U256)
    ensures Apply(Addition, left, right) == if left + right < TwoTo256 then Some(left + right) else None
    ensures Apply(Subtraction, left, right) == if left < right then None else Some(left - right)
    ensures Apply(Multiplication, left, right) == if left * right < TwoTo256 then Some(left * right) else None
    ensures Apply(Division, left, right).None? <==> right == 0
    ensures right > 0 ==> var q := Apply(Division, left, right).value; q * right <= left < q * right + right
  {
    assert 0 <= left * right;
  }

  /** The bitwise operations, bit by bit. */
  lemma BitwiseIsExact(op: Operation, left: U256, right: U256, i: nat)
    requires i < 256
    ensures op.BitwiseAnd? ==> HasBit(Apply(op, left, right), i, Bit(left, i) && Bit(right, i))
    ensures op.BitwiseOr? ==> HasBit(Apply(op, left, right), i, Bit(left, i) || Bit(right, i))
    ensures op.BitwiseXor? ==> HasBit(Apply(op, left, right), i, Bit(left, i) != Bit(right, i))
  {
    BitwiseAt(op, left, right, WordBits, i);
  }

  lemma Doubled(x: nat, b: nat)
    requires b < 2
    ensures (2 * x + b) / 2 == x && (2 * x + b) % 2 == b
  {
  }

  lemma {:induction false} BitOfProduct(a: nat, distance: nat, i: nat)
    ensures Bit(a * Pow2(distance), i) <==> i >= distance && Bit(a, i - distance)
  {
    if distance > 0 {
      var half := a * Pow2(distance - 1);
      assert a * Pow2(distance) == 2 * half;
      Doubled(half, 0);
      if i > 0 {
        BitOfProduct(a, distance - 1, i - 1);
      }
    }
  }

  lemma {:induction false} BitOfRemainder(a: nat, width: nat, i: nat)
    requires i < width
    ensures Bit(a % Pow2(width), i) <==> Bit(a, i)
  {
    var half := Pow2(width - 1);
    var q, r := (a / 2) / half, (a / 2) % half;
    EuclideanDivision(a / 2, half);
    EuclideanDivision(a, 2);
    assert q * Pow2(width) == 2 * (q * half);
    DivisionIs(a, Pow2(width), q, 2 * r + a % 2);
    Doubled(r, a % 2);
    if i > 0 {
      BitOfRemainder(a / 2, width - 1, i - 1);
    }
  }

  lemma QuotientIs(a: U256, divisor: nat, q: nat, r: nat)
    requires r < divisor && a == q * divisor + r
    ensures Quotient(a, divisor) == q
  {
    DivisionIs(a, divisor, q, r);
  }

  lemma {:induction false} BitOfQuotient(a: U256, distance: nat, i: nat)
    ensures Bit(Quotient(a, Pow2(distance)), i) <==> Bit(a, i + distance)
    decreases distance
  {
    if distance == 0 {
      QuotientIs(a, 1, a, 0);
    } else {
      var half := Pow2(distance - 1);
      var q, r := Quotient(a / 2, half), a / 2 - Quotient(a / 2, half) * half;
      EuclideanDivision(a, 2);
      assert q * Pow2(distance) == 2 * (q * half);
      QuotientIs(a, Pow2(distance), q, 2 * r + a % 2);
      BitOfQuotient(a / 2, distance - 1, i);
    }
  }

  /** Shifts move every bit by the distance; what leaves the word is lost. */
  lemma ShiftsMoveBits(left: U256, right: U256, i: nat)
    requires right < TwoTo64 && i < WordBits
    ensures var l, r := Apply(ShiftLeft, left, right), Apply(ShiftRight, left, right);
      && l.Some? && (Bit(l.value, i) <==> i >= right && Bit(left, i - right))
      && r.Some? && (Bit(r.value, i) <==> Bit(left, i + right))
  {
    var width := WordBits;
    Pow2OfWord(width);
    assert Pow2(width - 256) == 1;
    BitOfProduct(left, right, i);
    BitOfRemainder(left * Pow2(right), width, i);
    BitOfQuotient(left, right, i);
  }
}
