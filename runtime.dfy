/** What the .NET runtime contributes to the core: 64-bit and 32-bit integers
    with C#'s unchecked (wrap-around) arithmetic and truncating division, and the
    exceptions the core lets escape. */
module Runtime {
  import opened Wrappers

  /** The exceptions the host throws out of the core. They are never caught by
      the core itself, so each one ends the operation that raised it. */
  datatype Exception =
    | IndexOutOfRange     // an array index outside the array
    | ArgumentOutOfRange  // a list or segment index outside the collection
    | NullReference       // a member access (`GetType()`) on a null reference
    | DivideByZero        // `long / 0`
    | Overflow            // `long.MinValue / -1`
    | DuplicateKey        // `Dictionary.Add` or an immutable dictionary `Add` of a present key
    | NotImplemented      // `NotImplementedException` thrown by the source itself

  const Two64: int := 0x1_0000_0000_0000_0000
  const MinInt64: int := -0x8000_0000_0000_0000
  const MaxInt64: int := 0x7fff_ffff_ffff_ffff

  const Two32: int := 0x1_0000_0000
  const MinInt32: int := -0x8000_0000
  const MaxInt32: int := 0x7fff_ffff

  /** C# `long`. */
  type int64 = x: int | MinInt64 <= x <= MaxInt64

  /** C# `int`. */
  type int32 = x: int | MinInt32 <= x <= MaxInt32

  /** The unchecked conversion of a mathematical integer to `long`: the unique
      `long` congruent to `x` modulo 2^64. */
  function Wrap64(x: int): (r: int64)
    ensures (r - x) % Two64 == 0
    ensures MinInt64 <= x <= MaxInt64 ==> r == x
  {
    var m := (x - MinInt64) % Two64;
    m + MinInt64
  }

  function Abs(x: int): (r: nat)
    ensures r == x || r == -x
  {
    if x < 0 then -x else x
  }

  /** C#'s `/` on integers: the quotient truncated toward zero (Dafny's `/` is
      Euclidean, so negative operands are handled explicitly). The contract
      characterises truncation: |q*b| is the largest multiple of |b| not above
      |a|, and q*b has the sign of a. */
  function TruncatedDiv(a: int, b: int): (q: int)
    requires b != 0
    ensures Abs(q) * Abs(b) <= Abs(a) < (Abs(q) + 1) * Abs(b)
    ensures q == 0 || ((q < 0) <==> ((a < 0) != (b < 0)))
  {
    var q0 := Abs(a) / Abs(b);
    EuclideanBounds(Abs(a), Abs(b));
    if (a < 0) == (b < 0) then q0 else -q0
  }

  lemma EuclideanBounds(x: nat, y: nat)
    requires y > 0
    ensures (x / y) * y <= x < (x / y + 1) * y
  {
    var q, r := x / y, x % y;
    assert x == q * y + r && 0 <= r < y;
    assert (q + 1) * y == q * y + y;
  }

  /** `long / long`: throws on a zero divisor, and on `long.MinValue / -1`, the
      one quotient that does not fit. */
  function Div64(a: int64, b: int64): (r: Result<int64, Exception>)
    ensures r.Failure? <==> b == 0 || (a == MinInt64 && b == -1)
    ensures r.Failure? ==> r.error == (if b == 0 then DivideByZero else Overflow)
    ensures r.Success? ==> r.value == TruncatedDiv(a, b)
  {
    if b == 0 then Failure(DivideByZero)
    else if a == MinInt64 && b == -1 then Failure(Overflow)
    else
      TruncatedDivFits(a, b);
      Success(TruncatedDiv(a, b))
  }

  lemma TruncatedDivFits(a: int64, b: int64)
    requires b != 0 && !(a == MinInt64 && b == -1)
    ensures MinInt64 <= TruncatedDiv(a, b) <= MaxInt64
  {
    var x, y := Abs(a), Abs(b);
    var q := Abs(TruncatedDiv(a, b));
    assert q * y <= x;
    if y == 1 {
      assert q == x;
      assert x <= MaxInt64 || a == MinInt64;
    } else {
      MulMonotone(q, 2, y);
      assert q * 2 <= x;
    }
  }

  /** Multiplying by a larger factor never gives less. */
  lemma {:induction false} MulMonotone(q: nat, y: nat, z: nat)
    requires y <= z
    ensures q * y <= q * z
    decreases q
  {
    if q > 0 {
      MulMonotone(q - 1, y, z);
      assert q * y == (q - 1) * y + y;
      assert q * z == (q - 1) * z + z;
    }
  }
}
