/** 32-bit integers as on the target: two's complement, wrapping around. */
module Integers {
  const UINT_LIMIT: nat := 0x1_0000_0000
  const INT_MIN: int := -0x8000_0000
  const INT_MAX: int := 0x7FFF_FFFF

  type int32 = x: int | INT_MIN <= x <= INT_MAX

  /** What an int holds when the exact result of a computation is `x`. */
  function Wrapped(x: int): int32
    decreases if x > INT_MAX then x else if x < INT_MIN then -x else 0
  {
    if x > INT_MAX then Wrapped(x - UINT_LIMIT) else if x < INT_MIN then Wrapped(x + UINT_LIMIT) else x
  }

  /** The int with the bits of an unsigned. */
  function ToSigned(n: nat): int32
    requires n < UINT_LIMIT
  {
    if n <= INT_MAX then n else n - UINT_LIMIT
  }

  /** An int and its exact value differ by whole turns. */
  lemma {:induction false} WrappedTurns(x: int) returns (q: int)
    ensures x == Wrapped(x) + q * UINT_LIMIT
    decreases if x > INT_MAX then x else if x < INT_MIN then -x else 0
  {
    if x > INT_MAX {
      q := WrappedTurns(x - UINT_LIMIT);
      q := q + 1;
    } else if x < INT_MIN {
      q := WrappedTurns(x + UINT_LIMIT);
      q := q - 1;
    } else {
      q := 0;
    }
  }

  lemma {:induction false} WrappedShift(x: int, q: int)
    ensures Wrapped(x + q * UINT_LIMIT) == Wrapped(x)
    decreases if q < 0 then -q else q
  {
    if q > 0 {
      WrappedShift(x, q - 1);
      OneTurn(x + (q - 1) * UINT_LIMIT);
    } else if q < 0 {
      WrappedShift(x, q + 1);
      OneTurn(x + q * UINT_LIMIT);
    }
  }

  lemma {:induction false} OneTurn(x: int)
    ensures Wrapped(x + UINT_LIMIT) == Wrapped(x)
    decreases if x < INT_MIN then -x else 0
  {
    if x + UINT_LIMIT > INT_MAX {
      assert Wrapped(x + UINT_LIMIT) == Wrapped(x + UINT_LIMIT - UINT_LIMIT);
    } else {
      assert x < INT_MIN;
    }
  }

  /** Wrapping an operand first makes no difference to a sum. */
  lemma WrappedAdd(x: int, d: int)
    ensures Wrapped(x + d) == Wrapped(Wrapped(x) + d)
  {
    var q := WrappedTurns(x);
    WrappedShift(Wrapped(x) + d, q);
  }

  /** Wrapping the first operand makes no difference to the next digit's place value either. */
  lemma WrappedDigit(x: int, base: int, digit: int)
    ensures Wrapped(x * base + digit) == Wrapped(Wrapped(x) * base + digit)
  {
    var q := WrappedTurns(x);
    var w := Wrapped(x);
    assert (w + q * UINT_LIMIT) * base == w * base + (q * base) * UINT_LIMIT;
    WrappedShift(w * base + digit, q * base);
  }

  /** The remainder that unsigned arithmetic keeps has the same bits. */
  lemma WrappedIsSigned(x: int)
    ensures Wrapped(x) == ToSigned(x % UINT_LIMIT)
  {
    var q := WrappedTurns(x);
    var w := Wrapped(x);
    assert x % UINT_LIMIT == if w >= 0 then w else w + UINT_LIMIT;
  }
}
