/** Machine integers as the C++ source uses them, and the option type used for
    `outcome::result` values whose error payload carries no information. */
module Machine {

  const U64: int := 0x1_0000_0000_0000_0000

  /** `uint64_t`. */
  type u64 = x: int | 0 <= x < U64

  /** The value a `uint64_t` holds after an arithmetic result is stored in it. */
  function Wrap(x: int): (r: u64)
    decreases if x < 0 then U64 - x else x
  {
    if x < 0 then Wrap(x + U64)
    else if x < U64 then x
    else Wrap(x - U64)
  }

  /** Wrapping is the remainder modulo 2^64. */
  lemma {:induction false} WrapIsMod(x: int)
    ensures Wrap(x) == x % U64
    decreases if x < 0 then U64 - x else x
  {
    if x < 0 {
      WrapIsMod(x + U64);
    } else if x >= U64 {
      WrapIsMod(x - U64);
    }
  }

  datatype Option<+T> = None | Some(value: T)

  datatype Errc = InvalidArgument | ValueTooLarge | ResultOutOfRange

  /** `outcome::result<T>` where the error code matters. */
  datatype Outcome<+T> = Ok(value: T) | Err(error: Errc)

  // ------------------------------------------------ division

  /** Unsigned division and remainder. */
  function Quotient(a: nat, b: nat): (q: nat)
    requires b > 0
    ensures q <= a && q * b <= a
  {
    QuotientBound(a, b);
    a / b
  }

  function Remainder(a: nat, b: nat): (r: nat)
    requires b > 0
    ensures r < b && r <= a
    ensures Quotient(a, b) * b + r == a
  {
    a % b
  }

  lemma QuotientBound(a: nat, b: nat)
    requires b > 0
    ensures 0 <= a / b <= a && (a / b) * b <= a
  {
    assert (a / b) * b <= a;
    assert a / b >= 0;
    MulLe(1, b, a / b);
  }

  lemma DivUnique(a: int, b: int, q: int)
    requires b > 0 && q * b <= a < (q + 1) * b
    ensures a / b == q
  {
    assert (a / b) * b <= a < (a / b + 1) * b;
  }

  lemma DivBounds(a: int, b: int)
    requires b > 0
    ensures (a / b) * b <= a < (a / b + 1) * b
  {
  }

  /** A common factor cancels under truncating division. */
  lemma DivCancel(a: int, b: int, c: int)
    requires b > 0 && c > 0
    ensures b * c > 0 && (a * c) / (b * c) == a / b
  {
    var q := a / b;
    assert q * b * c <= a * c < (q + 1) * b * c by {
      assert q * b <= a <= (q + 1) * b - 1;
      MulLe(q * b, a, c);
      MulLe(a + 1, (q + 1) * b, c);
      assert (a + 1) * c == a * c + c;
    }
    assert q * (b * c) == q * b * c && (q + 1) * (b * c) == (q + 1) * b * c;
    assert b * c > 0;
    DivUnique(a * c, b * c, q);
  }

  /** Truncating twice is truncating once. */
  lemma DivDiv(a: int, b: int, c: int)
    requires b > 0 && c > 0
    ensures b * c > 0 && (a / b) / c == a / (b * c)
  {
    var m := a / b;
    var q := m / c;
    assert q * c <= m <= (q + 1) * c - 1;
    MulLe(q * c, m, b);
    MulLe(m + 1, (q + 1) * c, b);
    assert q * (b * c) == (q * c) * b;
    assert (q + 1) * (b * c) == ((q + 1) * c) * b;
    assert m * b <= a < (m + 1) * b;
    assert b * c > 0;
    DivUnique(a, b * c, q);
  }

  lemma MulLe(a: int, b: int, c: int)
    requires a <= b && c >= 0
    ensures a * c <= b * c
  {
  }

  lemma DivMonotone(a: int, b: int, c: int)
    requires a <= b && c > 0
    ensures a / c <= b / c
  {
    DivBounds(a, c);
    DivBounds(b, c);
    if a / c > b / c {
      MulLe(b / c + 1, a / c, c);
    }
  }

  lemma {:induction false} WrapShift(a: int, k: int)
    ensures Wrap(a + k * U64) == Wrap(a)
    decreases if k < 0 then -k else k
  {
    WrapIsMod(a + k * U64);
    WrapIsMod(a);
  }

  lemma WrapSplit(a: int) returns (k: int)
    ensures a == Wrap(a) + k * U64
  {
    WrapIsMod(a);
    k := a / U64;
  }

  lemma WrapTimes(a: int, b: int)
    ensures Wrap(Wrap(a) * b) == Wrap(a * b)
  {
    var k := WrapSplit(a);
    Distribute(Wrap(a), k, U64, b);
    WrapShift(Wrap(a) * b, k * b);
  }

  lemma FactorLe(a: int, c: int, product: int)
    requires a >= 0 && c >= 1 && a * c == product
    ensures a <= product
  {
    MulLe(1, c, a);
  }

  lemma Regroup(w: int, p: int, s: int, r: int)
    ensures (w * p + s) * r == w * (p * r) + s * r
  {
  }

  lemma Distribute(r: int, k: int, m: int, b: int)
    ensures (r + k * m) * b == r * b + (k * b) * m
  {
  }

  lemma WrapSum(a: int, b: int)
    ensures Wrap(Wrap(a) + Wrap(b)) == Wrap(a + b)
    ensures Wrap(Wrap(a) + b) == Wrap(a + b)
  {
    var p := WrapSplit(a);
    var q := WrapSplit(b);
    WrapShift(Wrap(a) + Wrap(b), p + q);
    WrapShift(Wrap(a) + b, p);
  }
}
