/** Token amounts in minions (10^-6 GNUS): the processing cost at a price, the
    exchange with child tokens, and the split of an escrow payout. */
module TokenAmount {
  import opened Machine
  import opened ScaledInteger

  const PRECISION: nat := 6
  const PRICE_PER_FLOP: nat := 500
  const PRICE_FRACTIONAL_DIGITS: nat := 15
  const FLOPS_PER_BYTE: nat := 20
  const MIN_MINION_UNITS: u64 := 1
  const MINIONS: int := 1_000_000

  /** `TokenAmount::Multiply`. */
  function Times(a: u64, b: u64): Outcome<u64> {
    ScaleSix();
    Multiply(a, b, PRECISION)
  }

  lemma ScaleSix()
    ensures ScaleFactor(6) == Pow10(6) == MINIONS
  {
    ScaleExact(6);
    assert Pow10(6) == 1000 * Pow10(3) && Pow10(3) == 1000;
  }

  // ------------------------------------------------ processing cost

  /** The price as a scaled integer: a price of exactly `micro` millionths of a
      dollar at a precision of at least six, refused when 64 bits cannot hold it. */
  function PriceAt(micro: u64, prec: nat): Option<u64>
    requires prec >= PRECISION
  {
    var p := micro * Pow10(prec - PRECISION);
    if p < U64 then Some(p) else None
  }

  /** One round of the precision search; `None` stands for `continue`. */
  function CostAt(bytes: u64, micro: u64, prec: nat): Option<u64>
    requires PRECISION <= prec <= PRICE_FRACTIONAL_DIGITS
  {
    var scaled := Quotient(bytes * PRICE_PER_FLOP * FLOPS_PER_BYTE, Pow10(PRICE_FRACTIONAL_DIGITS - prec));
    if scaled >= U64 then None
    else
      var price := PriceAt(micro, prec);
      if price.None? then None
      else
        var r := Divide(scaled, price.value, prec);
        if r.Err? then None else Some(r.value)
  }

  /** The first precision, from `prec` down to six, at which a round succeeds. */
  function StopsAt(bytes: u64, micro: u64, prec: nat): (r: Option<nat>)
    requires PRECISION <= prec <= PRICE_FRACTIONAL_DIGITS
    ensures r.Some? ==> PRECISION <= r.value <= prec && CostAt(bytes, micro, r.value).Some?
    ensures r.None? ==> forall p :: PRECISION <= p <= prec ==> CostAt(bytes, micro, p).None?
  {
    if CostAt(bytes, micro, prec).Some? then Some(prec)
    else if prec == PRECISION then None
    else StopsAt(bytes, micro, prec - 1)
  }

  /** `CalculateCostMinions` for a price of exactly `micro` millionths of a dollar. */
  function Cost(bytes: u64, micro: u64): Outcome<u64> {
    var stop := StopsAt(bytes, micro, PRICE_FRACTIONAL_DIGITS);
    if stop.None? then Err(ValueTooLarge)
    else
      var minions := Minions(bytes, micro, stop.value);
      Ok(if minions < MIN_MINION_UNITS then MIN_MINION_UNITS else minions)
  }

  /** The cost found at precision `prec`, brought down to minions. */
  function Minions(bytes: u64, micro: u64, prec: nat): u64
    requires PRECISION <= prec <= PRICE_FRACTIONAL_DIGITS
    requires CostAt(bytes, micro, prec).Some?
  {
    ScaleExact(prec - PRECISION);
    if prec == PRECISION then CostAt(bytes, micro, prec).value
    else Quotient(CostAt(bytes, micro, prec).value, ScaleFactor(prec - PRECISION))
  }

  method CalculateCostMinions(bytes: u64, micro: u64) returns (r: Outcome<u64>)
    ensures r == Cost(bytes, micro)
  {
    hide Divide, PriceAt, Quotient, ScaleFactor;
    var product := bytes * PRICE_PER_FLOP * FLOPS_PER_BYTE;
    var divisor: nat := 1;
    var found: Option<u64> := None;
    var prec := PRICE_FRACTIONAL_DIGITS;
    while prec >= PRECISION && found.None?
      invariant PRECISION - 1 <= prec <= PRICE_FRACTIONAL_DIGITS
      invariant found.Some? ==> prec >= PRECISION && found == CostAt(bytes, micro, prec)
      invariant found.Some? ==> StopsAt(bytes, micro, PRICE_FRACTIONAL_DIGITS) == Some(prec)
      invariant found.None? ==> divisor == Pow10(PRICE_FRACTIONAL_DIGITS - prec)
      invariant found.None? && prec < PRECISION ==> StopsAt(bytes, micro, PRICE_FRACTIONAL_DIGITS) == None
      invariant found.None? && prec >= PRECISION ==>
        StopsAt(bytes, micro, PRICE_FRACTIONAL_DIGITS) == StopsAt(bytes, micro, prec)
      decreases prec, found.None?
    {
      var scaled := Quotient(product, divisor);
      divisor := divisor * 10;
      if scaled < U64 {
        var price := PriceAt(micro, prec);
        if price.Some? {
          var quotient := Divide(scaled, price.value, prec);
          if quotient.Ok? {
            found := Some(quotient.value);
          }
        }
      }
      if found.None? {
        prec := prec - 1;
      }
    }
    if found.None? {
      return Err(ValueTooLarge);
    }
    ScaleExact(prec - PRECISION);
    var minions := ConvertPrecision(found.value, prec, PRECISION);
    var raw := minions.value;
    r := Ok(if raw < MIN_MINION_UNITS then MIN_MINION_UNITS else raw);
  }

  /** Ten minions per dollar and byte, without machine arithmetic. */
  function ExactMinions(bytes: nat, micro: nat): nat
    requires micro > 0
  {
    Quotient(10 * bytes, micro)
  }

  /** Bytes as the round at precision `prec` scales them. */
  function ScaledBytes(bytes: nat, prec: nat): nat
    requires PRECISION <= prec <= PRICE_FRACTIONAL_DIGITS
  {
    Quotient(bytes * PRICE_PER_FLOP * FLOPS_PER_BYTE, Pow10(PRICE_FRACTIONAL_DIGITS - prec))
  }

  /** The precision cancels in the division. */
  lemma PrecisionCancels(scaled: nat, micro: nat, prec: nat, c: nat, price: nat, product: nat)
    requires PRECISION <= prec <= PRICE_FRACTIONAL_DIGITS && micro > 0
    requires c == Pow10(prec - PRECISION) && price == micro * c && price > 0
    requires product == scaled * ScaleFactor(prec)
    ensures Quotient(product, price) == Quotient(scaled * MINIONS, micro)
  {
    hide Pow10, ScaleFactor;
    ScaleExact(prec);
    Pow10Add(6, prec - 6);
    ScaleSix();
    Regroup(scaled, MINIONS, 0, c);
    DivCancel(scaled * MINIONS, micro, c);
  }

  /** A round succeeds exactly when bytes, price and quotient all fit. */
  lemma RoundSucceedsIff(bytes: u64, micro: u64, prec: nat)
    requires PRECISION <= prec <= PRICE_FRACTIONAL_DIGITS
    ensures CostAt(bytes, micro, prec).Some? <==>
            && micro > 0
            && ScaledBytes(bytes, prec) < U64
            && micro * Pow10(prec - PRECISION) < U64
            && Quotient(ScaledBytes(bytes, prec) * MINIONS, micro) < U64
    ensures CostAt(bytes, micro, prec).Some? ==>
            CostAt(bytes, micro, prec).value == Quotient(ScaledBytes(bytes, prec) * MINIONS, micro)
  {
    hide Pow10, ScaleFactor;
    if micro > 0 {
      var c := Pow10(prec - PRECISION);
      assert micro * c > 0 by { MulLe(1, micro, c); }
      var scaled := ScaledBytes(bytes, prec);
      PrecisionCancels(scaled, micro, prec, c, micro * c, scaled * ScaleFactor(prec));
    } else {
      assert micro * Pow10(prec - PRECISION) == 0;
    }
  }

  /** The minions of a successful round, in one division. */
  lemma MinionsOneDivision(bytes: u64, micro: u64, prec: nat)
    requires PRECISION <= prec <= PRICE_FRACTIONAL_DIGITS && CostAt(bytes, micro, prec).Some?
    ensures micro > 0 && micro * Pow10(prec - PRECISION) > 0
    ensures Minions(bytes, micro, prec) ==
            Quotient(ScaledBytes(bytes, prec) * MINIONS, micro * Pow10(prec - PRECISION))
  {
    hide ScaleFactor, CostAt, ScaledBytes;
    RoundSucceedsIff(bytes, micro, prec);
    ScaleExact(prec - PRECISION);
    var n := ScaledBytes(bytes, prec) * MINIONS;
    DivDiv(n, micro, Pow10(prec - PRECISION));
  }

  // ------------------------------------------------ high precision: exact

  lemma ScaledExactly(bytes: u64, prec: nat)
    requires 11 <= prec <= PRICE_FRACTIONAL_DIGITS
    ensures ScaledBytes(bytes, prec) * MINIONS == (10 * bytes) * Pow10(prec - PRECISION)
    ensures ScaledBytes(bytes, prec) == bytes * Pow10(prec - 11)
  {
    var d := Pow10(15 - prec);
    var e := Pow10(prec - 11);
    Pow10Add(15 - prec, prec - 11);
    Pow10Add(prec - 11, 5);
    PowersOfTen();
    assert bytes * PRICE_PER_FLOP * FLOPS_PER_BYTE == bytes * (d * e) == (bytes * e) * d by {
      Regroup(bytes, e, 0, d);
    }
    DivUnique((bytes * e) * d, d, bytes * e);
    Regroup(bytes, e, 0, MINIONS);
  }

  lemma PowersOfTen()
    ensures Pow10(4) == 10_000 && Pow10(5) == 100_000 && Pow10(9) == 1_000_000_000
  {
    assert Pow10(5) == 10 * Pow10(4) && Pow10(4) == 10 * Pow10(3) && Pow10(3) == 1000;
    assert Pow10(9) == 100 * Pow10(7) && Pow10(7) == 100 * Pow10(5);
  }

  /** At precision eleven or more the search loses nothing. */
  lemma HighPrecisionExact(bytes: u64, micro: u64, prec: nat)
    requires 11 <= prec <= PRICE_FRACTIONAL_DIGITS && CostAt(bytes, micro, prec).Some?
    ensures micro > 0 && Minions(bytes, micro, prec) == ExactMinions(bytes, micro)
  {
    hide CostAt, ScaledBytes, Pow10, Minions;
    MinionsOneDivision(bytes, micro, prec);
    ScaledExactly(bytes, prec);
    DivCancel(10 * bytes, micro, Pow10(prec - PRECISION));
  }

  /** The search stops at eleven or more exactly when the price scaled by 10^5 and
      the bytes at full price resolution fit in 64 bits. */
  lemma HighPrecisionIff(bytes: u64, micro: u64)
    ensures var stop := StopsAt(bytes, micro, PRICE_FRACTIONAL_DIGITS);
            stop.Some? && stop.value >= 11 <==>
            micro > 0 && micro * 100_000 < U64 && Quotient(bytes * MINIONS, micro) < U64
  {
    PowersOfTen();
    ScaledExactly(bytes, 11);
    RoundSucceedsIff(bytes, micro, 11);
    assert Pow10(0) == 1;
    if CostAt(bytes, micro, 11).Some? {
      StopsNoLower(bytes, micro, 15, 11);
    } else {
      forall p | 11 <= p <= PRICE_FRACTIONAL_DIGITS
        ensures CostAt(bytes, micro, p).None?
      {
        LowerPrecisionEasier(bytes, micro, p, 11);
      }
    }
  }

  lemma {:induction false} StopsNoLower(bytes: u64, micro: u64, prec: nat, p: nat)
    requires PRECISION <= p <= prec <= PRICE_FRACTIONAL_DIGITS && CostAt(bytes, micro, p).Some?
    ensures var stop := StopsAt(bytes, micro, prec);
            stop.Some? && p <= stop.value
  {
    if CostAt(bytes, micro, prec).None? {
      StopsNoLower(bytes, micro, prec - 1, p);
    }
  }

  /** What succeeds at one precision succeeds at every lower one. */
  lemma LowerPrecisionEasier(bytes: u64, micro: u64, high: nat, low: nat)
    requires PRECISION <= low <= high <= PRICE_FRACTIONAL_DIGITS
    ensures CostAt(bytes, micro, high).Some? ==> CostAt(bytes, micro, low).Some?
  {
    hide CostAt, ScaledBytes, Pow10;
    RoundSucceedsIff(bytes, micro, high);
    RoundSucceedsIff(bytes, micro, low);
    if CostAt(bytes, micro, high).Some? {
      ScaledMonotone(bytes, high, low);
      MulLe(ScaledBytes(bytes, low), ScaledBytes(bytes, high), MINIONS);
      DivMonotone(ScaledBytes(bytes, low) * MINIONS, ScaledBytes(bytes, high) * MINIONS, micro);
      Pow10Monotone(low - PRECISION, high - PRECISION);
      MulLe(Pow10(low - PRECISION), Pow10(high - PRECISION), micro);
      assert micro * Pow10(low - PRECISION) < U64;
    }
  }

  lemma ScaledMonotone(bytes: u64, high: nat, low: nat)
    requires PRECISION <= low <= high <= PRICE_FRACTIONAL_DIGITS
    ensures ScaledBytes(bytes, low) <= ScaledBytes(bytes, high)
  {
    hide Pow10;
    var n := bytes * PRICE_PER_FLOP * FLOPS_PER_BYTE;
    var b := Pow10(15 - high);
    Pow10Add(15 - high, high - low);
    DivDiv(n, b, Pow10(high - low));
    QuotientShrinks(Quotient(n, b), Pow10(high - low));
  }

  lemma QuotientShrinks(n: nat, d: nat)
    requires d > 0
    ensures Quotient(n, d) <= n
  {
    var q := Quotient(n, d);
    DivBounds(n, d);
    FactorLe(q, d, q * d);
  }

  // ------------------------------------------------ low precision: bounded error

  lemma ScaledTruncated(bytes: u64, prec: nat)
    requires PRECISION <= prec <= 11
    ensures ScaledBytes(bytes, prec) == Quotient(bytes, Pow10(11 - prec))
    ensures Pow10(prec - PRECISION) * Pow10(11 - prec) == 100_000
  {
    Pow10Add(11 - prec, 4);
    Pow10Add(prec - 6, 11 - prec);
    PowersOfTen();
    DivCancel(bytes, Pow10(11 - prec), 10_000);
  }

  /** Division of truncated bytes, with the error it makes. `c * d == 10^5`. */
  lemma TruncationError(bytes: nat, micro: nat, c: nat, d: nat, y: nat)
    requires micro > 0 && c > 0 && d > 0 && c * d == 100_000
    requires micro * c > 0 && y == Quotient(Quotient(bytes, d) * MINIONS, micro * c)
    ensures micro * y <= 10 * bytes
    ensures 10 * bytes < micro * y + micro + MINIONS
  {
    var k := Quotient(bytes, d);
    DivBounds(bytes, d);
    assert k * d <= bytes < k * d + d;
    var n := k * MINIONS;
    assert n == 10 * (k * d) * c by {
      Regroup(k, d, 0, c);
      assert k * (d * c) * 10 == k * 1_000_000;
    }
    DivBounds(n, micro * c);
    assert y * (micro * c) == (micro * y) * c;
    assert (y + 1) * (micro * c) == (micro * y + micro) * c;
    CancelLe(micro * y, 10 * (k * d), c);
    CancelLt(10 * (k * d), micro * y + micro, c);
    FactorLe(d, c, 100_000);
  }

  lemma CancelLe(a: int, b: int, c: int)
    requires c > 0 && a * c <= b * c
    ensures a <= b
  {
    if a > b {
      MulLe(b + 1, a, c);
    }
  }

  lemma CancelLt(a: int, b: int, c: int)
    requires c > 0 && a * c < b * c
    ensures a < b
  {
    if a >= b {
      MulLe(b, a, c);
    }
  }

  /** Below precision eleven the cost before the minimum is never above the exact
      one and short of it by less than 10^6/price + 1. */
  lemma LowPrecisionBound(bytes: u64, micro: u64, prec: nat)
    requires PRECISION <= prec <= 11 && CostAt(bytes, micro, prec).Some?
    ensures micro > 0
    ensures Minions(bytes, micro, prec) <= ExactMinions(bytes, micro)
    ensures micro * (ExactMinions(bytes, micro) - Minions(bytes, micro, prec)) < MINIONS + micro
  {
    hide CostAt, ScaledBytes, Pow10, Minions;
    MinionsOneDivision(bytes, micro, prec);
    ScaledTruncated(bytes, prec);
    var y := Minions(bytes, micro, prec);
    TruncationError(bytes, micro, Pow10(prec - PRECISION), Pow10(11 - prec), y);
    ShortOfExact(10 * bytes, micro, y);
  }

  /** `y` against the quotient, when `micro * y` is short of `n` by less than `micro + MINIONS`. */
  lemma ShortOfExact(n: nat, micro: nat, y: nat)
    requires micro > 0 && micro * y <= n < micro * y + micro + MINIONS
    ensures y <= Quotient(n, micro)
    ensures micro * (Quotient(n, micro) - y) < MINIONS + micro
  {
    var x := Quotient(n, micro);
    DivBounds(n, micro);
    CancelLt(y, x + 1, micro);
    assert micro * (x - y) == micro * x - micro * y;
  }

  // ------------------------------------------------ the cost as a whole

  /** The search fails exactly on a zero price or when even the coarsest round
      does not fit. */
  lemma CostFailsIff(bytes: u64, micro: u64)
    ensures Cost(bytes, micro).Err? <==>
            micro == 0 || Quotient(Quotient(bytes, 100_000) * MINIONS, micro) >= U64
  {
    PowersOfTen();
    ScaledTruncated(bytes, 6);
    RoundSucceedsIff(bytes, micro, 6);
    assert Pow10(0) == 1;
    if CostAt(bytes, micro, 6).Some? {
      StopsNoLower(bytes, micro, 15, 6);
    } else {
      forall p | PRECISION <= p <= PRICE_FRACTIONAL_DIGITS
        ensures CostAt(bytes, micro, p).None?
      {
        LowerPrecisionEasier(bytes, micro, p, 6);
      }
    }
  }

  /** The cost is the exact one (at least one minion) whenever the high-precision
      rounds fit, and otherwise never above it and close below. */
  lemma CostTheorem(bytes: u64, micro: u64)
    requires Cost(bytes, micro).Ok?
    ensures micro > 0
    ensures var exact := ExactMinions(bytes, micro);
            var r := Cost(bytes, micro).value;
            && 1 <= r <= (if exact < 1 then 1 else exact)
            && micro * (exact - r) < MINIONS + micro
            && (micro * 100_000 < U64 && Quotient(bytes * MINIONS, micro) < U64 ==>
                r == if exact < 1 then 1 else exact)
  {
    hide CostAt, Minions;
    var stop := StopsAt(bytes, micro, PRICE_FRACTIONAL_DIGITS).value;
    HighPrecisionIff(bytes, micro);
    if stop >= 11 {
      HighPrecisionExact(bytes, micro, stop);
    } else {
      LowPrecisionBound(bytes, micro, stop);
    }
    var exact, r := ExactMinions(bytes, micro), Cost(bytes, micro).value;
    if r > Minions(bytes, micro, stop) {
      MulLe(exact - r, exact - Minions(bytes, micro, stop), micro);
    }
  }

  /** At precision `p` the scaled bytes, the scaled price and their quotient fit. */
  predicate FitsAt(bytes: u64, micro: u64, p: nat)
    requires PRECISION <= p <= PRICE_FRACTIONAL_DIGITS && micro > 0
  {
    && ScaledBytes(bytes, p) < U64 && micro * Pow10(p - PRECISION) < U64
    && Quotient(ScaledBytes(bytes, p) * MINIONS, micro) < U64
  }

  /** The finest precision at which everything fits. */
  ghost predicate Finest(bytes: u64, micro: u64, p: nat)
    requires micro > 0
  {
    && PRECISION <= p <= PRICE_FRACTIONAL_DIGITS && FitsAt(bytes, micro, p)
    && forall q :: p < q <= PRICE_FRACTIONAL_DIGITS ==> !FitsAt(bytes, micro, q)
  }

  /** The cost as a formula: one division at the finest precision that fits, and at
      least one minion; no such precision, no cost. */
  lemma CostFormula(bytes: u64, micro: u64)
    requires micro > 0
    ensures Cost(bytes, micro).Ok? <==> exists p: nat :: Finest(bytes, micro, p)
    ensures forall p: nat :: Finest(bytes, micro, p) ==>
              && micro * Pow10(p - PRECISION) > 0
              && var minions := Quotient(ScaledBytes(bytes, p) * MINIONS, micro * Pow10(p - PRECISION));
                 Cost(bytes, micro) == Ok(if minions < 1 then 1 else minions)
  {
    hide CostAt, ScaledBytes, Pow10, Minions, Quotient;
    forall p | PRECISION <= p <= PRICE_FRACTIONAL_DIGITS
      ensures FitsAt(bytes, micro, p) <==> CostAt(bytes, micro, p).Some?
    {
      RoundSucceedsIff(bytes, micro, p);
    }
    hide FitsAt;
    var stop := StopsAt(bytes, micro, PRICE_FRACTIONAL_DIGITS);
    if stop.Some? {
      forall q | stop.value < q <= PRICE_FRACTIONAL_DIGITS
        ensures !FitsAt(bytes, micro, q)
      {
        NotBelow(bytes, micro, PRICE_FRACTIONAL_DIGITS, q);
      }
      assert Finest(bytes, micro, stop.value);
      MinionsOneDivision(bytes, micro, stop.value);
    }
    forall p: nat | Finest(bytes, micro, p)
      ensures stop == Some(p)
    {
      StopsNoLower(bytes, micro, PRICE_FRACTIONAL_DIGITS, p);
    }
  }

  lemma NotBelow(bytes: u64, micro: u64, prec: nat, q: nat)
    requires PRECISION <= q <= prec <= PRICE_FRACTIONAL_DIGITS
    requires StopsAt(bytes, micro, prec).Some? && StopsAt(bytes, micro, prec).value < q
    ensures CostAt(bytes, micro, q).None?
  {
    hide CostAt;
    if CostAt(bytes, micro, q).Some? {
      StopsNoLower(bytes, micro, prec, q);
      assert false;
    }
  }

  // ------------------------------------------------ child tokens

  function ConvertToChildToken(minions: u64, ratio: string): Outcome<string> {
    ScaleSix();
    var b := FromString(ratio, PRECISION, Strict);
    if b.Err? then Err(b.error)
    else
      var child := Divide(minions, b.value, PRECISION);
      if child.Err? then Err(child.error) else Ok(ToString(child.value, PRECISION))
  }

  function ConvertFromChildToken(child: string, ratio: string): Outcome<u64> {
    ScaleSix();
    var b := FromString(ratio, PRECISION, Strict);
    if b.Err? then Err(b.error)
    else
      var c := FromString(child, PRECISION, Truncate);
      if c.Err? then Err(c.error) else Multiply(c.value, b.value, PRECISION)
  }

  /** What the two conversions compute, for a ratio of `b` millionths: minions times
      10^6 over `b`, and child units times `b` over 10^6, both rounded down and
      refused when they do not fit. */
  lemma ChildExact(minions: u64, child: string, ratio: string)
    ensures var b := FromString(ratio, PRECISION, Strict);
            var r := ConvertToChildToken(minions, ratio);
            && (r.Ok? <==> b.Ok? && b.value > 0 && Quotient(minions * MINIONS, b.value) < U64)
            && (r.Ok? ==> FromString(r.value, PRECISION, Strict) == Ok(Quotient(minions * MINIONS, b.value)))
    ensures var b, c := FromString(ratio, PRECISION, Strict), FromString(child, PRECISION, Truncate);
            var r := ConvertFromChildToken(child, ratio);
            && (r.Ok? <==> b.Ok? && c.Ok? && Quotient(c.value * b.value, MINIONS) < U64)
            && (r.Ok? ==> r.value == Quotient(c.value * b.value, MINIONS))
  {
    hide FromString, ToString, Pow10, Quotient;
    ScaleSix();
    var b := FromString(ratio, PRECISION, Strict);
    if b.Ok? && Divide(minions, b.value, PRECISION).Ok? {
      FixedRoundTrip(Divide(minions, b.value, PRECISION).value, PRECISION, Strict);
    }
  }

  /** Dividing and multiplying back through truncation, for a ratio `b` in millionths. */
  lemma ThereAndBack(a: nat, b: nat)
    requires b > 0
    ensures var c := Quotient(a * MINIONS, b);
            var back := Quotient(c * b, MINIONS);
            back <= a && MINIONS * (a - back) < b + MINIONS
  {
    var c := Quotient(a * MINIONS, b);
    DivBounds(a * MINIONS, b);
    assert c * b <= a * MINIONS < c * b + b;
    DivBounds(c * b, MINIONS);
    CancelLt(Quotient(c * b, MINIONS), a + 1, MINIONS);
  }

  /** Converting to a child token and back succeeds, never gains, and loses at
      most ceil((b - 1) / 10^6) minions for a ratio of b millionths. */
  lemma ChildRoundTrip(minions: u64, ratio: string)
    requires ConvertToChildToken(minions, ratio).Ok?
    ensures FromString(ratio, PRECISION, Strict).Ok?
    ensures var b := FromString(ratio, PRECISION, Strict).value;
            var back := ConvertFromChildToken(ConvertToChildToken(minions, ratio).value, ratio);
            && b > 0 && back.Ok? && back.value <= minions
            && minions - back.value <= Quotient(b - 1 + (MINIONS - 1), MINIONS)
  {
    hide FromString, ToString, Pow10;
    ScaleSix();
    var b := FromString(ratio, PRECISION, Strict).value;
    var child := Divide(minions, b, PRECISION).value;
    FixedRoundTrip(child, PRECISION, Truncate);
    ThereAndBack(minions, b);
    var loss := minions - Quotient(child * b, MINIONS);
    DivBounds(b - 1 + (MINIONS - 1), MINIONS);
  }

  // ------------------------------------------------ escrow payout

  /** What each of `n` peers gets of an escrow: the cut, split evenly, truncated. */
  function PeerShare(amount: u64, cut: u64, n: nat): Outcome<u64>
    requires n > 0
  {
    var total := Times(amount, cut);
    if total.Err? then total else Ok(Quotient(total.value, n))
  }

  /** The developer's remainder after `n` 64-bit subtractions. */
  function DevShare(amount: u64, share: u64, n: nat): u64 {
    if n == 0 then amount else Wrap(DevShare(amount, share, n - 1) - share)
  }

  lemma {:induction false} DevShareExact(amount: u64, share: u64, n: nat)
    requires n * share <= amount
    ensures DevShare(amount, share, n) == amount - n * share
  {
    if n > 0 {
      assert n * share == (n - 1) * share + share;
      DevShareExact(amount, share, n - 1);
    }
  }

  lemma PayoutBounds(pot: nat, total: nat, share: nat, n: nat, amount: nat)
    requires n > 0 && pot <= amount * MINIONS
    requires total == Quotient(pot, MINIONS) && share == Quotient(total, n)
    ensures total <= amount && n * share <= amount
    ensures MINIONS * (amount - n * share) < MINIONS * amount - pot + MINIONS * n
  {
    DivBounds(pot, MINIONS);
    DivBounds(total, n);
    assert n * share <= total < n * share + n;
  }

  /** With a cut of at most 10^6 the payout never fails or underflows, each peer
      gets floor(amount * cut / (10^6 * n)), the shares add up to the escrow, and
      the developer gets less than n minions above its part. */
  lemma PayoutSplit(amount: u64, cut: u64, n: nat)
    requires n > 0 && cut <= MINIONS
    ensures PeerShare(amount, cut, n).Ok?
    ensures var share := PeerShare(amount, cut, n).value;
            var dev := DevShare(amount, share, n);
            && share == Quotient(amount * cut, MINIONS * n)
            && n * share + dev == amount
            && MINIONS * dev < MINIONS * amount - amount * cut + MINIONS * n
  {
    ScaleSix();
    MulLe(cut, MINIONS, amount);
    var total := Quotient(amount * cut, MINIONS);
    var share := Quotient(total, n);
    PayoutBounds(amount * cut, total, share, n, amount);
    DivDiv(amount * cut, MINIONS, n);
    DevShareExact(amount, share, n);
  }

  lemma QuotientLess(a: nat, b: nat, c: nat)
    requires b > 0
    ensures Quotient(a, b) < c <==> a < c * b
  {
    var q := Quotient(a, b);
    DivBounds(a, b);
    if q < c {
      MulLe(q + 1, c, b);
    } else {
      MulLe(c, q, b);
    }
  }

  lemma SharesFitIff(amount: nat, share: nat, n: nat)
    requires n > 0
    ensures n * share <= amount <==> share < Quotient(amount, n) + 1
  {
    QuotientLess(amount, n, share);
    assert share * n == n * share;
  }

  lemma DevShareWraps(amount: u64, share: u64, n: nat)
    ensures n * share + DevShare(amount, share, n) == amount <==> n * share <= amount
  {
    if n * share <= amount {
      DevShareExact(amount, share, n);
    }
  }

  /** The peers' part, rounded down to whole shares, does not exceed the escrow. */
  predicate PayoutFits(amount: u64, cut: u64, n: nat)
    requires n > 0
  {
    amount * cut < MINIONS * (n * (Quotient(amount, n) + 1))
  }

  /** Exactly when a payout adds up, in terms of escrow, cut and number of peers. */
  lemma PayoutConservesIff(amount: u64, cut: u64, n: nat)
    requires n > 0 && PeerShare(amount, cut, n).Ok?
    ensures var share := PeerShare(amount, cut, n).value;
            n * share + DevShare(amount, share, n) == amount <==> PayoutFits(amount, cut, n)
  {
    hide Quotient, DevShare, Pow10, ScaleFactor;
    ScaleSix();
    var pot := amount * cut;
    var total := Quotient(pot, MINIONS);
    var share := PeerShare(amount, cut, n).value;
    var k := Quotient(amount, n) + 1;
    DevShareWraps(amount, share, n);
    SharesFitIff(amount, share, n);
    QuotientLess(total, n, k);
    QuotientLess(pot, MINIONS, k * n);
    assert k * n == n * k;
  }

  /** A cut of at most 10^6 always fits; one above may or may not. */
  lemma ModestCutFits(amount: u64, cut: u64, n: nat)
    requires n > 0 && cut <= MINIONS
    ensures PayoutFits(amount, cut, n)
  {
    MulLe(cut, MINIONS, amount);
    DivBounds(amount, n);
  }

  lemma SlightExcessMayFit()
    ensures PeerShare(1, 1_000_001, 1) == Ok(1) && PayoutFits(1, 1_000_001, 1)
    ensures DevShare(1, 1, 1) == 0
  {
    ScaleSix();
  }

  /** A cut of 300% pays the one peer three times the escrow and wraps the
      developer's remainder around. */
  lemma ExcessiveCut()
    ensures PeerShare(1_000_000, 3_000_000, 1) == Ok(3_000_000)
    ensures DevShare(1_000_000, 3_000_000, 1) == U64 - 2_000_000
  {
    ScaleSix();
  }
}
