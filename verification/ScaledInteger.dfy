/** Fixed-point decimals (`ScaledInteger`): a 64-bit value scaled by a power of
    ten, its text form, and truncating arithmetic through 128 bits. */
module ScaledInteger {
  import opened Machine

  function Pow10(n: nat): (r: nat)
    ensures r > 0
  {
    if n == 0 then 1 else 10 * Pow10(n - 1)
  }

  /** `ScaleFactor`: 10^precision as 64 bits hold it (exact up to 19). */
  function ScaleFactor(precision: nat): u64 {
    if precision == 0 then 1 else Wrap(ScaleFactor(precision - 1) * 10)
  }

  method ComputeScaleFactor(precision: nat) returns (r: u64)
    ensures r == ScaleFactor(precision)
  {
    r := 1;
    for i := 0 to precision
      invariant r == ScaleFactor(i)
    {
      r := Wrap(r * 10);
    }
  }

  // ------------------------------------------------ decimal text

  predicate IsDigit(c: char) { '0' <= c <= '9' }

  predicate AllDigits(s: string) { forall i :: 0 <= i < |s| ==> IsDigit(s[i]) }

  function DigitOf(n: nat): char
    requires n < 10
  {
    (48 + n) as char
  }

  /** `std::to_string`. */
  function Decimal(n: nat): (s: string)
    ensures s != "" && AllDigits(s)
  {
    if n < 10 then [DigitOf(n)] else Decimal(n / 10) + [DigitOf(n % 10)]
  }

  function Digit(c: char): nat
    requires IsDigit(c)
  {
    c as int - 48
  }

  /** The number a digit string denotes. */
  function Value(s: string): nat
    requires AllDigits(s)
  {
    if s == "" then 0
    else 10 * Value(s[..|s| - 1]) + Digit(s[|s| - 1])
  }

  /** `std::from_chars` followed by the check that all characters were used. */
  function ParseU64(s: string): Option<u64> {
    if s != "" && AllDigits(s) && Value(s) < U64 then Some(Value(s)) else None
  }

  function Zeros(n: nat): (z: string)
    ensures |z| == n && AllDigits(z)
    ensures forall i :: 0 <= i < n ==> z[i] == '0'
  {
    seq(n, i => '0')
  }

  /** Position of the first dot. */
  function FindDot(s: string): (r: Option<nat>)
    ensures r.Some? ==> r.value < |s| && s[r.value] == '.' && '.' !in s[..r.value]
    ensures r.None? ==> '.' !in s
  {
    if s == "" then None
    else if s[0] == '.' then Some(0)
    else
      var r := FindDot(s[1..]);
      assert s == [s[0]] + s[1..];
      if r.None? then None
      else
        assert s[..r.value + 1] == [s[0]] + s[1..][..r.value];
        Some(r.value + 1)
  }

  datatype ParseMode = Strict | Truncate

  /** A 64-bit value multiplied by ten `n` times. */
  function ScaleUp(fraction: u64, n: nat): u64 {
    if n == 0 then fraction else Wrap(ScaleUp(fraction, n - 1) * 10)
  }

  /** Integer part and fraction combined with 64-bit arithmetic. */
  function Combine(whole: u64, fraction: u64, digits: nat, precision: nat): u64
    requires digits <= precision
  {
    Wrap(Wrap(whole * ScaleFactor(precision)) + ScaleUp(fraction, precision - digits))
  }

  function FromString(s: string, precision: nat, mode: ParseMode): Outcome<u64> {
    if s == "" then Err(InvalidArgument)
    else
      var dot := FindDot(s);
      var whole := ParseU64(if dot.Some? then s[..dot.value] else s);
      var text := if dot.Some? then s[dot.value + 1..] else "";
      if whole.None? then Err(InvalidArgument)
      else if text == "" then Ok(Combine(whole.value, 0, 0, precision))
      else if |text| > precision && mode == Strict then Err(ValueTooLarge)
      else
        var kept := if |text| > precision then text[..precision] else text;
        var fraction := ParseU64(kept);
        if fraction.None? then Err(InvalidArgument)
        else Ok(Combine(whole.value, fraction.value, |kept|, precision))
  }

  /** `FromString` as written: the fraction is scaled by a loop. */
  method ParseDecimal(s: string, precision: nat, mode: ParseMode) returns (r: Outcome<u64>)
    ensures r == FromString(s, precision, mode)
  {
    if s == "" {
      return Err(InvalidArgument);
    }
    var dot := FindDot(s);
    var wholeText := if dot.Some? then s[..dot.value] else s;
    var text := if dot.Some? then s[dot.value + 1..] else "";
    var whole := ParseU64(wholeText);
    if whole.None? {
      return Err(InvalidArgument);
    }
    var fraction: u64 := 0;
    if text != "" {
      if |text| > precision {
        if mode == Strict {
          return Err(ValueTooLarge);
        }
        text := text[..precision];
      }
      var parsed := ParseU64(text);
      if parsed.None? {
        return Err(InvalidArgument);
      }
      fraction := parsed.value;
    }
    ghost var start := fraction;
    var i := |text|;
    while i < precision
      invariant |text| <= i <= precision
      invariant fraction == ScaleUp(start, i - |text|)
    {
      fraction := Wrap(fraction * 10);
      i := i + 1;
    }
    var scale := ComputeScaleFactor(precision);
    r := Ok(Wrap(Wrap(whole.value as int * scale as int) + fraction));
  }

  function PadLeft(digits: string, width: nat): string {
    if |digits| < width then Zeros(width - |digits|) + digits else digits
  }

  function Render(whole: nat, fraction: nat, precision: nat): string {
    if precision == 0 then Decimal(whole)
    else Decimal(whole) + "." + PadLeft(Decimal(fraction), precision)
  }

  /** The static `ToString`. A precision whose scale factor is zero in 64 bits
      (64 and above) divides by zero in the source. */
  function ToString(value: u64, precision: nat): string
    requires ScaleFactor(precision) != 0
  {
    Render(Quotient(value, ScaleFactor(precision)), Remainder(value, ScaleFactor(precision)), precision)
  }

  function TrimZeros(s: string): string {
    if s != "" && s[|s| - 1] == '0' then TrimZeros(s[..|s| - 1]) else s
  }

  function TrimText(s: string): string {
    if '.' !in s then s
    else
      var t := TrimZeros(s);
      if t != "" && t[|t| - 1] == '.' then t[..|t| - 1] else t
  }

  /** The member `ToString(fixedDecimals)`. */
  function ToText(value: u64, precision: nat, fixedDecimals: bool): string
    requires ScaleFactor(precision) != 0
  {
    if fixedDecimals then ToString(value, precision) else TrimText(ToString(value, precision))
  }

  /** The one-argument `New`: the precision is the number of fractional digits. */
  function InferredPrecision(s: string): nat {
    var dot := FindDot(s);
    if dot.None? then 0 else |s| - dot.value - 1
  }

  // ------------------------------------------------ arithmetic

  function Multiply(a: u64, b: u64, precision: nat): Outcome<u64>
    requires ScaleFactor(precision) != 0
  {
    var r := Quotient(a * b, ScaleFactor(precision));
    if r >= U64 then Err(ValueTooLarge) else Ok(r)
  }

  function Divide(a: u64, b: u64, precision: nat): Outcome<u64> {
    if b == 0 then Err(ResultOutOfRange)
    else
      var r := Quotient(a * ScaleFactor(precision), b);
      if r >= U64 then Err(ValueTooLarge) else Ok(r)
  }

  function ConvertPrecision(value: u64, from: nat, to: nat): Outcome<u64>
    requires from > to ==> ScaleFactor(from - to) != 0
  {
    if from == to then Ok(value)
    else if to > from then
      var r := value * ScaleFactor(to - from);
      if r >= U64 then Err(ValueTooLarge) else Ok(r)
    else Ok(Quotient(value, ScaleFactor(from - to)))
  }

  // ------------------------------------------------ facts about powers of ten

  lemma {:induction false} Pow10Add(a: nat, b: nat)
    ensures Pow10(a + b) == Pow10(a) * Pow10(b)
  {
    if a > 0 {
      Pow10Add(a - 1, b);
      assert Pow10(a + b) == 10 * (Pow10(a - 1) * Pow10(b)) == (10 * Pow10(a - 1)) * Pow10(b);
    }
  }

  lemma {:induction false} Pow10Monotone(a: nat, b: nat)
    requires a <= b
    ensures Pow10(a) <= Pow10(b)
  {
    if a < b {
      Pow10Monotone(a, b - 1);
    }
  }

  /** Up to precision 19 the scale factor is exact. */
  lemma {:induction false} ScaleExact(precision: nat)
    requires precision <= 19
    ensures ScaleFactor(precision) == Pow10(precision) <= 10_000_000_000_000_000_000
  {
    if precision > 0 {
      ScaleExact(precision - 1);
      Pow10Monotone(precision, 19);
      assert Pow10(19) == 100_000 * Pow10(14) && Pow10(14) == 100_000 * Pow10(9);
      assert Pow10(9) == 100_000 * Pow10(4) && Pow10(4) == 10_000;
    }
  }

  /** In 64 bits the scale factor never exceeds the power of ten. */
  lemma {:induction false} ScaleBound(precision: nat)
    ensures ScaleFactor(precision) <= Pow10(precision)
  {
    if precision > 0 {
      ScaleBound(precision - 1);
    }
  }

  lemma {:induction false} ScaleUpExact(fraction: u64, n: nat)
    requires fraction * Pow10(n) < U64
    ensures ScaleUp(fraction, n) == fraction * Pow10(n)
  {
    if n > 0 {
      assert fraction * Pow10(n) == 10 * (fraction * Pow10(n - 1));
      ScaleUpExact(fraction, n - 1);
    }
  }

  // ------------------------------------------------ facts about digits

  lemma {:induction false} ValueOfDecimal(n: nat)
    ensures Value(Decimal(n)) == n
  {
    var s := Decimal(n);
    if n >= 10 {
      ValueOfDecimal(n / 10);
      assert s[..|s| - 1] == Decimal(n / 10);
    }
  }

  lemma {:induction false} ValueConcat(a: string, b: string)
    requires AllDigits(a) && AllDigits(b)
    ensures AllDigits(a + b) && Value(a + b) == Value(a) * Pow10(|b|) + Value(b)
  {
    if b == "" {
      assert a + b == a;
    } else {
      var k := |b| - 1;
      ValueConcat(a, b[..k]);
      assert (a + b)[..|a| + k] == a + b[..k] && (a + b)[|a| + k] == b[k];
      assert Pow10(|b|) == 10 * Pow10(k);
      hide Pow10;
      TenTimes(Value(a), Pow10(k));
    }
  }

  lemma TenTimes(v: int, p: int)
    ensures v * (10 * p) == 10 * (v * p)
  {
  }

  lemma {:induction false} ValueOfZeros(n: nat)
    ensures Value(Zeros(n)) == 0
  {
    if n > 0 {
      assert Zeros(n)[..n - 1] == Zeros(n - 1);
      ValueOfZeros(n - 1);
    }
  }

  lemma {:induction false} DecimalLength(n: nat, width: nat)
    requires width > 0 && n < Pow10(width)
    ensures |Decimal(n)| <= width
  {
    if n >= 10 {
      assert width > 1;
      DecimalLength(n / 10, width - 1);
    }
  }

  lemma PadFacts(n: nat, width: nat)
    requires width > 0 && n < Pow10(width)
    ensures var s := PadLeft(Decimal(n), width);
            |s| == width && AllDigits(s) && Value(s) == n
  {
    hide Decimal, Value, Pow10;
    DecimalLength(n, width);
    ValueOfDecimal(n);
    var d := Decimal(n);
    if |d| < width {
      ValueConcat(Zeros(width - |d|), d);
      ValueOfZeros(width - |d|);
    }
  }

  lemma FirstDot(a: string, b: string)
    requires AllDigits(a)
    ensures FindDot(a + "." + b) == Some(|a|)
  {
    var s := a + "." + b;
    assert s[|a|] == '.';
  }

  lemma NoDot(s: string)
    requires AllDigits(s)
    ensures FindDot(s) == None
  {
  }

  // ------------------------------------------------ printing and parsing are inverse

  /** Parsing `whole.fraction` gives the combination of the two numbers. */
  lemma ParsePoint(whole: u64, text: string, precision: nat, mode: ParseMode)
    requires text != "" && |text| <= precision && AllDigits(text) && Value(text) < U64
    ensures FromString(Decimal(whole) + "." + text, precision, mode) ==
            Ok(Combine(whole, Value(text), |text|, precision))
  {
    var a := Decimal(whole);
    var s := a + "." + text;
    FirstDot(a, text);
    ValueOfDecimal(whole);
    assert s[..|a|] == a && s[|a| + 1..] == text;
  }

  lemma ParseWhole(whole: u64, precision: nat, mode: ParseMode)
    ensures FromString(Decimal(whole), precision, mode) == Ok(Combine(whole, 0, 0, precision))
  {
    NoDot(Decimal(whole));
    ValueOfDecimal(whole);
  }

  lemma CombineExact(whole: u64, fraction: u64, digits: nat, precision: nat)
    requires digits <= precision
    requires whole * ScaleFactor(precision) + fraction * Pow10(precision - digits) < U64
    ensures Combine(whole, fraction, digits, precision) ==
            whole * ScaleFactor(precision) + fraction * Pow10(precision - digits)
  {
    assert whole * ScaleFactor(precision) >= 0;
    assert fraction * Pow10(precision - digits) >= 0;
    ScaleUpExact(fraction, precision - digits);
  }

  /** Parsing the fixed rendering combines the two parts again. */
  lemma ParseRender(whole: u64, fraction: u64, precision: nat, mode: ParseMode)
    requires whole * ScaleFactor(precision) + fraction < U64 && fraction < Pow10(precision)
    ensures FromString(Render(whole, fraction, precision), precision, mode) ==
            Ok(whole * ScaleFactor(precision) + fraction)
  {
    hide FromString, Value, Decimal;
    if precision == 0 {
      ParseWhole(whole, 0, mode);
      CombineExact(whole, 0, 0, 0);
    } else {
      PadFacts(fraction, precision);
      var f := PadLeft(Decimal(fraction), precision);
      ParsePoint(whole, f, precision, mode);
      CombineExact(whole, fraction, precision, precision);
    }
  }

  /** Fixed form: parsing undoes printing at every precision that can be printed. */
  lemma FixedRoundTrip(value: u64, precision: nat, mode: ParseMode)
    requires ScaleFactor(precision) != 0
    ensures FromString(ToString(value, precision), precision, mode) == Ok(value)
  {
    hide FromString, Render;
    var scale := ScaleFactor(precision);
    ScaleBound(precision);
    ParseRender(Quotient(value, scale), Remainder(value, scale), precision, mode);
  }

  lemma {:induction false} TrimSplit(s: string)
    requires AllDigits(s)
    ensures var t := TrimZeros(s);
            t <= s && AllDigits(t) && s == t + Zeros(|s| - |t|)
  {
    if s != "" && s[|s| - 1] == '0' {
      TrimSplit(s[..|s| - 1]);
    }
  }

  lemma {:induction false} TrimAfterPoint(a: string, f: string)
    requires AllDigits(f)
    ensures TrimZeros(a + "." + f) == a + "." + TrimZeros(f)
  {
    var s := a + "." + f;
    if f == "" {
      assert s == a + ".";
    } else if f[|f| - 1] == '0' {
      TrimAfterPoint(a, f[..|f| - 1]);
      assert s[..|s| - 1] == a + "." + f[..|f| - 1];
    }
  }

  /** The fraction of a rendering without its trailing zeros. */
  function Trimmed(fraction: nat, precision: nat): string {
    TrimZeros(PadLeft(Decimal(fraction), precision))
  }

  /** The trimmed fraction times the dropped power of ten is the fraction. */
  lemma TrimmedValue(fraction: nat, precision: nat)
    requires precision > 0 && fraction < Pow10(precision)
    ensures var t := Trimmed(fraction, precision);
            && |t| <= precision && AllDigits(t) && Value(t) <= fraction
            && (t == "" ==> Value(t) == 0)
            && Value(t) * Pow10(precision - |t|) == fraction
  {
    PadFacts(fraction, precision);
    var f := PadLeft(Decimal(fraction), precision);
    TrimSplit(f);
    var t := TrimZeros(f);
    ValueConcat(t, Zeros(|f| - |t|));
    ValueOfZeros(|f| - |t|);
    FactorLe(Value(t), Pow10(precision - |t|), fraction);
  }

  /** The text with the fraction digits `t`; none means no dot. */
  function Shown(whole: nat, t: string): string {
    if t == "" then Decimal(whole) else Decimal(whole) + "." + t
  }

  /** The trimmed text: the whole part alone, or with a fraction that does not
      end in zero. */
  lemma TrimmedText(whole: nat, fraction: nat, precision: nat)
    requires precision > 0 && fraction < Pow10(precision)
    ensures TrimText(Render(whole, fraction, precision)) == Shown(whole, Trimmed(fraction, precision))
  {
    hide Decimal, Value, Pow10;
    var a := Decimal(whole);
    PadFacts(fraction, precision);
    var f := PadLeft(Decimal(fraction), precision);
    var t := TrimZeros(f);
    assert (a + "." + f)[|a|] == '.';
    TrimAfterPoint(a, f);
    TrimSplit(f);
    var u := a + "." + t;
    assert t == "" ==> u[|u| - 1] == '.' && u[..|u| - 1] == a;
    assert t != "" ==> u[|u| - 1] == t[|t| - 1];
  }

  /** Parsing the trimmed rendering combines the two parts again. */
  lemma ParseTrimmed(whole: u64, fraction: u64, precision: nat, mode: ParseMode)
    requires precision > 0
    requires whole * ScaleFactor(precision) + fraction < U64 && fraction < Pow10(precision)
    ensures FromString(TrimText(Render(whole, fraction, precision)), precision, mode) ==
            Ok(whole * ScaleFactor(precision) + fraction)
  {
    hide FromString, Value, Decimal, Trimmed, TrimText, Render, Combine;
    TrimmedValue(fraction, precision);
    TrimmedText(whole, fraction, precision);
    var t := Trimmed(fraction, precision);
    CombineExact(whole, Value(t), |t|, precision);
    if t == "" {
      ParseWhole(whole, precision, mode);
    } else {
      ParsePoint(whole, t, precision, mode);
    }
  }

  /** At precision 0 there is no dot to trim after. */
  lemma WholeText(value: u64)
    ensures ToString(value, 0) == Decimal(value)
    ensures TrimText(ToString(value, 0)) == ToString(value, 0)
    ensures InferredPrecision(ToString(value, 0)) == 0
  {
    assert Quotient(value, 1) == value;
    NoDot(Decimal(value));
  }

  /** Trimmed form: parsing undoes printing as well. */
  lemma TrimmedRoundTrip(value: u64, precision: nat, mode: ParseMode)
    requires ScaleFactor(precision) != 0
    ensures FromString(ToText(value, precision, false), precision, mode) == Ok(value)
  {
    hide FromString, TrimText, Render;
    if precision == 0 {
      FixedRoundTrip(value, 0, mode);
      WholeText(value);
    } else {
      var scale := ScaleFactor(precision);
      ScaleBound(precision);
      ParseTrimmed(Quotient(value, scale), Remainder(value, scale), precision, mode);
    }
  }

  lemma ShownPrecision(whole: nat, t: string)
    ensures InferredPrecision(Shown(whole, t)) == |t|
  {
    hide Decimal, FindDot;
    if t == "" {
      NoDot(Decimal(whole));
    } else {
      FirstDot(Decimal(whole), t);
    }
  }

  lemma CombineAsShown(whole: u64, fraction: u64, n: nat)
    requires n <= 19 && whole * Pow10(n) + fraction < U64
    ensures Combine(whole, fraction, n, n) == whole * Pow10(n) + fraction
  {
    hide Combine, ScaleFactor;
    ScaleExact(n);
    assert fraction * Pow10(0) == fraction;
    CombineExact(whole, fraction, n, n);
  }

  /** `whole.t` parsed at the precision it shows. */
  lemma ParseAsShown(whole: u64, t: string)
    requires |t| <= 19 && AllDigits(t) && whole * Pow10(|t|) + Value(t) < U64
    ensures InferredPrecision(Shown(whole, t)) == |t|
    ensures FromString(Shown(whole, t), |t|, Strict) == Ok(whole * Pow10(|t|) + Value(t))
  {
    hide FromString, Decimal, Combine, Pow10, InferredPrecision;
    ShownPrecision(whole, t);
    assert whole * Pow10(|t|) >= 0;
    CombineAsShown(whole, Value(t), |t|);
    if t == "" {
      ParseWhole(whole, 0, Strict);
    } else {
      ParsePoint(whole, t, |t|, Strict);
    }
  }

  /** The trimmed text, parsed at the precision it shows. */
  lemma InferredParse(whole: u64, fraction: u64, precision: nat)
    requires 0 < precision <= 19
    requires whole * Pow10(precision) + fraction < U64 && fraction < Pow10(precision)
    ensures var s := TrimText(Render(whole, fraction, precision));
            var t := Trimmed(fraction, precision);
            && |t| <= precision && AllDigits(t)
            && Value(t) * Pow10(precision - |t|) == fraction
            && InferredPrecision(s) == |t|
            && FromString(s, |t|, Strict) == Ok(whole * Pow10(|t|) + Value(t))
  {
    hide FromString, Value, Decimal, Trimmed, TrimText, Render, Combine, InferredPrecision, Pow10;
    var t := Trimmed(fraction, precision);
    TrimmedValue(fraction, precision);
    TrimmedText(whole, fraction, precision);
    CoarseValue(whole, fraction, Value(t), |t|, precision);
    ParseAsShown(whole, t);
  }

  lemma ConvertUp(coarse: u64, from: nat, to: nat)
    requires from <= to <= 19 && coarse * Pow10(to - from) < U64
    ensures ConvertPrecision(coarse, from, to) == Ok(coarse * Pow10(to - from))
  {
    ScaleExact(to - from);
  }

  /** The one-argument `New`, then `ConvertPrecision`. */
  function Reread(s: string, precision: nat): Outcome<u64>
    requires InferredPrecision(s) <= precision
  {
    var q := InferredPrecision(s);
    var parsed := FromString(s, q, Strict);
    if parsed.Err? then parsed else ConvertPrecision(parsed.value, q, precision)
  }

  /** The same for a rendering with a fraction. */
  lemma InferredReread(whole: u64, fraction: u64, precision: nat)
    requires 0 < precision <= 19
    requires whole * Pow10(precision) + fraction < U64 && fraction < Pow10(precision)
    ensures var s := TrimText(Render(whole, fraction, precision));
            InferredPrecision(s) <= precision && Reread(s, precision) == Ok(whole * Pow10(precision) + fraction)
  {
    hide FromString, TrimText, Render, InferredPrecision, Value, Trimmed, Pow10, ConvertPrecision;
    InferredParse(whole, fraction, precision);
    var t := Trimmed(fraction, precision);
    CoarseValue(whole, fraction, Value(t), |t|, precision);
    ConvertUp(whole * Pow10(|t|) + Value(t), |t|, precision);
  }

  lemma InferredWhole(value: u64)
    ensures ScaleFactor(0) != 0
    ensures InferredPrecision(ToText(value, 0, false)) == 0 && Reread(ToText(value, 0, false), 0) == Ok(value)
  {
    hide FromString, TrimText, Decimal, InferredPrecision;
    ScaleExact(0);
    FixedRoundTrip(value, 0, Strict);
    WholeText(value);
  }

  /** Parsing the trimmed text at the precision it shows and converting back to
      the original precision restores the value. */
  lemma InferredRoundTrip(value: u64, precision: nat)
    requires precision <= 19
    ensures ScaleFactor(precision) != 0
    ensures InferredPrecision(ToText(value, precision, false)) <= precision
    ensures Reread(ToText(value, precision, false), precision) == Ok(value)
  {
    hide Reread, TrimText, Render, InferredPrecision, Pow10, ScaleFactor, Quotient, Remainder;
    ScaleExact(precision);
    if precision == 0 {
      InferredWhole(value);
    } else {
      var scale := ScaleFactor(precision);
      InferredReread(Quotient(value, scale), Remainder(value, scale), precision);
    }
  }

  lemma CoarseValue(whole: nat, fraction: nat, short: nat, q: nat, precision: nat)
    requires q <= precision && short * Pow10(precision - q) == fraction
    ensures (whole * Pow10(q) + short) * Pow10(precision - q) == whole * Pow10(precision) + fraction
    ensures whole * Pow10(q) + short <= whole * Pow10(precision) + fraction
  {
    Pow10Add(q, precision - q);
    Regroup(whole, Pow10(q), short, Pow10(precision - q));
    FactorLe(whole * Pow10(q) + short, Pow10(precision - q), whole * Pow10(precision) + fraction);
  }

  lemma PartsOfShown(whole: nat, t: string)
    ensures var s := Shown(whole, t);
            && IntegerPart(s) == Decimal(whole) && FractionPart(s) == t
            && ('.' in s <==> t != "")
  {
    hide Decimal, FindDot;
    var a := Decimal(whole);
    if t == "" {
      NoDot(a);
    } else {
      FirstDot(a, t);
      var s := a + "." + t;
      assert s[|a|] == '.' && s[..|a|] == a && s[|a| + 1..] == t;
    }
  }

  lemma {:induction false} TrimEnds(s: string)
    ensures var t := TrimZeros(s);
            t != "" ==> t[|t| - 1] != '0'
  {
    if s != "" && s[|s| - 1] == '0' {
      TrimEnds(s[..|s| - 1]);
    }
  }

  /** The shape of the two renderings: digits, a dot and exactly `precision` digits;
      the trimmed one ends neither in a dot nor, after a dot, in a zero. */
  lemma RenderedShape(value: u64, precision: nat)
    requires 0 < precision <= 19
    ensures ScaleFactor(precision) != 0
    ensures var s := ToText(value, precision, true);
            '.' in s && |FractionPart(s)| == precision && AllDigits(IntegerPart(s)) && AllDigits(FractionPart(s))
    ensures var s := ToText(value, precision, false);
            && AllDigits(IntegerPart(s)) && AllDigits(FractionPart(s)) && |FractionPart(s)| <= precision
            && (FractionPart(s) != "" ==> FractionPart(s)[|FractionPart(s)| - 1] != '0')
            && ('.' in s <==> FractionPart(s) != "")
  {
    hide Decimal, Pow10, ScaleFactor, Quotient, Remainder, IntegerPart, FractionPart, TrimText, TrimZeros, Value;
    ScaleExact(precision);
    var scale := ScaleFactor(precision);
    var whole, fraction := Quotient(value, scale), Remainder(value, scale);
    var f := PadLeft(Decimal(fraction), precision);
    PadFacts(fraction, precision);
    PartsOfShown(whole, f);
    TrimmedText(whole, fraction, precision);
    TrimSplit(f);
    TrimEnds(f);
    PartsOfShown(whole, Trimmed(fraction, precision));
  }

  // ------------------------------------------------ what parsing accepts

  /** The number `whole.text` denotes at a precision, without 64-bit limits. */
  function Denoted(whole: nat, text: string, precision: nat): nat
    requires |text| <= precision && AllDigits(text)
  {
    whole * Pow10(precision) + Value(text) * Pow10(precision - |text|)
  }

  lemma {:induction false} ScaleUpWraps(fraction: u64, n: nat)
    ensures ScaleUp(fraction, n) == Wrap(fraction * Pow10(n))
  {
    if n > 0 {
      ScaleUpWraps(fraction, n - 1);
      WrapTimes(fraction * Pow10(n - 1), 10);
      Regroup(fraction, Pow10(n - 1), 0, 10);
    }
  }

  lemma CombineWraps(whole: u64, fraction: u64, digits: nat, precision: nat)
    requires digits <= precision <= 19
    ensures Combine(whole, fraction, digits, precision) ==
            Wrap(whole * Pow10(precision) + fraction * Pow10(precision - digits))
  {
    hide Wrap, Pow10, ScaleUp, ScaleFactor;
    ScaleExact(precision);
    ScaleUpWraps(fraction, precision - digits);
    WrapSum(whole * Pow10(precision), fraction * Pow10(precision - digits));
  }

  /** A text is an integer part and, after the first dot, a fraction. */
  function IntegerPart(s: string): string {
    var dot := FindDot(s);
    if dot.Some? then s[..dot.value] else s
  }

  /** The digits of the fraction that a precision keeps. */
  function KeptPart(s: string, precision: nat): string {
    var dot := FindDot(s);
    var text := if dot.Some? then s[dot.value + 1..] else "";
    if |text| > precision then text[..precision] else text
  }

  lemma AcceptedParts(s: string, precision: nat, mode: ParseMode)
    requires FromString(s, precision, mode).Ok?
    ensures AllDigits(IntegerPart(s)) && Value(IntegerPart(s)) < U64
    ensures |KeptPart(s, precision)| <= precision
    ensures AllDigits(KeptPart(s, precision)) && Value(KeptPart(s, precision)) < U64
    ensures FromString(s, precision, mode).value ==
            Combine(Value(IntegerPart(s)), Value(KeptPart(s, precision)), |KeptPart(s, precision)|, precision)
  {
    hide FindDot, Combine;
  }

  /** The whole fraction, before any cut. */
  function FractionPart(s: string): string {
    var dot := FindDot(s);
    if dot.Some? then s[dot.value + 1..] else ""
  }

  /** A text is its integer part, or that, a dot and the fraction; the integer part
      has no dot. */
  lemma PartsOfText(s: string)
    ensures '.' !in IntegerPart(s)
    ensures if '.' in s then s == IntegerPart(s) + "." + FractionPart(s) else s == IntegerPart(s) && FractionPart(s) == ""
  {
    var dot := FindDot(s);
    if dot.Some? {
      assert s == s[..dot.value] + [s[dot.value]] + s[dot.value + 1..];
    }
  }

  /** A number that fits in 64 bits. */
  predicate IsU64(s: string) { s != "" && AllDigits(s) && Value(s) < U64 }

  /** Which texts are accepted: the integer part is a 64-bit number; a fraction, if
      there is one, is refused when longer than the precision in strict mode and cut
      to the precision otherwise; what is kept of it is a 64-bit number. */
  lemma AcceptedIff(s: string, precision: nat, mode: ParseMode)
    ensures var fraction := FractionPart(s);
            FromString(s, precision, mode).Ok? <==>
            && IsU64(IntegerPart(s))
            && (fraction == "" || mode == Truncate || |fraction| <= precision)
            && (fraction == "" || IsU64(if |fraction| <= precision then fraction else fraction[..precision]))
    ensures IsU64(IntegerPart(s)) && mode == Strict && |FractionPart(s)| > precision ==>
            FromString(s, precision, mode) == Err(ValueTooLarge)
  {
    hide FindDot, Combine, Value;
  }

  /** Parsing does not check the combined value: for every accepted text it returns
      the number that integer part and kept digits denote, modulo 2^64; so the
      result is that number if and only if the number fits in 64 bits. */
  lemma ParseExactIff(s: string, precision: nat, mode: ParseMode)
    requires precision <= 19 && FromString(s, precision, mode).Ok?
    ensures AllDigits(IntegerPart(s)) && AllDigits(KeptPart(s, precision)) && |KeptPart(s, precision)| <= precision
    ensures var number := Denoted(Value(IntegerPart(s)), KeptPart(s, precision), precision);
            && FromString(s, precision, mode).value == Wrap(number)
            && (FromString(s, precision, mode).value == number <==> number < U64)
  {
    hide FromString, Value, Combine, IntegerPart, KeptPart, Pow10;
    AcceptedParts(s, precision, mode);
    var kept := KeptPart(s, precision);
    CombineWraps(Value(IntegerPart(s)), Value(kept), |kept|, precision);
  }

  /** 2^58 whole units at precision 6 read as zero: 10^6 has six factors of two. */
  lemma ParseOverflows()
    ensures FromString(Decimal(0x400_0000_0000_0000), 6, Strict) == Ok(0)
  {
    hide FromString, Decimal;
    ParseWhole(0x400_0000_0000_0000, 6, Strict);
    ScaleExact(6);
    assert Pow10(6) == 10 * Pow10(5) && Pow10(5) == 10 * Pow10(4) && Pow10(4) == 10_000;
    ScaleUpExact(0, 6);
    WrapIsMod(0x400_0000_0000_0000 * 1_000_000);
  }
}
