/**
 * The Python values the services pass around: decoded JSON messages, the
 * record dicts they build, and `decimal.Decimal` numbers, together with the
 * handful of Python built-ins the services apply to them (truthiness,
 * `dict.get`, `d[k]`, `str()`, `Decimal()`, `float(x) != 0`) and redis-py's
 * rule for which values it accepts as command arguments.
 */
module Values {
  import opened Wrappers
  import opened Text

  // ---------------------------------------------------------------------------
  // Decimal numbers (Python's decimal.Decimal: sign, coefficient, exponent)
  // ---------------------------------------------------------------------------

  datatype Decimal = Decimal(negative: bool, coef: nat, exp: int)

  function Pow10(e: int): real
    decreases if e >= 0 then e else -e
  {
    if e == 0 then 1.0 else if e > 0 then 10.0 * Pow10(e - 1) else Pow10(e + 1) / 10.0
  }

  /** The magnitude of a decimal: coefficient times ten to the exponent. */
  function Magnitude(d: Decimal): real
  {
    (d.coef as real) * Pow10(d.exp)
  }

  /** The exact number a decimal stands for. */
  function Real(d: Decimal): real
  {
    if d.negative then -Magnitude(d) else Magnitude(d)
  }

  lemma {:induction false} Pow10Positive(e: int)
    ensures Pow10(e) > 0.0
    decreases if e >= 0 then e else -e
  {
    if e > 0 {
      Pow10Positive(e - 1);
    } else if e < 0 {
      Pow10Positive(e + 1);
    }
  }

  lemma Pow10Next(e: int, e1: int)
    requires e1 == e + 1
    ensures Pow10(e1) == 10.0 * Pow10(e)
  {
    if e < 0 {
      assert Pow10(e) == Pow10(e1) / 10.0;
    }
  }

  /** One step up: from `10^(a-1+b) = 10^(a-1) * 10^b` to the same with `a`. */
  lemma ScaleUp(a: int, b: int, x: real, y: real, z: real)
    requires x == Pow10(a - 1 + b) && y == Pow10(a - 1) && z == Pow10(b)
    requires x == y * z
    ensures 10.0 * x == (10.0 * y) * z
  {
  }

  /** One step down: dividing `10x = (10y) z` by ten. */
  lemma ScaleDown(x: real, y: real, z: real, x1: real, y1: real)
    requires x1 == y1 * z && x1 == 10.0 * x && y1 == 10.0 * y
    ensures x == y * z
  {
    assert 10.0 * x == 10.0 * (y * z);
  }

  /** Powers of ten multiply by adding exponents. */
  lemma Pow10Add(a: int, b: int)
    ensures Pow10(a + b) == Pow10(a) * Pow10(b)
  {
    if a >= 0 {
      Pow10AddUp(a, b);
    } else {
      Pow10AddDown(a, b);
    }
  }

  lemma {:induction false} Pow10AddUp(a: nat, b: int)
    ensures Pow10(a + b) == Pow10(a) * Pow10(b)
  {
    if a == 0 {
      assert Pow10(a) == 1.0;
    } else {
      Pow10AddUp(a - 1, b);
      Pow10StepUp(a, b);
    }
  }

  lemma Pow10StepUp(a: int, b: int)
    requires a > 0
    requires Pow10(a - 1 + b) == Pow10(a - 1) * Pow10(b)
    ensures Pow10(a + b) == Pow10(a) * Pow10(b)
  {
    Pow10Next(a - 1 + b, a + b);
    Pow10Next(a - 1, a);
    var x, y, z := Pow10(a - 1 + b), Pow10(a - 1), Pow10(b);
    ScaleUp(a, b, x, y, z);
  }

  lemma {:induction false} Pow10AddDown(a: int, b: int)
    requires a < 0
    ensures Pow10(a + b) == Pow10(a) * Pow10(b)
    decreases -a
  {
    if a == -1 {
      assert Pow10(a + 1) == 1.0;
    } else {
      Pow10AddDown(a + 1, b);
    }
    Pow10StepDown(a, b);
  }

  lemma Pow10StepDown(a: int, b: int)
    requires a < 0
    requires Pow10(a + 1 + b) == Pow10(a + 1) * Pow10(b)
    ensures Pow10(a + b) == Pow10(a) * Pow10(b)
  {
    var x, y, z := Pow10(a + b), Pow10(a), Pow10(b);
    var x1, y1 := Pow10(a + 1 + b), Pow10(a + 1);
    assert x1 == 10.0 * x by { Pow10Next(a + b, a + 1 + b); }
    assert y1 == 10.0 * y by { Pow10Next(a, a + 1); }
    ScaleDown(x, y, z, x1, y1);
  }

  /** `a * b` for decimals: signs combine, coefficients multiply, exponents add. */
  function Mul(a: Decimal, b: Decimal): Decimal
  {
    Decimal(a.negative != b.negative, a.coef * b.coef, a.exp + b.exp)
  }

  /** Decimal multiplication is exact. */
  lemma MulExact(a: Decimal, b: Decimal)
    ensures Real(Mul(a, b)) == Real(a) * Real(b)
  {
    MagnitudeMul(a, b);
    SignedProduct(a.negative, b.negative, Magnitude(a), Magnitude(b));
  }

  /** Magnitudes multiply. */
  lemma MagnitudeMul(a: Decimal, b: Decimal)
    ensures Magnitude(Mul(a, b)) == Magnitude(a) * Magnitude(b)
  {
    var m := Mul(a, b);
    MulParts(a, b);
    Regroup(m.coef as real, Pow10(m.exp), a.coef as real, b.coef as real, Pow10(a.exp), Pow10(b.exp),
            Magnitude(m), Magnitude(a), Magnitude(b));
  }

  /** The coefficient and the power of ten of a product. */
  lemma MulParts(a: Decimal, b: Decimal)
    ensures Mul(a, b).coef as real == (a.coef as real) * (b.coef as real)
    ensures Pow10(Mul(a, b).exp) == Pow10(a.exp) * Pow10(b.exp)
  {
    Pow10Add(a.exp, b.exp);
  }

  lemma Regroup(c: real, p: real, ca: real, cb: real, pa: real, pb: real, x: real, y: real, z: real)
    requires c == ca * cb && p == pa * pb
    requires x == c * p && y == ca * pa && z == cb * pb
    ensures x == y * z
  {
    assert (ca * cb) * (pa * pb) == (ca * pa) * (cb * pb);
  }

  /** The sign rule of a product. */
  lemma SignedProduct(na: bool, nb: bool, x: real, y: real)
    ensures (if na != nb then -(x * y) else x * y) == (if na then -x else x) * (if nb then -y else y)
  {
  }

  /** `d > 0` for a decimal. */
  predicate IsPositive(d: Decimal)
  {
    !d.negative && d.coef > 0
  }

  lemma IsPositiveIffGreaterThanZero(d: Decimal)
    ensures IsPositive(d) <==> Real(d) > 0.0
  {
    Pow10Positive(d.exp);
    var c, p := d.coef as real, Pow10(d.exp);
    if d.coef > 0 {
      assert Magnitude(d) == c * p > 0.0;
    } else {
      assert c == 0.0;
    }
  }

  // ---------------------------------------------------------------------------
  // Parsing and rendering decimals: Decimal(s) and str(d)
  // ---------------------------------------------------------------------------

  /**
   * `Decimal(s)` for the literal forms the exchange sends: an optional sign,
   * digits, and an optional fraction, with at least one digit in all.
   */
  function ParseDecimal(s: string): Option<Decimal>
  {
    var body := if |s| > 0 && (s[0] == '-' || s[0] == '+') then s[1..] else s;
    match ParseUnsigned(body)
    case Some((coef, fractionDigits)) => Some(Decimal(|s| > 0 && s[0] == '-', coef, -(fractionDigits as int)))
    case None => None
  }

  /** The coefficient and the number of fraction digits of an unsigned literal. */
  function ParseUnsigned(body: string): Option<(nat, nat)>
  {
    var parts := Split(body, '.');
    if |parts| > 2 then None
    else
      var intDigits := parts[0];
      var fracDigits := if |parts| == 2 then parts[1] else "";
      if AllDigits(intDigits) && AllDigits(fracDigits) && |intDigits| + |fracDigits| >= 1 then
        assert AllDigits(intDigits + fracDigits);
        Some((DigitsValue(intDigits + fracDigits), |fracDigits|))
      else None
  }

  predicate NoDot(s: string)
  {
    '.' !in s
  }

  lemma DigitsHaveNoDot(s: string)
    requires AllDigits(s)
    ensures NoDot(s)
  {
    assert forall i :: 0 <= i < |s| ==> s[i] != '.';
  }

  lemma ParseIntegerLiteral(digits: string)
    requires AllDigits(digits) && |digits| >= 1
    ensures ParseUnsigned(digits) == Some((DigitsValue(digits), 0))
  {
    DigitsHaveNoDot(digits);
    SplitWithoutSep(digits, '.');
    assert digits + "" == digits;
  }

  lemma ParseFractionLiteral(intDigits: string, fracDigits: string)
    requires AllDigits(intDigits) && AllDigits(fracDigits) && |intDigits| + |fracDigits| >= 1
    ensures AllDigits(intDigits + fracDigits)
    ensures ParseUnsigned(intDigits + "." + fracDigits) == Some((DigitsValue(intDigits + fracDigits), |fracDigits|))
  {
    DigitsHaveNoDot(intDigits);
    DigitsHaveNoDot(fracDigits);
    assert intDigits + "." + fracDigits == intDigits + ['.'] + fracDigits;
    SplitAtFirstSep(intDigits, fracDigits, '.');
    SplitWithoutSep(fracDigits, '.');
  }

  lemma ParseSigned(negative: bool, body: string)
    requires |body| > 0 && IsDigit(body[0])
    ensures ParseDecimal((if negative then "-" else "") + body)
         == match ParseUnsigned(body)
            case Some((coef, k)) => Some(Decimal(negative, coef, -(k as int)))
            case None => None
  {
    var s := (if negative then "-" else "") + body;
    if negative {
      assert s[0] == '-' && s[1..] == body;
    } else {
      assert s == body;
    }
  }

  function Zeros(k: nat): (z: string)
    ensures |z| == k && AllDigits(z)
  {
    seq(k, _ => '0')
  }

  lemma {:induction false} ZerosValue(k: nat)
    ensures DigitsValue(Zeros(k)) == 0
  {
    if k > 0 {
      assert Zeros(k)[..k - 1] == Zeros(k - 1);
      ZerosValue(k - 1);
    }
  }

  /** Where `str(d)` puts the decimal point: `Decimal.__str__`'s `dotplace`. */
  function DotPlace(d: Decimal): int
  {
    var leftdigits := d.exp + |NatToString(d.coef)|;
    if d.exp <= 0 && leftdigits > -6 then leftdigits else 1
  }

  /** `str(d)`: plain notation when the exponent is not positive and the number is not tiny, scientific otherwise. */
  function DecimalToString(d: Decimal): string
  {
    var digits := NatToString(d.coef);
    var leftdigits := d.exp + |digits|;
    var dotplace := DotPlace(d);
    var intpart :=
      if dotplace <= 0 then "0"
      else if dotplace >= |digits| then digits + Zeros(dotplace - |digits|)
      else digits[..dotplace];
    var fracpart :=
      if dotplace <= 0 then "." + Zeros(-dotplace) + digits
      else if dotplace >= |digits| then ""
      else "." + digits[dotplace..];
    var exppart :=
      if leftdigits == dotplace then ""
      else "E" + (if leftdigits - dotplace >= 0 then "+" else "") + IntToString(leftdigits - dotplace);
    (if d.negative then "-" else "") + intpart + fracpart + exppart
  }

  /** Plain notation: `str(d)` is the sign followed by the digits with the point placed at `DotPlace(d)`. */
  predicate Plain(d: Decimal)
  {
    d.exp <= 0 && d.exp + |NatToString(d.coef)| > -6
  }

  function SignText(d: Decimal): string
  {
    if d.negative then "-" else ""
  }

  lemma PlainLeading(d: Decimal)
    requires Plain(d) && DotPlace(d) <= 0
    ensures DecimalToString(d) == SignText(d) + ("0" + "." + (Zeros(-DotPlace(d)) + NatToString(d.coef)))
  {
  }

  lemma PlainInteger(d: Decimal)
    requires Plain(d) && DotPlace(d) >= |NatToString(d.coef)|
    ensures DecimalToString(d) == SignText(d) + NatToString(d.coef)
  {
    var digits := NatToString(d.coef);
    assert digits + Zeros(DotPlace(d) - |digits|) == digits;
  }

  lemma PlainMiddle(d: Decimal)
    requires Plain(d) && 0 < DotPlace(d) < |NatToString(d.coef)|
    ensures DecimalToString(d) == SignText(d) + (NatToString(d.coef)[..DotPlace(d)] + "." + NatToString(d.coef)[DotPlace(d)..])
  {
  }

  /** `0.` followed by `k` zeros and some digits parses to those digits' value with `k` plus their count fraction digits. */
  lemma LeadingDigits(k: nat, digits: string)
    requires AllDigits(digits)
    ensures ParseUnsigned("0" + "." + (Zeros(k) + digits)) == Some((DigitsValue(digits), k + |digits|))
  {
    var frac := Zeros(k) + digits;
    ZerosThenDigits(k, digits);
    ZerosThenDigitsValue(k, digits);
    var value := DigitsValue("0" + frac);
    assert value == DigitsValue(digits);
    assert |frac| == k + |digits|;
    ParseFractionLiteral("0", frac);
  }

  lemma ZerosThenDigits(k: nat, digits: string)
    requires AllDigits(digits)
    ensures AllDigits(Zeros(k) + digits)
    ensures "0" + (Zeros(k) + digits) == Zeros(k + 1) + digits
  {
    var frac := Zeros(k) + digits;
    assert forall i :: 0 <= i < |frac| ==> frac[i] == if i < k then '0' else digits[i - k];
    assert forall i :: 0 <= i < |frac| + 1 ==> ("0" + frac)[i] == (Zeros(k + 1) + digits)[i];
  }

  lemma ZerosThenDigitsValue(k: nat, digits: string)
    requires AllDigits(digits)
    ensures AllDigits(Zeros(k + 1) + digits)
    ensures DigitsValue(Zeros(k + 1) + digits) == DigitsValue(digits)
  {
    var z := Zeros(k + 1);
    DigitsValueAppend(z, digits);
    ZerosValue(k + 1);
  }

  lemma RoundTripLeading(d: Decimal)
    requires Plain(d) && DotPlace(d) <= 0
    ensures ParseDecimal(DecimalToString(d)) == Some(d)
  {
    var digits := NatToString(d.coef);
    var dot := DotPlace(d);
    DigitsValueOfNatToString(d.coef);
    PlainLeading(d);
    LeadingDigits(-dot, digits);
    var body := "0" + "." + (Zeros(-dot) + digits);
    assert body[0] == '0';
    ParseSigned(d.negative, body);
  }

  lemma RoundTripInteger(d: Decimal)
    requires Plain(d) && DotPlace(d) >= |NatToString(d.coef)|
    ensures ParseDecimal(DecimalToString(d)) == Some(d)
  {
    var digits := NatToString(d.coef);
    DigitsValueOfNatToString(d.coef);
    PlainInteger(d);
    ParseIntegerLiteral(digits);
    ParseSigned(d.negative, digits);
  }

  lemma RoundTripMiddle(d: Decimal)
    requires Plain(d) && 0 < DotPlace(d) < |NatToString(d.coef)|
    ensures ParseDecimal(DecimalToString(d)) == Some(d)
  {
    var digits := NatToString(d.coef);
    var dot := DotPlace(d);
    DigitsValueOfNatToString(d.coef);
    PlainMiddle(d);
    var intpart, fracpart := digits[..dot], digits[dot..];
    assert intpart + fracpart == digits;
    ParseFractionLiteral(intpart, fracpart);
    ParseSigned(d.negative, intpart + "." + fracpart);
  }

  /** Decimals printed in plain notation read back as the same decimal. */
  lemma DecimalRoundTrip(d: Decimal)
    requires Plain(d)
    ensures ParseDecimal(DecimalToString(d)) == Some(d)
  {
    if DotPlace(d) <= 0 {
      RoundTripLeading(d);
    } else if DotPlace(d) >= |NatToString(d.coef)| {
      RoundTripInteger(d);
    } else {
      RoundTripMiddle(d);
    }
  }

  // ---------------------------------------------------------------------------
  // Python values
  // ---------------------------------------------------------------------------

  /** The values found in decoded JSON and in the records the services build. */
  datatype Value =
    | VNone
    | VBool(b: bool)
    | VInt(i: int)
    | VDec(d: Decimal)
    | VStr(s: string)
    | VList(items: seq<Value>)
    | VDict(fields: map<string, Value>)

  /** The exceptions the modelled code can raise. */
  datatype Exc =
    | ValueError
    | TypeError
    | KeyError
    | AttributeError
    | DataError          // redis-py refusing an argument type
    | InvalidOperation   // Decimal() of a malformed literal
    | OperationalError   // the database server unreachable or refusing a statement
    | Unsupported        // a list or dict formatted into a key; see the README

  /** Python truthiness. */
  predicate Truthy(v: Value)
  {
    match v
    case VNone => false
    case VBool(b) => b
    case VInt(i) => i != 0
    case VDec(d) => d.coef != 0
    case VStr(s) => s != ""
    case VList(xs) => |xs| > 0
    case VDict(m) => |m| > 0
  }

  /** `d.get(k, default)`. */
  function GetOr(d: map<string, Value>, k: string, default: Value): (r: Value)
    ensures k in d ==> r == d[k]
    ensures k !in d ==> r == default
  {
    if k in d then d[k] else default
  }

  /** `v[k]` with a string key. */
  function Item(v: Value, k: string): (r: Result<Value, Exc>)
    ensures r.Success? <==> v.VDict? && k in v.fields
    ensures r.Success? ==> r.value == v.fields[k]
  {
    match v
    case VDict(m) => if k in m then Success(m[k]) else Failure(KeyError)
    case _ => Failure(TypeError)
  }

  predicate IsScalar(v: Value)
  {
    !v.VList? && !v.VDict?
  }

  /** `str(v)` for a scalar. */
  function Render(v: Value): string
    requires IsScalar(v)
  {
    match v
    case VNone => "None"
    case VBool(b) => if b then "True" else "False"
    case VInt(i) => IntToString(i)
    case VDec(d) => DecimalToString(d)
    case VStr(s) => s
  }

  /** The bytes redis-py sends for a command argument: str and int only (bool, None, Decimal raise DataError). */
  function Encode(v: Value): (r: Result<string, Exc>)
    ensures r.Success? <==> v.VStr? || v.VInt?
    ensures r.Success? ==> IsScalar(v) && r.value == Render(v)
    ensures r.Failure? ==> r.error == DataError
  {
    match v
    case VStr(s) => Success(s)
    case VInt(i) => Success(IntToString(i))
    case _ => Failure(DataError)
  }

  /**
   * `Decimal(v)`. None and a dict raise TypeError. A list is read as a
   * (sign, digits, exponent) tuple, which this model does not decode: every
   * list raises ValueError, as a malformed one does.
   */
  function DecimalOf(v: Value): (r: Result<Decimal, Exc>)
    ensures v.VInt? || v.VBool? ==> r.Success?
    ensures v.VDec? ==> r == Success(v.d)
    ensures v.VNone? || v.VDict? ==> r == Failure(TypeError)
    ensures v.VList? ==> r == Failure(ValueError)
    ensures v.VStr? ==> (r.Success? <==> ParseDecimal(v.s).Some?)
  {
    match v
    case VStr(s) =>
      (match ParseDecimal(s)
       case Some(d) => Success(d)
       case None => Failure(InvalidOperation))
    case VInt(i) => Success(Decimal(i < 0, if i < 0 then -i else i, 0))
    case VBool(b) => Success(Decimal(false, if b then 1 else 0, 0))
    case VDec(d) => Success(d)
    case VList(_) => Failure(ValueError)
    case VNone | VDict(_) => Failure(TypeError)
  }

  /** `Decimal(i)` of an integer is that integer exactly. */
  lemma DecimalOfInt(i: int)
    ensures DecimalOf(VInt(i)).Success? && Real(DecimalOf(VInt(i)).value) == i as real
  {
    assert Pow10(0) == 1.0;
  }

  /** `float(v) != 0`, where a failing conversion counts as zero. */
  predicate AmountIsNonZero(v: Value)
  {
    match v
    case VStr(s) => (match ParseDecimal(s) case Some(d) => d.coef != 0 case None => false)
    case VInt(i) => i != 0
    case VBool(b) => b
    case VDec(d) => d.coef != 0
    case _ => false
  }

  /** A numeric text counts as an open amount exactly when the number it writes is not zero. */
  lemma AmountIsNonZeroMeansNonZero(s: string, d: Decimal)
    requires ParseDecimal(s) == Some(d)
    ensures AmountIsNonZero(VStr(s)) <==> Real(d) != 0.0
  {
    Pow10Positive(d.exp);
    var c, p := d.coef as real, Pow10(d.exp);
    if d.coef != 0 {
      assert Magnitude(d) == c * p != 0.0;
    }
  }
}
