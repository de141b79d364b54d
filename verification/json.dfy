/** JSON values as `serde_json::Value` holds them. Object keys are unique and
    unordered (serde_json's default map), so an object is a `map`. */
module Json {
  import opened Wrappers
  import opened Text

  /** An `f64`, kept opaque: the literal it was parsed from. */
  datatype Float64 = Float64(literal: string)

  datatype Number = Int(i: int) | Float(f: Float64)

  datatype Json =
    | Null
    | Bool(b: bool)
    | Num(n: Number)
    | Str(s: string)
    | Arr(items: seq<Json>)
    | Obj(fields: map<string, Json>)

  /** `value[key]`: the field's value, or `Null` when `value` is not an object
      or has no such field. */
  function Get(j: Json, key: string): (r: Json)
    ensures r != Null ==> j.Obj? && key in j.fields && r == j.fields[key]
    ensures j.Obj? && key in j.fields ==> r == j.fields[key]
  {
    if j.Obj? && key in j.fields then j.fields[key] else Null
  }

  /** `serde_json::to_value` of an `f64`: JSON has no infinity or NaN, so
      those become `null`, whether spelled out or reached by overflow. */
  function F64Value(f: Float64): (r: Json)
    ensures IsNonFiniteF64Literal(f.literal) ==> r == Null
    ensures r == Null <==> IsNonFiniteF64(f.literal)
    ensures r != Null ==> r == Num(Float(f))
  {
    if IsNonFiniteF64(f.literal) then Null else Num(Float(f))
  }

  /** "1eN" overflows to infinity, and so serialises as null, for every N
      from 316 on. */
  lemma HugeExponentIsNull(n: nat)
    requires n >= 316
    ensures F64Value(Float64("1e" + Decimal(n))) == Null
  {
    DecimalValue(n);
    ExponentLiteralParts(Decimal(n));
    TenPowOverflows(n);
  }

  /** A decimal literal with at most 300 digits before the point, such as a
      rating "8.5", stays a JSON number. */
  lemma ShortDecimalIsNumber(whole: string, frac: string)
    requires whole != [] && |whole| <= 300 && AllDigits(whole) && AllDigits(frac)
    ensures F64Value(Float64(whole + "." + frac)) == Num(Float(Float64(whole + "." + frac)))
  {
    var s := whole + "." + frac;
    PointLiteralParts(whole, frac);
    DigitsValueBound(whole + frac);
    FiniteScaled(DigitsValue(whole + frac), |whole|, |frac|);
    FiniteLiteral(s);
  }

  /** An unsigned decimal literal below the overflow threshold is a number. */
  lemma FiniteLiteral(s: string)
    requires UnsignedPart(s) == s && !IsNonFiniteF64Literal(s) && IsDecimalFloat(s)
    requires !RoundsToInfinity(DecimalFloatParts(s).0, DecimalFloatParts(s).1)
    ensures F64Value(Float64(s)) == Num(Float(Float64(s)))
  {
  }

  /** A number below 10^(w + f), with w <= 300, scaled down by 10^f, stays finite. */
  lemma FiniteScaled(m: nat, w: nat, f: nat)
    requires w <= 300 && m < Pow10(w + f)
    ensures !RoundsToInfinity(m, 0 - f)
  {
    TenPowFinite(w);
    Pow10IsPow(w);
    Pow10IsPow(f);
    Pow10IsPow(w + f);
    PowAdd(10, w, f);
    ScaledBelow(m, Pow10(w), Pow10(f), F64_OVERFLOW);
  }

  /** m < a * b with a < t gives m < t * b. */
  lemma ScaledBelow(m: nat, a: nat, b: nat, t: int)
    requires a < t && m < a * b
    ensures m < t * b
  {
    MulLe(a, t, b);
  }

  /** `Value::as_str`. */
  function AsStr(j: Json): Option<string> {
    if j.Str? then Some(j.s) else None
  }

  /** `Value::as_array`. */
  function AsArray(j: Json): Option<seq<Json>> {
    if j.Arr? then Some(j.items) else None
  }
}
