/**
 * The value helpers of app.py: `_to_int`, `_to_float` and `_calc_bmi`, and the
 * "recompute BMI only when the supplied one is falsy" step of `analyze_health`.
 */
module Conversions {
  import opened Wrappers

  /**
   * A scalar of the request's JSON body. A missing key reads as `Null`, as `dict.get`
   * returns None for it. `Number` is a JSON number (int or float). `Text` is a JSON
   * string; it carries what Python's `int()` and `float()` make of it (`None` when
   * they raise), since their parsing rules are not part of this model.
   */
  datatype Raw = Null | Number(n: real) | Text(s: string, asInt: Option<int>, asFloat: Option<real>)

  /** Python truthiness of a raw value: None, 0, 0.0 and "" are falsy. */
  predicate Truthy(v: Raw)
  {
    match v
    case Null => false
    case Number(n) => n != 0.0
    case Text(s, _, _) => s != ""
  }

  /** Python truthiness of an already converted number. */
  predicate TruthyInt(o: Option<int>)
  {
    o.Some? && o.value != 0
  }

  /** `int(x)` of a float: truncation toward zero. */
  function Truncate(x: real): (r: int)
    ensures 0.0 <= x ==> r as real <= x < r as real + 1.0
    ensures x < 0.0 ==> r as real - 1.0 < x <= r as real
  {
    if x >= 0.0 then x.Floor else -((-x).Floor)
  }

  /** `_to_int`: None and "" give None, anything int() rejects gives None; it never raises. */
  function ToInt(v: Raw): (r: Option<int>)
    ensures r.Some? <==> v.Number? || (v.Text? && v.s != "" && v.asInt.Some?)
    ensures v.Number? ==> r == Some(Truncate(v.n))
    ensures v.Text? && v.s != "" ==> r == v.asInt
  {
    match v
    case Null => None
    case Number(n) => Some(Truncate(n))
    case Text(s, asInt, _) => if s == "" then None else asInt
  }

  /** `_to_float`: None and "" give None, anything float() rejects gives None; it never raises. */
  function ToFloat(v: Raw): (r: Option<real>)
    ensures r.Some? <==> v.Number? || (v.Text? && v.s != "" && v.asFloat.Some?)
    ensures v.Number? ==> r == Some(v.n)
    ensures v.Text? && v.s != "" ==> r == v.asFloat
  {
    match v
    case Null => None
    case Number(n) => Some(n)
    case Text(s, _, asFloat) => if s == "" then None else asFloat
  }

  /**
   * `_calc_bmi`: None unless both height and weight convert to non-zero numbers and
   * the height is positive; otherwise the weight (kg) over the square of the height (m).
   */
  function CalcBmi(heightCm: Raw, weightKg: Raw): (r: Option<real>)
    ensures r.Some? <==>
      ToFloat(heightCm).Some? && ToFloat(heightCm).value > 0.0 &&
      ToFloat(weightKg).Some? && ToFloat(weightKg).value != 0.0
  {
    var h := ToFloat(heightCm);
    var w := ToFloat(weightKg);
    if h.None? || h.value == 0.0 || w.None? || w.value == 0.0 then None
    else
      var hm := h.value / 100.0;
      if hm <= 0.0 then None else Some(w.value / (hm * hm))
  }

  /** A computed BMI times the square of the height in metres gives back the weight. */
  lemma CalcBmiValue(heightCm: Raw, weightKg: Raw)
    ensures CalcBmi(heightCm, weightKg).Some? ==>
      var hm := ToFloat(heightCm).value / 100.0;
      CalcBmi(heightCm, weightKg).value * (hm * hm) == ToFloat(weightKg).value
  {
    if CalcBmi(heightCm, weightKg).Some? {
      var h := ToFloat(heightCm);
      var w := ToFloat(weightKg);
      var hm := h.value / 100.0;
      assert CalcBmi(heightCm, weightKg).value == w.value / (hm * hm);
    }
  }

  /** The `bmi` that the flag rules see: a real number, nothing, or text that was never converted. */
  datatype Bmi = NoBmi | Numeric(value: real) | Textual(text: string)

  /**
   * `if not bmi: bmi = _calc_bmi(height_cm, weight_kg)`: a truthy supplied value is kept
   * as it is (a JSON string stays a string), a falsy one is replaced by the computed BMI.
   */
  function EffectiveBmi(supplied: Raw, heightCm: Raw, weightKg: Raw): (b: Bmi)
    ensures Truthy(supplied) && supplied.Number? ==> b == Numeric(supplied.n)
    ensures Truthy(supplied) && supplied.Text? ==> b == Textual(supplied.s)
    ensures !Truthy(supplied) ==> !b.Textual? && (b.Numeric? <==> CalcBmi(heightCm, weightKg).Some?)
    ensures !Truthy(supplied) && b.Numeric? ==> b.value == CalcBmi(heightCm, weightKg).value
  {
    if !Truthy(supplied) then
      match CalcBmi(heightCm, weightKg)
      case Some(x) => Numeric(x)
      case None => NoBmi
    else
      match supplied
      case Number(n) => Numeric(n)
      case Text(s, _, _) => Textual(s)
  }
}
