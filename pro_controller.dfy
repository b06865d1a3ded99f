/**
 * The handlers of controllers/calcController.js, the controller the routes are wired to. Each
 * answers "Missing inputs" (for the PF calculator "Missing input") when a required query
 * parameter is absent or empty, and otherwise echoes its inputs next to the computed figures,
 * rounded with `toFixed`. This variant has no range checks: the inputs for which the source
 * divides by zero, reads an unknown table key or converts from an unknown scale are excluded by
 * preconditions.
 */
module ProController {
  import opened Wrappers
  import opened Rounding
  import opened Amortization
  import opened Query
  import opened Responses

  const MissingInputs := "Missing inputs"
  const MissingInput := "Missing input"

  // ---------------------------------------------------------------- EMI

  /** The answer of the EMI handler. */
  datatype EmiEcho = EmiEcho(principal: real, rate: real, months: int, emi: real)

  /**
   * The inputs for which the formula has a value: `Math.pow(1 + r, months)` is defined (a
   * negative power of zero is not) and differs from one, so the denominator is not zero.
   */
  predicate EmiDefined(rate: real, months: int)
  {
    var b := 1.0 + MonthlyRate(rate);
    (months >= 0 || b != 0.0) && IntPow(b, months) != 1.0
  }

  /** For a rate above −1200% a defined formula is exactly a nonzero rate over a nonzero term. */
  lemma EmiDefinedExactly(rate: real, months: int)
    requires rate > -1200.0
    ensures EmiDefined(rate, months) <==> rate != 0.0 && months != 0
  {
    var b := 1.0 + MonthlyRate(rate);
    if rate == 0.0 {
      assert b == 1.0;
      if months >= 0 {
        PowOfOne(months);
      } else {
        PowOfOne(-months);
      }
    }
  }

  /** The amortisation formula with r = rate / 1200 and a possibly negative whole exponent. */
  function EmiFormula(principal: real, rate: real, months: int): (emi: real)
    requires EmiDefined(rate, months)
    ensures months > 0 ==> Balance(principal, MonthlyRate(rate), emi, months) == 0.0
  {
    var r := MonthlyRate(rate);
    if months > 0 then
      InstalmentClearsLoan(principal, r, months);
      Instalment(principal, r, months)
    else
      AnnuityQuotient(principal, r, IntPow(1.0 + r, months))
  }

  /** `exports.emi`. */
  function Emi(principal: Option<Param>, rate: Option<Param>, months: Option<Param>): (e: Envelope<EmiEcho>)
    requires Truthy(principal) && Truthy(rate) && Truthy(months) ==>
      EmiDefined(rate.value.number, ParseInt(months.value.number))
    ensures WellTagged(e)
    ensures e.status == "error" <==> !Truthy(principal) || !Truthy(rate) || !Truthy(months)
    ensures e.status == "error" ==> e.message == Some(MissingInputs)
    ensures e.status == "success" ==>
      var n := ParseInt(months.value.number);
      e.data == Some(EmiEcho(principal.value.number, rate.value.number, n,
                             ToFixed(EmiFormula(principal.value.number, rate.value.number, n), 2)))
  {
    if !Truthy(principal) || !Truthy(rate) || !Truthy(months) then Failure(MissingInputs)
    else
      var p := principal.value.number;
      var r := rate.value.number;
      var n := ParseInt(months.value.number);
      Success(EmiEcho(p, r, n, ToFixed(EmiFormula(p, r, n), 2)))
  }

  // ---------------------------------------------------------------- GST

  /** The answer of the GST handler. */
  datatype GstEcho = GstEcho(amount: real, gst: real, gstAmount: real, total: real)

  /** The tax on an amount at a percentage: amount · gst / 100. */
  function GstOn(amount: real, gst: real): (tax: real)
    ensures gst == 0.0 ==> tax == 0.0
    ensures amount >= 0.0 && gst >= 0.0 ==> tax >= 0.0
    ensures amount != 0.0 ==> tax / amount == gst / 100.0
  {
    (amount * gst) / 100.0
  }

  /** `exports.gst`. */
  function Gst(amount: Option<Param>, gst: Option<Param>): (e: Envelope<GstEcho>)
    ensures WellTagged(e)
    ensures e.status == "error" <==> !Truthy(amount) || !Truthy(gst)
    ensures e.status == "error" ==> e.message == Some(MissingInputs)
    ensures e.status == "success" ==>
      var a := amount.value.number;
      var tax := GstOn(a, gst.value.number);
      e.data == Some(GstEcho(a, gst.value.number, ToFixed(tax, 2), ToFixed(a + tax, 2)))
  {
    if !Truthy(amount) || !Truthy(gst) then Failure(MissingInputs)
    else
      var a := amount.value.number;
      var g := gst.value.number;
      var tax := GstOn(a, g);
      Success(GstEcho(a, g, ToFixed(tax, 2), ToFixed(a + tax, 2)))
  }

  /** The rounded total and the rounded tax differ from the amount plus the tax by at most one cent. */
  lemma GstTotalsNearlyAddUp(amount: Option<Param>, gst: Option<Param>)
    requires Truthy(amount) && Truthy(gst)
    ensures Gst(amount, gst).data.Some?
    ensures var d := Gst(amount, gst).data.value;
      -0.01 <= d.total - (d.amount + d.gstAmount) <= 0.01
  {
    assert Scale(2) == 100.0;
  }

  // ---------------------------------------------------------------- PF

  /** The answer of the PF handler. */
  datatype PfEcho = PfEcho(basic: real, employeePF: real, employerPF: real, totalPF: real)

  /** Each side's contribution: 12% of basic pay. */
  function PfShare(basic: real): (share: real)
    ensures share * 100.0 == basic * 12.0
    ensures basic >= 0.0 ==> 0.0 <= share <= basic
  {
    (basic * 12.0) / 100.0
  }

  /** `exports.pf`. */
  function Pf(basic: Option<Param>): (e: Envelope<PfEcho>)
    ensures WellTagged(e)
    ensures e.status == "error" <==> !Truthy(basic)
    ensures e.status == "error" ==> e.message == Some(MissingInput)
    ensures e.status == "success" ==>
      var share := PfShare(basic.value.number);
      e.data == Some(PfEcho(basic.value.number, ToFixed(share, 2), ToFixed(share, 2), ToFixed(share + share, 2)))
  {
    if !Truthy(basic) then Failure(MissingInput)
    else
      var b := basic.value.number;
      var employeePF := PfShare(b);
      var employerPF := PfShare(b);
      Success(PfEcho(b, ToFixed(employeePF, 2), ToFixed(employerPF, 2), ToFixed(employeePF + employerPF, 2)))
  }

  // ---------------------------------------------------------------- Salary

  /** The answer of the salary handler. */
  datatype SalaryEcho = SalaryEcho(annual: real, hours: real, hourly: real)

  /** Working weeks in a year in this controller. */
  const WeeksPerYear := 52

  /** The hourly rate over 52 weeks: the hours worked in a year at that rate give back the annual pay. */
  function HourlyOver52Weeks(annual: real, hours: real): (hourly: real)
    requires hours != 0.0
    ensures hourly * (WeeksPerYear as real * hours) == annual
  {
    annual / (WeeksPerYear as real * hours)
  }

  /** `exports.salary`; a zero weekly-hours reading would divide by zero. */
  function Salary(annual: Option<Param>, hours: Option<Param>): (e: Envelope<SalaryEcho>)
    requires Truthy(annual) && Truthy(hours) ==> hours.value.number != 0.0
    ensures WellTagged(e)
    ensures e.status == "error" <==> !Truthy(annual) || !Truthy(hours)
    ensures e.status == "error" ==> e.message == Some(MissingInputs)
    ensures e.status == "success" ==>
      e.data == Some(SalaryEcho(annual.value.number, hours.value.number,
                                ToFixed(HourlyOver52Weeks(annual.value.number, hours.value.number), 2)))
  {
    if !Truthy(annual) || !Truthy(hours) then Failure(MissingInputs)
    else
      var a := annual.value.number;
      var h := hours.value.number;
      Success(SalaryEcho(a, h, ToFixed(HourlyOver52Weeks(a, h), 2)))
  }

  // ---------------------------------------------------------------- Unit conversion

  /** Metres per unit of length. */
  const LengthFactors: map<string, real> := map[
    "Meter" := 1.0, "Kilometer" := 1000.0, "Centimeter" := 0.01, "Millimeter" := 0.001,
    "Mile" := 1609.34, "Yard" := 0.9144, "Foot" := 0.3048, "Inch" := 0.0254]

  /** Kilograms per unit of weight. */
  const WeightFactors: map<string, real> := map[
    "Kilogram" := 1.0, "Gram" := 0.001, "Pound" := 0.453592, "Ounce" := 0.0283495]

  /** Every unit of the table is a positive multiple of the base unit. */
  predicate PositiveFactors(table: map<string, real>)
  {
    forall u :: u in table ==> table[u] > 0.0
  }

  lemma TablesArePositive()
    ensures PositiveFactors(LengthFactors) && PositiveFactors(WeightFactors)
  {
  }

  /** Conversion through a table: value · factor[from] / factor[to], which keeps the quantity in base units. */
  function ScaleConvert(v: real, table: map<string, real>, from: string, to: string): (r: real)
    requires from in table && to in table && table[from] > 0.0 && table[to] > 0.0
    ensures r * table[to] == v * table[from]
  {
    v * table[from] / table[to]
  }

  lemma ScaleSameUnit(v: real, table: map<string, real>, u: string)
    requires u in table && PositiveFactors(table)
    ensures ScaleConvert(v, table, u, u) == v
  {
  }

  /** Converting A→B and back B→A returns the value. */
  lemma ScaleRoundTrip(v: real, table: map<string, real>, a: string, b: string)
    requires a in table && b in table && PositiveFactors(table)
    ensures ScaleConvert(ScaleConvert(v, table, a, b), table, b, a) == v
  {
    var w := ScaleConvert(v, table, a, b);
    assert ScaleConvert(w, table, b, a) * table[a] == v * table[a];
  }

  /** Converting A→B→C is converting A→C. */
  lemma ScaleCompose(v: real, table: map<string, real>, a: string, b: string, c: string)
    requires a in table && b in table && c in table && PositiveFactors(table)
    ensures ScaleConvert(ScaleConvert(v, table, a, b), table, b, c) == ScaleConvert(v, table, a, c)
  {
    var w := ScaleConvert(v, table, a, b);
    assert ScaleConvert(w, table, b, c) * table[c] == ScaleConvert(v, table, a, c) * table[c];
  }

  /** The temperature scales `tempConvert` recognises. */
  predicate IsScale(s: string)
  {
    s == "Celsius" || s == "Fahrenheit" || s == "Kelvin"
  }

  /** The first half of `tempConvert`: a reading on a scale, in degrees Celsius. */
  function ToCelsius(v: real, from: string): (c: real)
    requires IsScale(from)
    ensures from == "Celsius" ==> c == v
    ensures from == "Kelvin" ==> c + 273.15 == v
    ensures from == "Fahrenheit" ==> c * 9.0 / 5.0 + 32.0 == v
  {
    if from == "Celsius" then v
    else if from == "Fahrenheit" then (v - 32.0) * (5.0 / 9.0)
    else v - 273.15
  }

  /** The second half of `tempConvert`: degrees Celsius, read on a scale. */
  function FromCelsius(c: real, to: string): (r: real)
    requires IsScale(to)
    ensures ToCelsius(r, to) == c
  {
    if to == "Celsius" then c
    else if to == "Fahrenheit" then c * 9.0 / 5.0 + 32.0
    else c + 273.15
  }

  /** Reading a temperature on a scale and going back to Celsius changes nothing. */
  lemma CelsiusRoundTrip(v: real, s: string)
    requires IsScale(s)
    ensures FromCelsius(ToCelsius(v, s), s) == v
  {
  }

  /** `tempConvert(v, f, t)`: through Celsius; the result is the same temperature as the value. */
  function TempConvert(v: real, from: string, to: string): (r: real)
    requires IsScale(from) && IsScale(to)
    ensures ToCelsius(r, to) == ToCelsius(v, from)
  {
    FromCelsius(ToCelsius(v, from), to)
  }

  /** Converting A→B and back B→A returns the value. */
  lemma TempRoundTrip(v: real, a: string, b: string)
    requires IsScale(a) && IsScale(b)
    ensures TempConvert(TempConvert(v, a, b), b, a) == v
  {
    CelsiusRoundTrip(v, a);
  }

  /** Converting A→B→C is converting A→C. */
  lemma TempCompose(v: real, a: string, b: string, c: string)
    requires IsScale(a) && IsScale(b) && IsScale(c)
    ensures TempConvert(TempConvert(v, a, b), b, c) == TempConvert(v, a, c)
  {
  }

  /** Water freezes at 0 °C, 32 °F and 273.15 K and boils at 100 °C, 212 °F and 373.15 K. */
  lemma FixedPoints()
    ensures TempConvert(0.0, "Celsius", "Fahrenheit") == 32.0
    ensures TempConvert(32.0, "Fahrenheit", "Kelvin") == 273.15
    ensures TempConvert(212.0, "Fahrenheit", "Celsius") == 100.0
    ensures TempConvert(373.15, "Kelvin", "Fahrenheit") == 212.0
  {
  }

  /**
   * The requests the unit converter can answer: both units in the category's table, or both
   * recognised scales; any other category leaves the result null and `toFixed` then throws.
   */
  predicate Convertible(category: string, from: string, to: string)
  {
    || (category == "length" && from in LengthFactors && to in LengthFactors)
    || (category == "weight" && from in WeightFactors && to in WeightFactors)
    || (category == "temperature" && IsScale(from) && IsScale(to))
  }

  /** The conversion by category: through the category's table, or through Celsius. */
  function ConvertValue(category: string, from: string, to: string, v: real): (r: real)
    requires Convertible(category, from, to)
    ensures category == "length" ==> r * LengthFactors[to] == v * LengthFactors[from]
    ensures category == "weight" ==> r * WeightFactors[to] == v * WeightFactors[from]
    ensures category == "temperature" ==> ToCelsius(r, to) == ToCelsius(v, from)
  {
    if category == "length" then ConvertLength(v, from, to)
    else if category == "weight" then ConvertWeight(v, from, to)
    else TempConvert(v, from, to)
  }

  /** Conversion through the length table. */
  function ConvertLength(v: real, from: string, to: string): (r: real)
    requires from in LengthFactors && to in LengthFactors
    ensures r * LengthFactors[to] == v * LengthFactors[from]
  {
    assert LengthFactors[from] > 0.0 && LengthFactors[to] > 0.0 by { TablesArePositive(); }
    ScaleConvert(v, LengthFactors, from, to)
  }

  /** Conversion through the weight table. */
  function ConvertWeight(v: real, from: string, to: string): (r: real)
    requires from in WeightFactors && to in WeightFactors
    ensures r * WeightFactors[to] == v * WeightFactors[from]
  {
    assert WeightFactors[from] > 0.0 && WeightFactors[to] > 0.0 by { TablesArePositive(); }
    ScaleConvert(v, WeightFactors, from, to)
  }

  /** In every category converting to the same unit is the identity and A→B→A returns the value. */
  lemma ConvertRoundTrip(category: string, from: string, to: string, v: real)
    requires Convertible(category, from, to)
    ensures Convertible(category, to, from)
    ensures ConvertValue(category, to, from, ConvertValue(category, from, to, v)) == v
    ensures ConvertValue(category, from, from, v) == v
  {
    TablesArePositive();
    if category == "length" {
      ScaleRoundTrip(v, LengthFactors, from, to);
      ScaleSameUnit(v, LengthFactors, from);
    } else if category == "weight" {
      ScaleRoundTrip(v, WeightFactors, from, to);
      ScaleSameUnit(v, WeightFactors, from);
    } else {
      TempRoundTrip(v, from, to);
      CelsiusRoundTrip(v, from);
    }
  }

  /** A mile is 1609.34 m, so 5 km is a little over three miles. */
  lemma LengthExamples()
    ensures ConvertValue("length", "Kilometer", "Meter", 1.0) == 1000.0
    ensures ConvertValue("length", "Mile", "Kilometer", 1.0) == 1.60934
    ensures ConvertValue("weight", "Kilogram", "Gram", 2.5) == 2500.0
  {
    TablesArePositive();
  }

  /** The answer of the unit converter: the inputs as given and the result to four decimals. */
  datatype UnitEcho = UnitEcho(category: string, from: string, to: string, value: string, result: real)

  /** `exports.unit`. */
  function Unit(category: Option<Param>, from: Option<Param>, to: Option<Param>, value: Option<Param>)
    : (e: Envelope<UnitEcho>)
    requires Truthy(category) && Truthy(from) && Truthy(to) && Truthy(value) ==>
      Convertible(category.value.text, from.value.text, to.value.text)
    ensures WellTagged(e)
    ensures e.status == "error" <==> !Truthy(category) || !Truthy(from) || !Truthy(to) || !Truthy(value)
    ensures e.status == "error" ==> e.message == Some(MissingInputs)
    ensures e.status == "success" ==>
      e.data == Some(UnitEcho(category.value.text, from.value.text, to.value.text, value.value.text,
                              ToFixed(ConvertValue(category.value.text, from.value.text, to.value.text,
                                                   value.value.number), 4)))
  {
    if !Truthy(category) || !Truthy(from) || !Truthy(to) || !Truthy(value) then Failure(MissingInputs)
    else
      var result := ConvertValue(category.value.text, from.value.text, to.value.text, value.value.number);
      Success(UnitEcho(category.value.text, from.value.text, to.value.text, value.value.text, ToFixed(result, 4)))
  }

  /** Worked requests: 18% on 1000, and PF on a basic pay of 20000 or on an empty one. */
  lemma HandlerExamples()
    ensures Gst(Some(Param("1000", 1000.0)), Some(Param("18", 18.0)))
         == Success(GstEcho(1000.0, 18.0, 180.0, 1180.0))
    ensures Pf(Some(Param("20000", 20000.0))) == Success(PfEcho(20000.0, 2400.0, 2400.0, 4800.0))
    ensures Pf(Some(Param("", 0.0))) == Failure(MissingInput)
  {
    ToFixedKeepsDecimals(180.0, 2);
    ToFixedKeepsDecimals(1180.0, 2);
    ToFixedKeepsDecimals(2400.0, 2);
    ToFixedKeepsDecimals(4800.0, 2);
  }

  /** A worked request: 1 km in metres. */
  lemma UnitExample()
    ensures Unit(Some(Param("length", 0.0)), Some(Param("Kilometer", 0.0)), Some(Param("Meter", 0.0)),
                 Some(Param("1", 1.0)))
         == Success(UnitEcho("length", "Kilometer", "Meter", "1", 1000.0))
  {
    LengthExamples();
    ToFixedKeepsDecimals(1000.0, 4);
  }
}
