/** The conversion engine: `convert` and the helpers that route a value through the
    intermediate unit of its type (metres, grams, degrees Celsius). */
module Conversion {
  import opened Wrappers
  import opened Units

  /** `convertToOrFromMeters`: metres to the unit (`fromMeters`) or the unit to metres. */
  function ConvertToOrFromMeters(fromMeters: bool, sourceValue: real, unit: Unit): (r: Result<real>)
    ensures r.Failure? <==> unit.Type() != Distance
    ensures r.Failure? ==> r.error == "Conversion to/from meters is impossible"
  {
    if unit.Type() != Distance then Failure("Conversion to/from meters is impossible")
    else if fromMeters then Success(sourceValue / unit.InterUnitValue())
    else Success(sourceValue * unit.InterUnitValue())
  }

  /** `convertToOrFromGrams`: grams to the unit (`fromGrams`) or the unit to grams. */
  function ConvertToOrFromGrams(fromGrams: bool, sourceValue: real, unit: Unit): (r: Result<real>)
    ensures r.Failure? <==> unit.Type() != Mass
    ensures r.Failure? ==> r.error == "Conversion to/from grams is impossible"
  {
    if unit.Type() != Mass then Failure("Conversion to/from grams is impossible")
    else if fromGrams then Success(sourceValue / unit.InterUnitValue())
    else Success(sourceValue * unit.InterUnitValue())
  }

  /** `convertToCelsius` */
  function ConvertToCelsius(sourceValue: real, source: Unit): (r: Result<real>)
    ensures r.Failure? <==> source.Type() != Temperature
    ensures r.Failure? ==> r.error == "Conversion to Celsius is impossible"
  {
    if source.Type() != Temperature then Failure("Conversion to Celsius is impossible")
    else match source
      case Kelvin => Success(sourceValue - 273.15)
      case Fahrenheit => Success((sourceValue - 32.0) * (5.0 / 9.0))
      case _ => Success(sourceValue)
  }

  /** `convertFromCelsius` */
  function ConvertFromCelsius(sourceValue: real, target: Unit): (r: Result<real>)
    ensures r.Failure? <==> target.Type() != Temperature
    ensures r.Failure? ==> r.error == "Conversion from Celsius is impossible"
  {
    if target.Type() != Temperature then Failure("Conversion from Celsius is impossible")
    else match target
      case Kelvin => Success(sourceValue + 273.15)
      case Fahrenheit => Success(sourceValue * (9.0 / 5.0) + 32.0)
      case _ => Success(sourceValue)
  }

  /** `v` of `source` and `w` of `target` are the same length, mass or temperature:
      they agree once expressed in the intermediate unit. */
  predicate SameQuantity(v: real, source: Unit, w: real, target: Unit) {
    match source.Type()
    case Distance => ConvertToOrFromMeters(false, v, source) == ConvertToOrFromMeters(false, w, target)
    case Mass => ConvertToOrFromGrams(false, v, source) == ConvertToOrFromGrams(false, w, target)
    case Temperature => ConvertToCelsius(v, source) == ConvertToCelsius(w, target)
  }

  /** `convert`: fails exactly when the types differ; otherwise the result measures the
      same quantity in the target unit. */
  function Convert(sourceValue: real, source: Unit, target: Unit): (r: Result<real>)
    ensures r.Failure? <==> source.Type() != target.Type()
    ensures r.Failure? ==> r.error == "Convert from " + source.Name() + " to " + target.Name() + " is impossible"
    ensures r.Success? ==> SameQuantity(sourceValue, source, r.value, target)
  {
    if source.Type() != target.Type() then
      Failure("Convert from " + source.Name() + " to " + target.Name() + " is impossible")
    else
      match source.Type()
      case Distance =>
        var interResult := ConvertToOrFromMeters(false, sourceValue, source).value;
        var r := ConvertToOrFromMeters(true, interResult, target);
        ScaleThenUnscale(interResult, target.InterUnitValue());
        r
      case Mass =>
        var interResult := ConvertToOrFromGrams(false, sourceValue, source).value;
        var r := ConvertToOrFromGrams(true, interResult, target);
        ScaleThenUnscale(interResult, target.InterUnitValue());
        r
      case Temperature =>
        var interResult := ConvertToCelsius(sourceValue, source).value;
        CelsiusRoundTrip(interResult, target);
        ConvertFromCelsius(interResult, target)
  }

  /** For distance and mass, `convert` multiplies by the source factor and divides by the
      target factor. */
  lemma ConvertScalesByFactors(sourceValue: real, source: Unit, target: Unit)
    requires source.Type() == target.Type() != Temperature
    ensures Convert(sourceValue, source, target)
              == Success(sourceValue * source.InterUnitValue() / target.InterUnitValue())
  {
  }

  lemma ScaleThenUnscale(x: real, f: real)
    requires f > 0.0
    ensures x / f * f == x
    ensures x * f / f == x
  {
  }

  /** Converting from Celsius undoes converting to Celsius, and the other way round. */
  lemma CelsiusRoundTrip(v: real, unit: Unit)
    requires unit.Type() == Temperature
    ensures ConvertToCelsius(ConvertFromCelsius(v, unit).value, unit) == Success(v)
    ensures ConvertFromCelsius(ConvertToCelsius(v, unit).value, unit) == Success(v)
  {
  }

  /** Converting from metres undoes converting to metres, and the other way round. */
  lemma MetersRoundTrip(v: real, unit: Unit)
    requires unit.Type() == Distance
    ensures ConvertToOrFromMeters(true, ConvertToOrFromMeters(false, v, unit).value, unit) == Success(v)
    ensures ConvertToOrFromMeters(false, ConvertToOrFromMeters(true, v, unit).value, unit) == Success(v)
  {
    var f := unit.InterUnitValue();
    ScaleThenUnscale(v, f);
    assert ConvertToOrFromMeters(true, v, unit) == Success(v / f);
    assert ConvertToOrFromMeters(false, v / f, unit) == Success(v / f * f);
  }

  /** Converting from grams undoes converting to grams, and the other way round. */
  lemma GramsRoundTrip(v: real, unit: Unit)
    requires unit.Type() == Mass
    ensures ConvertToOrFromGrams(true, ConvertToOrFromGrams(false, v, unit).value, unit) == Success(v)
    ensures ConvertToOrFromGrams(false, ConvertToOrFromGrams(true, v, unit).value, unit) == Success(v)
  {
    var f := unit.InterUnitValue();
    ScaleThenUnscale(v, f);
    assert ConvertToOrFromGrams(true, v, unit) == Success(v / f);
    assert ConvertToOrFromGrams(false, v / f, unit) == Success(v / f * f);
  }

  /** Expressing a value in the intermediate unit loses nothing: two values of one unit
      that agree there are equal. */
  lemma {:induction false} IntermediateIsInjective(a: real, b: real, unit: Unit)
    requires SameQuantity(a, unit, b, unit)
    ensures a == b
  {
    match unit.Type()
    case Distance =>
      MetersRoundTrip(a, unit);
      MetersRoundTrip(b, unit);
    case Mass =>
      GramsRoundTrip(a, unit);
      GramsRoundTrip(b, unit);
    case Temperature =>
      CelsiusRoundTrip(a, unit);
      CelsiusRoundTrip(b, unit);
  }

  /** Between units of one type, `convert` gives the one value that measures the same
      quantity as the input, and no other. */
  lemma {:induction false} ConvertIsTheUniqueSameQuantity(v: real, source: Unit, w: real, target: Unit)
    requires source.Type() == target.Type()
    ensures SameQuantity(v, source, w, target) <==> Convert(v, source, target) == Success(w)
  {
    var r := Convert(v, source, target).value;
    if SameQuantity(v, source, w, target) {
      assert SameQuantity(r, target, w, target);
      IntermediateIsInjective(r, w, target);
    }
  }

  /** Converting a value to its own unit returns it unchanged. */
  lemma {:induction false} ConvertIdentity(v: real, unit: Unit)
    ensures Convert(v, unit, unit) == Success(v)
  {
    ConvertIsTheUniqueSameQuantity(v, unit, v, unit);
  }

  /** Converting through an intermediate unit of the same type is the same as
      converting directly. */
  lemma {:induction false} ConvertComposes(v: real, a: Unit, b: Unit, c: Unit)
    requires a.Type() == b.Type() == c.Type()
    ensures Convert(Convert(v, a, b).value, b, c) == Convert(v, a, c)
  {
    var x := Convert(v, a, b).value;
    var y := Convert(x, b, c).value;
    assert SameQuantity(v, a, y, c);
    ConvertIsTheUniqueSameQuantity(v, a, y, c);
  }

  /** Converting there and back returns the original value. */
  lemma {:induction false} ConvertRoundTrip(v: real, source: Unit, target: Unit)
    requires source.Type() == target.Type()
    ensures Convert(Convert(v, source, target).value, target, source) == Success(v)
  {
    ConvertComposes(v, source, target, source);
    ConvertIdentity(v, source);
  }

  lemma ScalingIsMonotone(v1: real, v2: real, f: real, g: real)
    requires v1 < v2 && f > 0.0 && g > 0.0
    ensures v1 * f / g < v2 * f / g
  {
    assert v1 * f < v2 * f;
  }

  /** Conversion preserves order: a larger quantity stays larger. */
  lemma {:induction false} ConvertIsIncreasing(v1: real, v2: real, source: Unit, target: Unit)
    requires source.Type() == target.Type()
    requires v1 < v2
    ensures Convert(v1, source, target).value < Convert(v2, source, target).value
  {
    if source.Type() != Temperature {
      ScalingIsMonotone(v1, v2, source.InterUnitValue(), target.InterUnitValue());
    }
  }

  /** The textbook temperature reference points. */
  lemma KnownTemperatures()
    ensures Convert(0.0, Celsius, Kelvin) == Success(273.15)
    ensures Convert(32.0, Fahrenheit, Celsius) == Success(0.0)
    ensures Convert(100.0, Celsius, Fahrenheit) == Success(212.0)
    ensures Convert(-40.0, Celsius, Fahrenheit) == Success(-40.0)
  {
  }

  /** Reference lengths. */
  lemma KnownLengths()
    ensures Convert(1.0, Mile, Meter) == Success(1609.35)
    ensures Convert(1.0, Foot, Inch) == Success(12.0)
  {
    ConvertScalesByFactors(1.0, Mile, Meter);
    ConvertScalesByFactors(1.0, Foot, Inch);
  }

  /** A thousand grams are a kilogram. */
  lemma KnownMasses()
    ensures Convert(1000.0, Gram, Kilogram) == Success(1.0)
  {
    ConvertScalesByFactors(1000.0, Gram, Kilogram);
  }

  /** The two factors make a pound exactly sixteen ounces. */
  lemma PoundIsSixteenOunces()
    ensures Convert(1.0, Pound, Ounce) == Success(16.0)
  {
    ConvertScalesByFactors(1.0, Pound, Ounce);
  }

  /** Metres cannot be converted to kilograms. */
  lemma LengthToMassFails()
    ensures Convert(1.0, Meter, Kilogram).Failure?
  {
  }
}
