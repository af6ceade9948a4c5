/** Whether a requested conversion may proceed (`isConversionPossible`) and the
    explanation printed when it may not (`printReason`). */
module Validity {
  import opened Wrappers
  import opened Units
  import opened Conversion
  import opened Naming

  /** `isConversionPossible`: both units resolved, of one type, and for distance and
      mass a strictly positive value. */
  function IsConversionPossible(sourceValue: real, source: Option<Unit>, target: Option<Unit>): (r: bool)
    ensures r <==> && source.Some? && target.Some?
                   && source.value.Type() == target.value.Type()
                   && (source.value.Type() == Temperature || sourceValue > 0.0)
    ensures r ==> Convert(sourceValue, source.value, target.value).Success?
  {
    var isTypeTheSame := source.Some? && target.Some? && source.value.Type() == target.value.Type();
    var isLengthOrWeighUnits :=
      isTypeTheSame && (source.value.Type() == Distance || source.value.Type() == Mass);
    if isTypeTheSame && isLengthOrWeighUnits then sourceValue > 0.0 else isTypeTheSame
  }

  /** `printReason`, returning the message it prints (without the trailing newline), or
      failing with "Conversion is possible" when both units resolve to one type and the
      value is not a negative length or weight. */
  function PrintReason(sourceValue: real, source: Option<Unit>, target: Option<Unit>): (r: Result<string>)
    ensures r.Failure? <==> && source.Some? && target.Some?
                            && source.value.Type() == target.value.Type()
                            && (source.value.Type() == Temperature || sourceValue >= 0.0)
    ensures r.Failure? ==> r.error == "Conversion is possible"
    ensures IsConversionPossible(sourceValue, source, target) ==> r.Failure?
  {
    var isNotNull := source.Some? && target.Some?;
    if isNotNull && source.value.Type() == target.value.Type()
       && (source.value.Type() == Distance || source.value.Type() == Mass) && sourceValue < 0.0 then
      Success(if source.value.Type() == Distance then "Length shouldn't be negative"
              else "Weight shouldn't be negative")
    else if isNotNull && source.value.Type() == target.value.Type() then
      Failure("Conversion is possible")
    else
      var sourceUnit := GetUnitName(source, 0.0, source.Some? && source.value.Type() == Temperature);
      var targetUnit := GetUnitName(target, 0.0, target.Some? && target.value.Type() == Temperature);
      Success(ImpossibleMessage(sourceUnit, targetUnit))
  }

  /** The text `printReason` prints for an impossible conversion. */
  function ImpossibleMessage(sourceUnit: string, targetUnit: string): string {
    "Conversion from " + sourceUnit + " to " + targetUnit + " is impossible"
  }

  /** A negative length or weight between units of one type is explained as such. */
  lemma NegativeLengthOrWeightReason(sourceValue: real, source: Unit, target: Unit)
    requires source.Type() == target.Type() != Temperature
    requires sourceValue < 0.0
    ensures !IsConversionPossible(sourceValue, Some(source), Some(target))
    ensures PrintReason(sourceValue, Some(source), Some(target))
              == Success(if source.Type() == Distance then "Length shouldn't be negative"
                         else "Weight shouldn't be negative")
  {
  }

  /** The value 0.0 between two distance or two mass units is rejected by
      `isConversionPossible`, yet `printReason` has no message for it and fails with
      "Conversion is possible". */
  lemma ZeroLengthOrWeightHasNoReason(source: Unit, target: Unit)
    requires source.Type() == target.Type() != Temperature
    ensures !IsConversionPossible(0.0, Some(source), Some(target))
    ensures PrintReason(0.0, Some(source), Some(target)) == Failure("Conversion is possible")
  {
  }

  /** When a unit is unresolved or the types differ, the message names each side by its
      plural display name, or "???". */
  lemma ImpossibleConversionReason(sourceValue: real, source: Option<Unit>, target: Option<Unit>, w: real)
    requires !(source.Some? && target.Some? && source.value.Type() == target.value.Type())
    requires w != 1.0
    ensures !IsConversionPossible(sourceValue, source, target)
    ensures PrintReason(sourceValue, source, target)
              == Success(ImpossibleMessage(GetUnitName(source, w, false), GetUnitName(target, w, false)))
  {
    if source.Some? && source.value.Type() == Temperature {
      EnumNameOfTemperatureIsPlural(source.value, w);
    }
    if target.Some? && target.value.Type() == Temperature {
      EnumNameOfTemperatureIsPlural(target.value, w);
    }
  }

  lemma ValidityExamples()
    ensures !IsConversionPossible(-5.0, Some(Meter), Some(Foot))
    ensures IsConversionPossible(-5.0, Some(Celsius), Some(Kelvin))
    ensures !IsConversionPossible(5.0, Some(Meter), Some(Kilogram))
    ensures !IsConversionPossible(5.0, None, Some(Meter))
  {
  }

  lemma NegativeReasonExamples()
    ensures PrintReason(-1.0, Some(Meter), Some(Foot)) == Success("Length shouldn't be negative")
    ensures PrintReason(-1.0, Some(Pound), Some(Gram)) == Success("Weight shouldn't be negative")
  {
    NegativeLengthOrWeightReason(-1.0, Meter, Foot);
    NegativeLengthOrWeightReason(-1.0, Pound, Gram);
  }

  lemma MetersToKilogramsReason()
    ensures PrintReason(5.0, Some(Meter), Some(Kilogram))
              == Success(ImpossibleMessage("meters", "kilograms"))
  {
    ImpossibleConversionReason(5.0, Some(Meter), Some(Kilogram), 2.0);
    DisplayNameExamples();
    KilogramPlural();
  }

  lemma UnresolvedToCelsiusReason()
    ensures PrintReason(5.0, None, Some(Celsius))
              == Success(ImpossibleMessage("???", "degrees Celsius"))
  {
    ImpossibleConversionReason(5.0, None, Some(Celsius), 2.0);
  }

  lemma KelvinsToFeetReason()
    ensures PrintReason(5.0, Some(Kelvin), Some(Foot))
              == Success(ImpossibleMessage("kelvins", "feet"))
  {
    ImpossibleConversionReason(5.0, Some(Kelvin), Some(Foot), 0.0);
  }
}
