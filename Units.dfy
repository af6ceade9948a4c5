/** The closed registry of units of measure: the `Units` enum and `UnitType`. */
module Units {

  datatype UnitType = Mass | Distance | Temperature

  /** The sixteen units, constructors in declaration order. */
  datatype Unit =
    | Celsius | Fahrenheit | Kelvin
    | Meter | Kilometer | Centimeter | Millimeter | Mile | Yard | Foot | Inch
    | Gram | Kilogram | Milligram | Pound | Ounce
  {
    /** The conversion-compatibility class of the unit. */
    function Type(): UnitType {
      match this
      case Celsius | Fahrenheit | Kelvin => Temperature
      case Meter | Kilometer | Centimeter | Millimeter | Mile | Yard | Foot | Inch => Distance
      case Gram | Kilogram | Milligram | Pound | Ounce => Mass
    }

    /** The enum constant's name, as `Units.name` gives it. */
    function Name(): (n: string)
      ensures |n| >= 4
    {
      match this
      case Celsius => "CELSIUS"
      case Fahrenheit => "FAHRENHEIT"
      case Kelvin => "KELVIN"
      case Meter => "METER"
      case Kilometer => "KILOMETER"
      case Centimeter => "CENTIMETER"
      case Millimeter => "MILLIMETER"
      case Mile => "MILE"
      case Yard => "YARD"
      case Foot => "FOOT"
      case Inch => "INCH"
      case Gram => "GRAM"
      case Kilogram => "KILOGRAM"
      case Milligram => "MILLIGRAM"
      case Pound => "POUND"
      case Ounce => "OUNCE"
    }

    /** What one of this unit is in the type's intermediate unit (metres or grams);
        temperature units keep the default 0.0. Every distance and mass factor is
        strictly positive, so it may serve as a divisor. */
    function InterUnitValue(): (f: real)
      ensures Type() == Temperature <==> f == 0.0
      ensures Type() != Temperature ==> f > 0.0
    {
      match this
      case Celsius | Fahrenheit | Kelvin => 0.0
      case Meter => 1.0
      case Kilometer => 1000.0
      case Centimeter => 0.01
      case Millimeter => 0.001
      case Mile => 1609.35
      case Yard => 0.9144
      case Foot => 0.3048
      case Inch => 0.0254
      case Gram => 1.0
      case Kilogram => 1000.0
      case Milligram => 0.001
      case Pound => 453.592
      case Ounce => 28.3495
    }

    /** `possibleNamesOrAbbreviations`; for a temperature unit the first two entries
        are its singular and plural display forms. */
    function Aliases(): (names: seq<string>)
      ensures |names| >= 1
      ensures Type() == Temperature ==> |names| >= 2
    {
      match this
      case Celsius => ["degree Celsius", "degrees Celsius", "dc", "c"]
      case Fahrenheit => ["degree Fahrenheit", "degrees Fahrenheit", "df", "f"]
      case Kelvin => ["kelvin", "kelvins", "k"]
      case Meter => ["m"]
      case Kilometer => ["km"]
      case Centimeter => ["cm"]
      case Millimeter => ["mm"]
      case Mile => ["mi"]
      case Yard => ["yd"]
      case Foot => ["ft"]
      case Inch => ["in"]
      case Gram => ["g"]
      case Kilogram => ["kg"]
      case Milligram => ["mg"]
      case Pound => ["lb"]
      case Ounce => ["oz"]
    }

    /** The position of the constant in the declaration, as `Units.ordinal` gives it. */
    function Ordinal(): (k: nat)
      ensures k < 16
    {
      match this
      case Celsius => 0
      case Fahrenheit => 1
      case Kelvin => 2
      case Meter => 3
      case Kilometer => 4
      case Centimeter => 5
      case Millimeter => 6
      case Mile => 7
      case Yard => 8
      case Foot => 9
      case Inch => 10
      case Gram => 11
      case Kilogram => 12
      case Milligram => 13
      case Pound => 14
      case Ounce => 15
    }

    predicate HasIrregularPlural() {
      this == Foot || this == Inch
    }

    /** The irregular plural; the empty default for every other unit. */
    function IrregularPlural(): (p: string)
      ensures HasIrregularPlural() <==> p != ""
    {
      match this
      case Foot => "feet"
      case Inch => "inches"
      case _ => ""
    }
  }

  /** `Units.values()`: every unit once, in declaration order. */
  function Values(): (units: seq<Unit>)
    ensures |units| == 16
    ensures forall u: Unit :: units[u.Ordinal()] == u
    ensures forall i :: 0 <= i < |units| ==> units[i].Ordinal() == i
    ensures forall i, j :: 0 <= i < j < |units| ==> units[i] != units[j]
  {
    [Celsius, Fahrenheit, Kelvin,
     Meter, Kilometer, Centimeter, Millimeter, Mile, Yard, Foot, Inch,
     Gram, Kilogram, Milligram, Pound, Ounce]
  }

  /** The temperature units are exactly Celsius, Fahrenheit and Kelvin. */
  lemma TemperatureUnitsAreExactlyThree(u: Unit)
    ensures u.Type() == Temperature <==> u in {Celsius, Fahrenheit, Kelvin}
  {
  }
}
