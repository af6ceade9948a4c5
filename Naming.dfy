/** The display names of units: `getUnitName`. */
module Naming {
  import opened Wrappers
  import opened Units
  import opened Text
  import opened Resolver
  import opened Uniqueness

  /** `getUnitName`: "???" for an unresolved unit; with `justEnumName`, "kelvins" for
      Kelvin and "degrees " plus the capitalised enum name otherwise; else the singular
      form for the value 1.0 exactly and the plural form for any other value. */
  function GetUnitName(unit: Option<Unit>, sourceValue: real, justEnumName: bool): (r: string)
    ensures r == "???" <==> unit.None?
  {
    if unit.None? then "???"
    else
      var u := unit.value;
      if justEnumName then
        if u == Kelvin then Lowercase(u.Name()) + "s"
        else "degrees " + [u.Name()[0]] + Lowercase(u.Name()[1..])
      else if u.Type() == Temperature && sourceValue == 1.0 then u.Aliases()[0]
      else if sourceValue == 1.0 then Lowercase(u.Name())
      else if u.Type() == Temperature then u.Aliases()[1]
      else if u.HasIrregularPlural() then u.IrregularPlural()
      else Lowercase(u.Name()) + "s"
  }

  lemma CelsiusEnumName()
    ensures GetUnitName(Some(Celsius), 0.0, true) == "degrees Celsius"
  {
    calc {
      GetUnitName(Some(Celsius), 0.0, true);
      "degrees " + [Celsius.Name()[0]] + Lowercase(Celsius.Name()[1..]);
      { assert Celsius.Name()[1..] == "ELSIUS"; }
      "degrees " + ['C'] + Lowercase("ELSIUS");
      { assert Lowercase("ELSIUS") == "elsius"; }
      "degrees " + ['C'] + "elsius";
      "degrees Celsius";
    }
  }

  lemma FahrenheitEnumName()
    ensures GetUnitName(Some(Fahrenheit), 0.0, true) == "degrees Fahrenheit"
  {
    calc {
      GetUnitName(Some(Fahrenheit), 0.0, true);
      "degrees " + [Fahrenheit.Name()[0]] + Lowercase(Fahrenheit.Name()[1..]);
      { assert Fahrenheit.Name()[1..] == "AHRENHEIT"; }
      "degrees " + ['F'] + Lowercase("AHRENHEIT");
      { assert Lowercase("AHRENHEIT") == "ahrenheit"; }
      "degrees " + ['F'] + "ahrenheit";
      "degrees Fahrenheit";
    }
  }

  lemma KelvinEnumName()
    ensures GetUnitName(Some(Kelvin), 0.0, true) == "kelvins"
  {
    calc {
      GetUnitName(Some(Kelvin), 0.0, true);
      Lowercase(Kelvin.Name()) + "s";
      { assert Lowercase("KELVIN") == "kelvin"; }
      "kelvins";
    }
  }

  /** The special rendering that `printReason` asks for a temperature unit is the plural
      display name: "degrees Celsius", "degrees Fahrenheit", "kelvins". */
  lemma EnumNameOfTemperatureIsPlural(u: Unit, w: real)
    requires u.Type() == Temperature
    requires w != 1.0
    ensures GetUnitName(Some(u), 0.0, true) == GetUnitName(Some(u), w, false) == u.Aliases()[1]
  {
    match u
    case Celsius => CelsiusEnumName();
    case Fahrenheit => FahrenheitEnumName();
    case Kelvin => KelvinEnumName();
  }

  /** A value other than 1.0 is named in the plural, which differs from the singular. */
  lemma SingularDiffersFromPlural(u: Unit, w: real)
    requires w != 1.0
    ensures GetUnitName(Some(u), 1.0, false) != GetUnitName(Some(u), w, false)
  {
    if u == Foot {
      assert Lowercase(u.Name())[1] == 'o';
    }
  }

  lemma DisplayNameExamples()
    ensures GetUnitName(Some(Meter), 1.0, false) == "meter"
    ensures GetUnitName(Some(Meter), 2.0, false) == "meters"
    ensures GetUnitName(Some(Foot), 2.0, false) == "feet"
    ensures GetUnitName(Some(Celsius), 1.0, false) == "degree Celsius"
    ensures GetUnitName(Some(Celsius), 5.0, false) == "degrees Celsius"
    ensures GetUnitName(None, 5.0, false) == "???"
  {
    assert Lowercase(Meter.Name()) == Lowercase("METER");
  }

  lemma KilogramPlural()
    ensures GetUnitName(Some(Kilogram), 2.0, false) == "kilograms"
  {
    assert Lowercase(Kilogram.Name()) == Lowercase("KILOGRAM");
  }

  /** A regular plural of a length or mass unit is its singular followed by "s". */
  lemma RegularPluralAddsS(u: Unit, w: real)
    requires u.Type() != Temperature && !u.HasIrregularPlural()
    requires w != 1.0
    ensures GetUnitName(Some(u), w, false) == GetUnitName(Some(u), 1.0, false) + "s"
  {
  }

  /** Every display name, singular or plural, is accepted by its own unit. */
  lemma DisplayNameMatches(u: Unit, w: real)
    ensures Matches(u, GetUnitName(Some(u), w, false))
  {
    var name := GetUnitName(Some(u), w, false);
    if u.Type() == Temperature {
      var k := if w == 1.0 then 0 else 1;
      EqualsIgnoreCaseIsReflexive(u.Aliases()[k]);
      assert EqualsIgnoreCase(u.Aliases()[k], name);
    } else if w == 1.0 {
      EqualsIgnoreCaseItsLowercase(u.Name());
    } else if u.HasIrregularPlural() {
      EqualsIgnoreCaseIsReflexive(u.IrregularPlural());
    } else {
      EqualsIgnoreCaseItsLowercase(u.Name());
      assert name == Lowercase(u.Name()) + "s";
      assert EndsWithS(name);
    }
  }

  /** `getUnitEnum` reads every display name back as the unit it names. */
  lemma DisplayNameResolves(u: Unit, w: real)
    ensures Resolve(GetUnitName(Some(u), w, false)) == Some(u)
  {
    DisplayNameMatches(u, w);
    ResolveIsTheOnlyMatch(GetUnitName(Some(u), w, false), u);
  }
}
