/** The registry is unambiguous: no name satisfies the matching rules of `getUnitEnum`
    for two different units, so the declaration order never decides a resolution. */
module Uniqueness {
  import opened Wrappers
  import opened Units
  import opened Text
  import opened Resolver

  /** A name's length with its first and last characters folded to lower case. Names
      equal ignoring case have the same signature. */
  type Signature = (int, char, char)

  function SignatureOf(s: string): Signature {
    if |s| == 0 then (0, ' ', ' ') else (|s|, LowerChar(s[0]), LowerChar(s[|s| - 1]))
  }

  function AliasSignatures(names: seq<string>): set<Signature> {
    if |names| == 0 then {} else {SignatureOf(names[0])} + AliasSignatures(names[1..])
  }

  /** The signatures of every name a unit accepts: its aliases, its enum name, the enum
      name followed by one "s", and its irregular plural. */
  function Signatures(unit: Unit): set<Signature> {
    AliasSignatures(unit.Aliases())
    + {SignatureOf(unit.Name()), (|unit.Name()| + 1, LowerChar(unit.Name()[0]), 's')}
    + (if unit.HasIrregularPlural() then {SignatureOf(unit.IrregularPlural())} else {})
  }

  lemma EqualsIgnoreCaseKeepsSignature(a: string, b: string)
    requires EqualsIgnoreCase(a, b)
    ensures SignatureOf(a) == SignatureOf(b)
  {
    FoldedEqualFromIsPointwise(a, b, 0, |b|);
  }

  lemma {:induction false} AliasMatchKeepsSignature(names: seq<string>, name: string)
    requires AnyEqualsIgnoreCase(names, name)
    ensures SignatureOf(name) in AliasSignatures(names)
  {
    if EqualsIgnoreCase(names[0], name) {
      EqualsIgnoreCaseKeepsSignature(names[0], name);
    } else {
      AliasMatchKeepsSignature(names[1..], name);
    }
  }

  /** A name accepted through the enum-name rule with its trailing "s" dropped has the
      signature of the enum name followed by "s". */
  lemma SingularFormKeepsSignature(unit: Unit, name: string)
    requires |name| > 3 && EndsWithS(name) && EqualsPrefixIgnoreCase(unit.Name(), name, |name| - 1)
    ensures SignatureOf(name) == (|unit.Name()| + 1, LowerChar(unit.Name()[0]), 's')
  {
    FoldedEqualFromIsPointwise(unit.Name(), name, 0, |name| - 1);
  }

  /** Whatever rule lets a unit accept a name, the name has one of the unit's signatures. */
  lemma MatchKeepsSignature(unit: Unit, name: string)
    requires Matches(unit, name)
    ensures SignatureOf(name) in Signatures(unit)
  {
    if AliasMatches(unit, name) {
      AliasMatchKeepsSignature(unit.Aliases(), name);
    } else if EqualsIgnoreCase(unit.Name(), name) {
      EqualsIgnoreCaseKeepsSignature(unit.Name(), name);
    } else if NameMatches(unit, name) {
      SingularFormKeepsSignature(unit, name);
    } else {
      EqualsIgnoreCaseKeepsSignature(unit.IrregularPlural(), name);
    }
  }

  /** The unit each signature belongs to, written out from the registry: its aliases, its
      enum names with and without a trailing "s", and its irregular plurals.
      `SignaturesAreOwned` proves the table agrees with `Signatures`. */
  function SignatureOwner(s: Signature): Option<Unit> {
    var (length, first, last) := s;
    match length
    case 1 =>
      if first == 'c' && last == 'c' then Some(Celsius)
      else if first == 'f' && last == 'f' then Some(Fahrenheit)
      else if first == 'k' && last == 'k' then Some(Kelvin)
      else if first == 'm' && last == 'm' then Some(Meter)
      else if first == 'g' && last == 'g' then Some(Gram)
      else None
    case 2 =>
      if first == 'd' && last == 'c' then Some(Celsius)
      else if first == 'd' && last == 'f' then Some(Fahrenheit)
      else if first == 'k' && last == 'm' then Some(Kilometer)
      else if first == 'c' && last == 'm' then Some(Centimeter)
      else if first == 'm' && last == 'm' then Some(Millimeter)
      else if first == 'm' && last == 'i' then Some(Mile)
      else if first == 'y' && last == 'd' then Some(Yard)
      else if first == 'f' && last == 't' then Some(Foot)
      else if first == 'i' && last == 'n' then Some(Inch)
      else if first == 'k' && last == 'g' then Some(Kilogram)
      else if first == 'm' && last == 'g' then Some(Milligram)
      else if first == 'l' && last == 'b' then Some(Pound)
      else if first == 'o' && last == 'z' then Some(Ounce)
      else None
    case 4 =>
      if first == 'm' && last == 'e' then Some(Mile)
      else if first == 'y' && last == 'd' then Some(Yard)
      else if first == 'f' && last == 't' then Some(Foot)
      else if first == 'i' && last == 'h' then Some(Inch)
      else if first == 'g' && last == 'm' then Some(Gram)
      else None
    case 5 =>
      if first == 'm' && last == 'r' then Some(Meter)
      else if first == 'm' && last == 's' then Some(Mile)
      else if first == 'y' && last == 's' then Some(Yard)
      else if first == 'f' && last == 's' then Some(Foot)
      else if first == 'i' && last == 's' then Some(Inch)
      else if first == 'g' && last == 's' then Some(Gram)
      else if first == 'p' && last == 'd' then Some(Pound)
      else if first == 'o' && last == 'e' then Some(Ounce)
      else None
    case 6 =>
      if first == 'k' && last == 'n' then Some(Kelvin)
      else if first == 'm' && last == 's' then Some(Meter)
      else if first == 'i' && last == 's' then Some(Inch)
      else if first == 'p' && last == 's' then Some(Pound)
      else if first == 'o' && last == 's' then Some(Ounce)
      else None
    case 7 =>
      if first == 'c' && last == 's' then Some(Celsius)
      else if first == 'k' && last == 's' then Some(Kelvin)
      else None
    case 8 =>
      if first == 'c' && last == 's' then Some(Celsius)
      else if first == 'k' && last == 'm' then Some(Kilogram)
      else None
    case 9 =>
      if first == 'k' && last == 'r' then Some(Kilometer)
      else if first == 'k' && last == 's' then Some(Kilogram)
      else if first == 'm' && last == 'm' then Some(Milligram)
      else None
    case 10 =>
      if first == 'f' && last == 't' then Some(Fahrenheit)
      else if first == 'k' && last == 's' then Some(Kilometer)
      else if first == 'c' && last == 'r' then Some(Centimeter)
      else if first == 'm' && last == 'r' then Some(Millimeter)
      else if first == 'm' && last == 's' then Some(Milligram)
      else None
    case 11 =>
      if first == 'f' && last == 's' then Some(Fahrenheit)
      else if first == 'c' && last == 's' then Some(Centimeter)
      else if first == 'm' && last == 's' then Some(Millimeter)
      else None
    case 14 =>
      if first == 'd' && last == 's' then Some(Celsius)
      else None
    case 15 =>
      if first == 'd' && last == 's' then Some(Celsius)
      else None
    case 17 =>
      if first == 'd' && last == 't' then Some(Fahrenheit)
      else None
    case 18 =>
      if first == 'd' && last == 't' then Some(Fahrenheit)
      else None
    case _ => None
  }

  lemma CelsiusSignaturesAreOwned()
    ensures forall s | s in Signatures(Celsius) :: SignatureOwner(s) == Some(Celsius)
  {
  }

  lemma FahrenheitSignaturesAreOwned()
    ensures forall s | s in Signatures(Fahrenheit) :: SignatureOwner(s) == Some(Fahrenheit)
  {
  }

  lemma KelvinSignaturesAreOwned()
    ensures forall s | s in Signatures(Kelvin) :: SignatureOwner(s) == Some(Kelvin)
  {
  }

  lemma DistanceSignaturesAreOwned(unit: Unit)
    requires unit.Type() == Distance
    ensures forall s | s in Signatures(unit) :: SignatureOwner(s) == Some(unit)
  {
  }

  lemma MassSignaturesAreOwned(unit: Unit)
    requires unit.Type() == Mass
    ensures forall s | s in Signatures(unit) :: SignatureOwner(s) == Some(unit)
  {
  }

  /** Every signature of a unit belongs to that unit, so no two units share one. */
  lemma SignaturesAreOwned(unit: Unit)
    ensures forall s | s in Signatures(unit) :: SignatureOwner(s) == Some(unit)
  {
    if unit == Celsius {
      CelsiusSignaturesAreOwned();
    } else if unit == Fahrenheit {
      FahrenheitSignaturesAreOwned();
    } else if unit == Kelvin {
      KelvinSignaturesAreOwned();
    } else if unit.Type() == Distance {
      DistanceSignaturesAreOwned(unit);
    } else {
      MassSignaturesAreOwned(unit);
    }
  }

  /** No name matches two different units. */
  lemma MatchesAtMostOneUnit(name: string, u: Unit, v: Unit)
    requires Matches(u, name) && Matches(v, name)
    ensures u == v
  {
    MatchKeepsSignature(u, name);
    MatchKeepsSignature(v, name);
    SignaturesAreOwned(u);
    SignaturesAreOwned(v);
  }

  /** A name resolves to a unit exactly when that unit matches it, whatever the units
      declared before it. */
  lemma ResolveIsTheOnlyMatch(name: string, unit: Unit)
    ensures Resolve(name) == Some(unit) <==> Matches(unit, name)
  {
    if Matches(unit, name) {
      var r := Resolve(name);
      MatchesAtMostOneUnit(name, r.value, unit);
    }
  }

  // Sample resolutions, each by the one rule that matches.

  lemma ResolvesFeetToFoot()
    ensures Resolve("feet") == Some(Foot)
  {
    assert FoldedEqualFrom("feet", "feet", 0, 4);
    assert IrregularPluralMatches(Foot, "feet");
    ResolveIsTheOnlyMatch("feet", Foot);
  }

  lemma ResolvesFtToFoot()
    ensures Resolve("ft") == Some(Foot)
  {
    assert FoldedEqualFrom("ft", "ft", 0, 2);
    assert AliasMatches(Foot, "ft");
    ResolveIsTheOnlyMatch("ft", Foot);
  }

  lemma ResolvesInchesToInch()
    ensures Resolve("inches") == Some(Inch)
  {
    assert FoldedEqualFrom("inches", "inches", 0, 6);
    assert IrregularPluralMatches(Inch, "inches");
    ResolveIsTheOnlyMatch("inches", Inch);
  }

  lemma ResolvesCelsiusToCelsius()
    ensures Resolve("celsius") == Some(Celsius)
  {
    assert FoldedEqualFrom("CELSIUS", "celsius", 0, 7);
    assert NameMatches(Celsius, "celsius");
    ResolveIsTheOnlyMatch("celsius", Celsius);
  }

  lemma ResolvesKgToKilogram()
    ensures Resolve("kg") == Some(Kilogram)
  {
    assert FoldedEqualFrom("kg", "kg", 0, 2);
    assert AliasMatches(Kilogram, "kg");
    ResolveIsTheOnlyMatch("kg", Kilogram);
  }
}
