/** `getUnitEnum`: resolving a unit name typed by the user to a registry entry. */
module Resolver {
  import opened Wrappers
  import opened Units
  import opened Text

  /** Some name of the list equals `name`, ignoring case. */
  predicate AnyEqualsIgnoreCase(names: seq<string>, name: string)
    ensures AnyEqualsIgnoreCase(names, name) <==> exists k :: 0 <= k < |names| && EqualsIgnoreCase(names[k], name)
  {
    |names| > 0 && (EqualsIgnoreCase(names[0], name) || AnyEqualsIgnoreCase(names[1..], name))
  }

  /** Some alias of the unit equals the name, ignoring case. */
  predicate AliasMatches(unit: Unit, name: string) {
    AnyEqualsIgnoreCase(unit.Aliases(), name)
  }

  /** The enum name equals the name, or the name without one trailing `s`/`S` when the
      name is longer than three characters, ignoring case. */
  predicate NameMatches(unit: Unit, name: string) {
    || EqualsIgnoreCase(unit.Name(), name)
    || (|name| > 3 && EndsWithS(name) && EqualsPrefixIgnoreCase(unit.Name(), name, |name| - 1))
  }

  /** The unit has an irregular plural and it equals the name, ignoring case. */
  predicate IrregularPluralMatches(unit: Unit, name: string) {
    unit.HasIrregularPlural() && EqualsIgnoreCase(unit.IrregularPlural(), name)
  }

  predicate Matches(unit: Unit, name: string) {
    AliasMatches(unit, name) || NameMatches(unit, name) || IrregularPluralMatches(unit, name)
  }

  /** The index of the first unit at or after `from` that matches the name, or `|units|`. */
  function FirstMatchIndex(units: seq<Unit>, name: string, from: nat): (i: nat)
    requires from <= |units|
    ensures from <= i <= |units|
    ensures i < |units| ==> Matches(units[i], name)
    ensures forall j :: from <= j < i ==> !Matches(units[j], name)
    decreases |units| - from
  {
    if from == |units| || Matches(units[from], name) then from
    else FirstMatchIndex(units, name, from + 1)
  }

  /** The first unit in declaration order that matches the name, or None when no unit
      does. */
  function Resolve(name: string): (r: Option<Unit>)
    ensures r.Some? ==> Matches(r.value, name)
    ensures r.Some? ==> forall u: Unit :: u.Ordinal() < r.value.Ordinal() ==> !Matches(u, name)
    ensures r.None? <==> forall u: Unit :: !Matches(u, name)
  {
    var units := Values();
    var i := FirstMatchIndex(units, name, 0);
    if i < |units| then Some(units[i])
    else
      assert forall u: Unit :: !Matches(u, name) by {
        forall u: Unit ensures !Matches(u, name) {
          assert !Matches(units[u.Ordinal()], name);
        }
      }
      None
  }

  /** A unit that matches, with no earlier unit matching, is what `Resolve` returns. */
  lemma ResolveIsFirstMatch(name: string, i: nat)
    requires i < |Values()|
    requires Matches(Values()[i], name)
    requires forall j :: 0 <= j < i ==> !Matches(Values()[j], name)
    ensures Resolve(name) == Some(Values()[i])
  {
    var r := Resolve(name);
    assert r.Some?;
    var k := r.value.Ordinal();
    assert Values()[k] == r.value;
    assert Values()[i].Ordinal() == i;
  }

  /** The enum-name rule as `getUnitEnum` tests it: against the name without its
      trailing "s" (when it is dropped) and against the name itself. */
  lemma NameRuleTestsSingleForm(unit: Unit, name: string, singleForm: string)
    requires singleForm == if |name| > 3 && EndsWithS(name) then name[..|name| - 1] else name
    ensures NameMatches(unit, name) <==> (EqualsIgnoreCase(unit.Name(), singleForm) || EqualsIgnoreCase(unit.Name(), name))
  {
    if |name| > 3 && EndsWithS(name) {
      EqualsPrefixIgnoreCaseIsSliceEquality(unit.Name(), name, |name| - 1);
    }
  }

  /** When no unit in the list matches, `Resolve` finds nothing. */
  lemma NoMatchResolvesToNothing(name: string)
    requires forall j :: 0 <= j < |Values()| ==> !Matches(Values()[j], name)
    ensures Resolve(name) == None
  {
    forall u: Unit ensures !Matches(u, name) {
      assert Values()[u.Ordinal()] == u;
    }
  }

  /** `getUnitEnum`: scans the units in declaration order and returns the first whose
      aliases, enum name or irregular plural match the entered name. */
  method GetUnitEnum(enteredName: string) returns (r: Option<Unit>)
    ensures r == Resolve(enteredName)
  {
    var singleFormOrAbbreviation :=
      if |enteredName| > 3 && EndsWithS(enteredName) then enteredName[..|enteredName| - 1] else enteredName;
    var units := Values();
    for i := 0 to |units|
      invariant forall j :: 0 <= j < i ==> !Matches(units[j], enteredName)
    {
      var unit := units[i];
      var aliases := unit.Aliases();
      for k := 0 to |aliases|
        invariant forall m :: 0 <= m < k ==> !EqualsIgnoreCase(aliases[m], enteredName)
      {
        if EqualsIgnoreCase(aliases[k], enteredName) {
          ResolveIsFirstMatch(enteredName, i);
          return Some(unit);
        }
      }
      NameRuleTestsSingleForm(unit, enteredName, singleFormOrAbbreviation);
      if EqualsIgnoreCase(unit.Name(), singleFormOrAbbreviation) || EqualsIgnoreCase(unit.Name(), enteredName) {
        ResolveIsFirstMatch(enteredName, i);
        return Some(unit);
      }
      if unit.HasIrregularPlural() && EqualsIgnoreCase(unit.IrregularPlural(), enteredName) {
        ResolveIsFirstMatch(enteredName, i);
        return Some(unit);
      }
    }
    NoMatchResolvesToNothing(enteredName);
    return None;
  }

  /** No unit accepts "xyz". */
  lemma ResolvesNothingForXyz()
    ensures Resolve("xyz") == None
  {
    forall u: Unit ensures !Matches(u, "xyz") {
    }
  }
}
