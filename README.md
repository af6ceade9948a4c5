# Unit converter core, modelled in Dafny

This project models the engine of a small Kotlin unit converter. It covers sixteen units of
length, mass and temperature. The user types a line such as `10 feet in meters`, and the
engine then does four things:
- it resolves each unit name to a registry entry (`getUnitEnum`);
- it decides whether the conversion is allowed (`isConversionPossible`);
- it converts the value through an intermediate unit: metres, grams or degrees Celsius (`convert`);
- it renders unit names (`getUnitName`) or explains why a request was refused (`printReason`).

The line is first split into words. The front end then picks the two unit names out of the
word list (`extractTokens`, `extractUnitToken`).

Modules:
- `Wrappers`: `Option` for Kotlin's nullable values. `Result` for functions that throw: a
  thrown `Exception(message)` becomes `Failure(message)`.
- `Text`: the Kotlin string operations the engine uses. These are case-insensitive
  equality, `lowercase`, `endsWith("s", true)` and `contains`. Case folding covers ASCII only.
- `Units`: the `Units` enum and `UnitType`. Each unit's data is held in members of the
  `Unit` datatype: type, enum name, intermediate factor, aliases and irregular plural.
  `Values()` lists the units in declaration order.
- `Conversion`: `convert` and its four helpers, with Kotlin `Double` modelled as `real`.
  The algebra is proved: identity, composition, round trip, uniqueness, monotonicity and
  the textbook reference points.
- `Resolver`: `getUnitEnum` as a method with the source's nested loops and early returns.
  It is proved equal to `Resolve`, a first-match specification over the declaration order.
- `Uniqueness`: no name satisfies the matching rules for two different units. A resolution
  therefore never depends on the declaration order: a name resolves to a unit exactly when
  that unit matches it.
- `Naming`: `getUnitName`. Every display name it produces, singular or plural, resolves
  back to the unit it names.
- `Validity`: `isConversionPossible` and `printReason`. `PrintReason` returns the message it
  would print, or fails with "Conversion is possible" where the source throws.
- `Tokens`: `extractUnitToken` and the four-to-six-word guard of `extractTokens`.

Two behaviours of the source are kept as written:
- For a distance or mass value of exactly 0.0, `isConversionPossible` refuses the request
  (`converter/Convert.kt:143`). Yet `printReason` gives the sign message only for values
  below zero (`converter/Convert.kt:96`), so for 0.0 it has no message and throws
  "Conversion is possible". `Validity.ZeroLengthOrWeightHasNoReason` states this.
- The irregular-plural rule of the resolver ignores case (`converter/Convert.kt:161`), like
  the alias and enum-name rules.

## Model

| member | source | states |
|---|---|---|
| Units.Unit.Type | converter/Convert.kt:18-48 | each unit's type as declared: three temperature units, eight distance units, five mass units |
| Units.Unit.Name | converter/Convert.kt:19-48 | the enum constant's name; every one has at least four letters, which the proofs use to show that a plural passes the resolver's length test |
| Units.Unit.InterUnitValue | converter/Convert.kt:13-48 | the factor to the intermediate unit is 0.0 exactly for temperature units and strictly positive for every other unit |
| Units.Unit.Aliases | converter/Convert.kt:14-48 | every unit has at least one alias, and temperature units have a singular and a plural display alias |
| Units.Unit.Ordinal | converter/Convert.kt:11-49 | the position of the unit in declaration order (the bound below 16 only serves indexing) |
| Units.Unit.IrregularPlural | converter/Convert.kt:15-16 | a non-empty irregular plural exactly when the unit has one (foot, inch) |
| Units.Values | converter/Convert.kt:11-49 | `Units.values()` holds the sixteen units, each once, at the position of its ordinal |
| Units.TemperatureUnitsAreExactlyThree | converter/Convert.kt:18-30 | a unit is of temperature type exactly when it is Celsius, Fahrenheit or Kelvin |
| Conversion.ConvertToOrFromMeters | converter/Convert.kt:171-179 | fails with "Conversion to/from meters is impossible" exactly when the unit is not a distance unit |
| Conversion.ConvertToOrFromGrams | converter/Convert.kt:185-193 | fails with "Conversion to/from grams is impossible" exactly when the unit is not a mass unit |
| Conversion.ConvertToCelsius | converter/Convert.kt:195-209 | fails with "Conversion to Celsius is impossible" exactly when the unit is not a temperature unit |
| Conversion.ConvertFromCelsius | converter/Convert.kt:211-225 | fails with "Conversion from Celsius is impossible" exactly when the unit is not a temperature unit |
| Conversion.Convert | converter/Convert.kt:65-85 | fails exactly when the types differ, with "Convert from S to T is impossible" naming both enum constants; otherwise the result measures the same quantity as the input once both are expressed in the intermediate unit |
| Conversion.ConvertScalesByFactors | converter/Convert.kt:72-79 | for distance and mass the result is the value times the source factor divided by the target factor |
| Conversion.CelsiusRoundTrip | converter/Convert.kt:195-225 | converting to Celsius and converting from Celsius undo each other, in both orders, for every temperature unit |
| Conversion.MetersRoundTrip | converter/Convert.kt:171-179 | converting to metres and converting from metres undo each other, in both orders |
| Conversion.GramsRoundTrip | converter/Convert.kt:185-193 | converting to grams and converting from grams undo each other, in both orders |
| Conversion.IntermediateIsInjective | converter/Convert.kt:171-209 | two values of one unit that agree in the intermediate unit are equal |
| Conversion.ConvertIsTheUniqueSameQuantity | converter/Convert.kt:65-85 | between units of one type, a value measures the same quantity as the input if and only if it is the result of `convert` |
| Conversion.ConvertIdentity | converter/Convert.kt:65-85 | converting a value to its own unit returns it unchanged |
| Conversion.ConvertComposes | converter/Convert.kt:65-85 | converting via a third unit of the same type equals converting directly |
| Conversion.ConvertRoundTrip | converter/Convert.kt:65-85 | converting to the target and back returns the original value |
| Conversion.ConvertIsIncreasing | converter/Convert.kt:65-85 | conversion preserves strict order, because every factor is positive and the temperature maps are increasing |
| Conversion.KnownTemperatures | converter/Convert.kt:195-225 | 0 °C is 273.15 K, 32 °F is 0 °C, 100 °C is 212 °F, and -40 °C is -40 °F |
| Conversion.KnownLengths | converter/Convert.kt:33-41 | a mile is 1609.35 metres, and a foot is 12 inches |
| Conversion.KnownMasses | converter/Convert.kt:43-44 | 1000 grams are one kilogram |
| Conversion.PoundIsSixteenOunces | converter/Convert.kt:46-48 | a pound is exactly 16 ounces |
| Conversion.LengthToMassFails | converter/Convert.kt:66-68 | metres cannot be converted to kilograms |
| Resolver.AnyEqualsIgnoreCase | converter/Convert.kt:155-157 | some alias of the list equals the name ignoring case, if and only if one at some index does |
| Resolver.FirstMatchIndex | converter/Convert.kt:154-164 | the first index at or after the start whose unit matches the name by any of the three rules, or the list's length when none does |
| Resolver.Resolve | converter/Convert.kt:150-165 | the unit found matches the name, no unit declared before it matches, and the result is absent exactly when no unit matches |
| Resolver.ResolveIsFirstMatch | converter/Convert.kt:154-162 | a matching unit with no matching unit before it is the one resolved |
| Resolver.GetUnitEnum | converter/Convert.kt:150-165 | the loop over the units and their aliases, with its early returns, computes `Resolve` |
| Resolver.AliasMatches | converter/Convert.kt:155-157 | the alias rule: some alias of the unit equals the name, ignoring case |
| Resolver.NameMatches | converter/Convert.kt:151-159 | the enum-name rule: the enum name equals the name, or the name without its one trailing s or S when it is longer than three characters, ignoring case |
| Resolver.IrregularPluralMatches | converter/Convert.kt:161 | the irregular-plural rule: the unit has an irregular plural and it equals the name, ignoring case |
| Uniqueness.ResolvesFeetToFoot | converter/Convert.kt:150-165 | "feet" resolves to FOOT through the irregular plural |
| Uniqueness.ResolvesFtToFoot | converter/Convert.kt:150-165 | "ft" resolves to FOOT through its alias |
| Uniqueness.ResolvesInchesToInch | converter/Convert.kt:150-165 | "inches" resolves to INCH |
| Uniqueness.ResolvesCelsiusToCelsius | converter/Convert.kt:150-165 | "celsius" resolves to CELSIUS through the enum name, ignoring case |
| Uniqueness.ResolvesKgToKilogram | converter/Convert.kt:150-165 | "kg" resolves to KILOGRAM |
| Resolver.ResolvesNothingForXyz | converter/Convert.kt:164 | "xyz" resolves to nothing |
| Uniqueness.MatchKeepsSignature | converter/Convert.kt:151-161 | whichever rule lets a unit accept a name, the name's length and folded first and last letters are those of one of the unit's names |
| Uniqueness.SignaturesAreOwned | converter/Convert.kt:18-48 | every signature of a unit's names belongs to that unit in the written-out owner table, so no two units share a signature |
| Uniqueness.MatchesAtMostOneUnit | converter/Convert.kt:150-165 | no name is accepted by two different units of the registry |
| Uniqueness.ResolveIsTheOnlyMatch | converter/Convert.kt:150-165 | a name resolves to a unit if and only if that unit accepts it, whatever the units declared before it |
| Naming.GetUnitName | converter/Convert.kt:117-132 | the name is "???" exactly when the unit is unresolved |
| Naming.DisplayNameMatches | converter/Convert.kt:117-132 | each singular, plural and irregular plural that `getUnitName` gives a unit is accepted by that unit's matching rules |
| Naming.DisplayNameResolves | converter/Convert.kt:117-165 | `getUnitEnum` reads every display name, for every unit and every value, back as the unit it names |
| Naming.RegularPluralAddsS | converter/Convert.kt:127-131 | for a length or mass unit without an irregular plural, the name for any value other than 1.0 is the singular followed by "s" |
| Validity.IsConversionPossible | converter/Convert.kt:137-145 | true if and only if both units resolved, their types are equal, and the type is temperature or the value is strictly positive; when true, `convert` succeeds |
| Validity.PrintReason | converter/Convert.kt:90-109 | fails with "Conversion is possible" exactly when both units resolved to one type and the value is not a negative length or weight; it always fails when the conversion is possible |
| Validity.ImpossibleMessage | converter/Convert.kt:108 | the text printed for an impossible conversion, naming the source and then the target |
| Naming.CelsiusEnumName | converter/Convert.kt:120-123 | the enum-name rendering of Celsius is "degrees Celsius" |
| Naming.FahrenheitEnumName | converter/Convert.kt:120-123 | the enum-name rendering of Fahrenheit is "degrees Fahrenheit" |
| Naming.KelvinEnumName | converter/Convert.kt:120-121 | the enum-name rendering of Kelvin is "kelvins" |
| Naming.EnumNameOfTemperatureIsPlural | converter/Convert.kt:120-129 | for temperature units, the enum-name rendering equals the plural display name (the second alias) |
| Naming.SingularDiffersFromPlural | converter/Convert.kt:125-131 | for every unit, the name for the value 1.0 differs from the name for any other value |
| Validity.NegativeLengthOrWeightReason | converter/Convert.kt:95-99 | a negative value between distance units, or between mass units, is refused with "Length shouldn't be negative" or "Weight shouldn't be negative" |
| Validity.ZeroLengthOrWeightHasNoReason | converter/Convert.kt:90-145 | 0.0 between two distance or two mass units is refused, yet `printReason` fails with "Conversion is possible" |
| Validity.ImpossibleConversionReason | converter/Convert.kt:105-108 | for an unresolved unit or mismatched types, the message names each side by its plural display name, or "???" |
| Naming.DisplayNameExamples | converter/Convert.kt:119-131 | "meter", "meters", "feet", "degree Celsius", "degrees Celsius" and "???" for the matching inputs |
| Naming.KilogramPlural | converter/Convert.kt:131 | the plural of kilogram is "kilograms" |
| Validity.ValidityExamples | converter/Convert.kt:137-145 | -5 m to ft is refused, -5 °C to K is allowed, 5 m to kg is refused, and an unresolved source is refused |
| Validity.NegativeReasonExamples | converter/Convert.kt:96-98 | -1 m to ft gives the length message, and -1 lb to g gives the weight message |
| Validity.MetersToKilogramsReason | converter/Convert.kt:105-108 | 5 m to kg gives "Conversion from meters to kilograms is impossible" |
| Validity.UnresolvedToCelsiusReason | converter/Convert.kt:105-108 | an unresolved source to Celsius gives "Conversion from ??? to degrees Celsius is impossible" |
| Validity.KelvinsToFeetReason | converter/Convert.kt:105-108 | Kelvin to feet gives "Conversion from kelvins to feet is impossible" |
| Text.Lowercase | converter/Convert.kt:121-131 | `lowercase()` keeps the length and folds each character |
| Text.FoldedEqualFromIsPointwise | converter/Convert.kt:156-161 | the recursive case-insensitive comparison holds exactly when every position agrees after folding |
| Text.EqualsIgnoreCaseIsLowercaseEquality | converter/Convert.kt:156-161 | equality ignoring case holds exactly when the lower-cased forms are equal |
| Text.EqualsPrefixIgnoreCaseIsSliceEquality | converter/Convert.kt:151-159 | comparing with the name minus its last character is comparing with `dropLast(1)` of it |
| Text.ContainsIffOccurs | converter/Main.kt:70-71 | `contains` holds exactly when the substring occurs at some position |
| Tokens.ConnectorIndex | converter/Main.kt:51-72 | the connecting word sits at position 2 or 3, leaving one or two words for each unit |
| Tokens.ExtractUnitToken | converter/Main.kt:51-73 | for four to six words, the source name is the words between the number and the connector and the target name is the words after the connector, joined by single spaces |
| Tokens.ExtractTokens | converter/Main.kt:39-72 | fails with "The string should consist of 4-6 tokens" exactly when there are not four to six words; otherwise the source name is the words between the number and the connector, and the target name is the words after the connector, each joined by single spaces |
| Tokens.JoinedPairs | converter/Main.kt:55-72 | joining one word gives the word, and joining two gives them separated by one space |
| Tokens.FourWords | converter/Main.kt:59-62 | with four words, the units are the second and fourth words |
| Tokens.SixWords | converter/Main.kt:55-58 | with six words, the units are words 1-2 and words 4-5, each joined by a space |
| Tokens.FiveWordsWithDegree | converter/Main.kt:69-72 | with five words whose second contains "degree", the source is words 1-2 and the target is word 4 |
| Tokens.FiveWordsWithoutDegree | converter/Main.kt:69-72 | with five words otherwise, the source is word 1 and the target is words 3-4 |

## Left out

- `main` and `askToEnterSourceData` (converter/Main.kt:3-37): the console loop, `readLine`, `print` and `println`, and the exit exception used for control flow.
- The `FOR_CONVERSION` and `EXIT` regular expressions (converter/RegexConstants.kt) and `formatInput` (converter/Main.kt:79-89). They depend on the Kotlin regex engine and on `replaceIndent`.
- The regex `split` and `toDouble()` in `extractTokens`. The model takes the word list as input and returns the number's word as text.
- The output of `printConversionResult` (converter/Convert.kt:58-63). The calls it makes to `convert` and `getUnitName` are modelled; the formatting of the sentence, the rendering of `Double` values and the `println` are not. Which name a converted value gets depends on whether the `Double` result equals 1.0 exactly, which IEEE rounding can decide differently from real arithmetic.
- IEEE-754 rounding: values are exact reals, so the round-trip and reference-point results hold for the algebra, not bit for bit for doubles.
- Case folding outside ASCII. Every registry string is ASCII.
- Validity.PrintReason: returns the message without the blank line that the source prints after it.
