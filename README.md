# VIN validation and decomposition

A Dafny model of the VIN library's core. It covers the validator that decides
whether a raw string is a Vehicle Identification Number, and the `VIN` value
object that holds a validated string and its ISO 3779 sections.

The validator (`VINValidator.ValidateVIN`) runs four checks in a fixed order
and stops at the first one that fails:

1. the length is exactly 17;
2. every character is a digit or an upper-case letter other than I, O and Q;
3. the ninth character (the check position) is a digit or `X`;
4. the ninth character equals the weighted modulo-11 check digit of the
   North American standard, 49 CFR 565.15(c).

The model turns the C# exceptions into an `Outcome` value (`Pass` or
`Fail(error)`), with one error kind per `throw`. Its four checks and the
checksum loop follow the C# code step by step. The validator's tables are Dafny
constants: the two table strings, the letter-to-number dictionary and the
position-to-weight dictionary. Next to them, `Transliterate`,
`ReferenceWeight` and `ReferenceSum` state the check digit the way the
standard does, without the tables. Lemmas prove the two formulations equal.

Files and modules:

- `Validator.dfy`, module `VinValidator`: the four stages, the checksum
  computation, the method `ValidateVIN`, the function `Validate` that
  specifies it, and the properties.
- `Vin.dfy`, module `Vins`: the class `Vin`, with the four read-only fields
  `FullVIN`, `WMI`, `VDS` and `VIS`. `Vin.Create` validates a string and
  builds the object only on success.
- `Description.dfy`, module `VinDescription`: `GetSerialNumber`.
- `Scenarios.dfy`, module `VinScenarios`: the outcomes for concrete strings.

Determinism and the absence of state between calls hold by construction:
`Validate` is a function, and `ValidateVIN` modifies nothing.

## Model

| member | source | states |
|---|---|---|
| `VinValidator.LetterTableIsTransliteration` | VinClasses.cs:78-83 | the letter dictionary's keys are exactly the 23 legal letters, and each value is the standard's transliteration of its letter |
| `VinValidator.WeightTableIsReference` | VinClasses.cs:87-91 | the weight dictionary is defined exactly on positions 1..17 and gives the standard's weights there (0 at position 9) |
| `VinValidator.HasCorrectLength` | VinClasses.cs:181-188 | a string that passes the length check can be indexed at position 9, and each of its positions has a weight, so later stages cannot index out of range |
| `VinValidator.LegalAlphabet` | VinClasses.cs:35 | a character passes the table-string test (not a space, contained in the table) exactly when it is a digit or an upper-case letter other than I, O and Q; spaces and lower case are rejected |
| `VinValidator.ContainsOnlyLegalCharacters` | VinClasses.cs:144-163 | the early-exit scan returns true exactly when every character passes; false means some character is outside the VIN alphabet |
| `VinValidator.HasLegalCheckSumCharacter` | VinClasses.cs:166-178 | the check passes exactly when position 9 holds a digit, `X` or the table string's separator space |
| `VinValidator.CharValue` | VinClasses.cs:97-107 | a digit's value or a letter's dictionary value lies in 0..9 |
| `VinValidator.PartialSum` | VinClasses.cs:93-110 | the accumulated weighted sum over the first n positions is never negative and at most 90·n, so it cannot overflow a 32-bit int |
| `VinValidator.CheckSumExpanded` | VinClasses.cs:95-110 | the checksum of a 17-character string is Σ value(c_p)·weight(p), with the weights 8,7,6,5,4,3,2,10,0,9,8,7,6,5,4,3,2 |
| `VinValidator.TruncatingDiv` | VinClasses.cs:112 | C#'s truncating integer division agrees with Euclidean division for a non-negative dividend |
| `VinValidator.RemainderIsModulus` | VinClasses.cs:112-115 | `sum - (sum / 11) * 11` is `sum % 11` and lies in 0..10 |
| `VinValidator.RemainderSymbol` | VinClasses.cs:117-131 | a remainder below 10 becomes the digit of that value, and 10 becomes `X`; the symbol is always a digit or `X` |
| `VinValidator.IsValidCheckSum` | VinClasses.cs:71-141 | the loop accumulates the weighted sum, and the result is true exactly when position 9 holds the symbol of that sum modulo 11 |
| `VinValidator.LookupsAreTotal` | VinClasses.cs:95-110 | after the length and alphabet stages, every dictionary lookup of the checksum loop has its key, so `IsValidCheckSum` cannot throw |
| `VinValidator.ValidateVIN` | VinClasses.cs:42-67 | the four guards run in order, and the outcome is the specification function `Validate` |
| `VinValidator.PartialSumMeetsReference` | VinClasses.cs:93-110 | the loop's partial sum over positions 1..n plus the standard's sum over the remaining positions gives the standard's total |
| `VinValidator.CheckSumIsReference` | VinClasses.cs:93-131 | for a 17-character string in the VIN alphabet, the validator's sum and expected symbol are the standard's sum and check digit |
| `VinValidator.ValidateMeaning` | VinClasses.cs:42-67 | each error appears exactly when all earlier stages pass and its own stage fails: a length other than 17 gives the length error; a character outside the alphabet gives the character error; a non-digit, non-`X` ninth character gives the check-character error (a space never passes this stage); a wrong check digit gives the checksum error. Pass means all four hold |
| `VinValidator.CheckCharacterIgnored` | VinClasses.cs:87-110 | changing the character at position 9 leaves the weighted sum unchanged, because that position has weight 0 |
| `VinValidator.CheckSymbolReplaced` | VinClasses.cs:135-140 | with a digit or `X` put at position 9 of a legal 17-character string, the string stays legal, its expected symbol is unchanged, and validation passes if it is the expected symbol and fails with the checksum error otherwise |
| `VinValidator.ExactlyOneCheckSymbol` | VinClasses.cs:135-140 | the expected symbol of a legal 17-character string is a digit or `X`, and a digit or `X` at position 9 makes the string valid exactly when it is that symbol |
| `VinValidator.PassIsAscii` | VinClasses.cs:42-67 | a string that passes has 17 characters, all below 128, so its length is the same whether counted in Unicode scalar values or in UTF-16 code units |
| `Vins.Vin.constructor` | VinClasses.cs:24-27 | stores the validated string unchanged, and WMI, VDS and VIS are its slices [0,3), [3,9) and [9,17) |
| `Vins.Vin.Create` | VinClasses.cs:20-28 | a VIN object is built exactly when validation passes; otherwise the validator's error is returned unchanged |
| `Vins.Decomposition` | VinClasses.cs:24-27 | the sections have lengths 3, 6 and 8, and WMI + VDS + VIS is the full string |
| `VinDescription.GetSerialNumber` | VinClasses.cs:235-239 | the serial number is the VIN's last six characters, `FullVIN[11..17]` |
| `VinScenarios.WorkedExample` | VinClasses.cs:42-67 | `1HGCM82633A004352` has sum 311; 311 mod 11 = 3, and the string is valid |
| `VinScenarios.WorkedExampleSections` | VinClasses.cs:20-28 | that VIN has WMI `1HG`, VDS `CM8263`, VIS `3A004352` and serial number `004352` |
| `VinScenarios.ShortStrings` | VinClasses.cs:181-188 | the empty string, a 16-character string and an 18-character string fail with the length error |
| `VinScenarios.IllegalLetters` | VinClasses.cs:144-163 | strings containing `I`, lower-case letters or a space fail with the character error |
| `VinScenarios.IllegalCheckPosition` | VinClasses.cs:166-178 | a legal letter other than `X` at position 9 fails with the check-character error |
| `VinScenarios.WrongCheckDigit` | VinClasses.cs:112-140 | `1HGCM82623A004352` has sum 311 but carries 2, so it fails only the checksum stage |
| `VinScenarios.TenthCharacterChanged` | VinClasses.cs:93-140 | `1HGCM8263YA004352` (with `Y` tenth and `3` ninth) passes the check-character stage; its sum 356 calls for `4`, so it fails with the checksum error |

## Left out

- The `VINDescription` methods `GetManufacturerCountry`, `GetManufacturer`, `GetVehicleParameters`, `GetModelYear` and `GetFactoryCode` (VinClasses.cs:203-232): they return constant placeholder strings in place of external reference tables, so there is no logic to model.
- Exception types and message texts (VinClasses.cs:47-65): each `throw` is an error kind of `ValidationError` instead.
- A `null` argument: `ValidateVIN(null)` would throw `NullReferenceException` on `vin.Length` (VinClasses.cs:183), and `GetSerialNumber(null)` would throw it on `vin.VIS` (VinClasses.cs:237); Dafny strings and the model's `Vin` parameter are never null.
- `VinValidator.Validate`: a Dafny `string` is a sequence of Unicode scalar values, while C#'s `Length` and indexer (VinClasses.cs:157, 183) count UTF-16 code units. A string with a character outside the Basic Multilingual Plane can therefore get a different error kind: `"1HGCM82633A0043\U{1F600}"` has 17 code units in C# and fails the alphabet stage on its high surrogate, but has 16 characters in the model and gets the length error; 16 ASCII characters plus such a character go the other way. Whether a string passes is unaffected, because a passing string is ASCII (`PassIsAscii`).
- `char.IsDigit` accepts every Unicode decimal digit; the model's `IsDigit` accepts `0`-`9` only. The two differ only on characters that the alphabet stage rejects first.
- The two dictionaries are constants instead of being built on every call to `IsValidCheckSum`: the allocation does not change what is computed.
- `LegalCharacters` is written as four joined string pieces (digits, A-H, J-R, S-Z). Its value is the same single table string.
- `VinValidator.HasLegalCheckSumCharacter`: requires at least nine characters; the `IndexOutOfRangeException` of a shorter string is not modelled, because `ValidateVIN` runs it only after the length check.
- `VinValidator.IsValidCheckSum`: requires `CheckSumDefined`, the inputs on which no index or dictionary lookup fails; the exceptions outside that set are not modelled, because `ValidateVIN` calls it only after stages 1-3 (`LookupsAreTotal`).
- `Vins.Vin.constructor`: requires a string that passes validation; the throwing path of the C# constructor is `Vins.Vin.Create`, which returns the error instead of an object.
- The C# properties have private setters and are assigned only in the constructor; the model makes them `const` fields.
