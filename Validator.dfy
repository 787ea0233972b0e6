/** The four-stage, fail-fast validation of a raw Vehicle Identification
    Number, and the weighted modulo-11 check digit it ends with.

    The stages run in a fixed order and the first failing one decides the
    error: length, alphabet, check-character symbol, check-character value.
    Exceptions become a tagged Outcome.
 */
module VinValidator {

  /** One error kind per rejection, in the order the stages run. */
  datatype ValidationError =
    | IncorrectLength
    | IllegalCharacters
    | IllegalCheckSumCharacter
    | InvalidCheckSum

  datatype Outcome = Pass | Fail(error: ValidationError)

  // ---------------------------------------------------------------------------
  // Reference definitions: the VIN alphabet and the check-digit computation as
  // the North American standard (49 CFR 565.15) states them, written without
  // the validator's own tables.
  // ---------------------------------------------------------------------------

  predicate IsDigit(c: char) { '0' <= c <= '9' }

  /** Digits and upper-case Latin letters other than I, O and Q. */
  predicate IsVinCharacter(c: char) {
    IsDigit(c) || ('A' <= c <= 'Z' && c != 'I' && c != 'O' && c != 'Q')
  }

  /** The symbols that may stand in the check position: a digit or X. */
  predicate IsCheckDigitSymbol(c: char) { IsDigit(c) || c == 'X' }

  /** Transliteration of a VIN character to its numeric value: digits stand
      for themselves, and the letters are numbered 1..9 in three runs
      A..H, J..R, S..Z (with the gaps left by I, O and Q). */
  function Transliterate(c: char): (v: int)
    requires IsVinCharacter(c)
    ensures 0 <= v <= 9
  {
    if IsDigit(c) then c as int - '0' as int
    else if c <= 'H' then c as int - 'A' as int + 1
    else if c <= 'R' then c as int - 'J' as int + 1
    else c as int - 'S' as int + 2
  }

  /** Weight of 1-based position p: descending from 8 before the check
      position, 10 at position 8, 0 at the check position 9, and descending
      from 9 after it. */
  function ReferenceWeight(p: int): (w: int)
    requires 1 <= p <= 17
    ensures 0 <= w <= 10
    ensures w == 0 <==> p == 9
  {
    if p <= 7 then 9 - p
    else if p == 8 then 10
    else if p == 9 then 0
    else 19 - p
  }

  /** Sum of Transliterate(s[k]) * ReferenceWeight(p + k) over the characters
      of s, the first of which stands at position p. */
  function ReferenceSum(s: string, p: int): int
    requires 1 <= p && p + |s| <= 18
    requires forall k | 0 <= k < |s| :: IsVinCharacter(s[k])
    decreases |s|
  {
    if s == [] then 0
    else Transliterate(s[0]) * ReferenceWeight(p) + ReferenceSum(s[1..], p + 1)
  }

  /** Maps a remainder modulo 11 to its check symbol: the digit itself, or X
      for ten. */
  function RemainderSymbol(r: int): (c: char)
    requires 0 <= r <= 10
    ensures IsCheckDigitSymbol(c)
    ensures r < 10 ==> IsDigit(c) && c as int - '0' as int == r
    ensures c == 'X' <==> r == 10
  {
    if r != 10 then ('0' as int + r) as char else 'X'
  }

  /** The check symbol a 17-character VIN must carry in position 9. */
  function ReferenceCheckDigit(vin: string): char
    requires |vin| == 17
    requires forall k | 0 <= k < 17 :: IsVinCharacter(vin[k])
  {
    RemainderSymbol(ReferenceSum(vin, 1) % 11)
  }

  // ---------------------------------------------------------------------------
  // The validator's constant tables.
  // ---------------------------------------------------------------------------

  /** The legal alphabet, one symbol per entry, separated by spaces. The
      string is written as four runs (digits, A..H, J..R, S..Z) joined
      together; its value is the single table string of the validator. */
  const LegalCharacters: string :=
    "0 1 2 3 4 5 6 7 8 9 " + "A B C D E F G H " + "J K L M N P R " + "S T U V W X Y Z"

  /** The legal check-position symbols, separated by spaces. */
  const CheckSumLegalCharacters: string := "0 1 2 3 4 5 6 7 8 9 X"

  const LetterToNumber: map<char, int> := map[
    'A' := 1, 'B' := 2, 'C' := 3, 'D' := 4, 'E' := 5, 'F' := 6, 'G' := 7, 'H' := 8,
    'J' := 1, 'K' := 2, 'L' := 3, 'M' := 4, 'N' := 5, 'P' := 7, 'R' := 9,
    'S' := 2, 'T' := 3, 'U' := 4, 'V' := 5, 'W' := 6, 'X' := 7, 'Y' := 8, 'Z' := 9]

  const PositionToWeight: map<int, int> := map[
    1 := 8, 2 := 7, 3 := 6, 4 := 5, 5 := 4, 6 := 3, 7 := 2, 8 := 10, 9 := 0,
    10 := 9, 11 := 8, 12 := 7, 13 := 6, 14 := 5, 15 := 4, 16 := 3, 17 := 2]

  /** The letter table holds exactly the legal letters, and agrees with the
      standard's transliteration on each of them. */
  lemma LetterTableIsTransliteration(c: char)
    ensures c in LetterToNumber <==> IsVinCharacter(c) && !IsDigit(c)
    ensures c in LetterToNumber ==> LetterToNumber[c] == Transliterate(c)
  {
  }

  /** The weight table is defined exactly on positions 1..17 and agrees with
      the standard's weights there. */
  lemma WeightTableIsReference(p: int)
    ensures p in PositionToWeight <==> 1 <= p <= 17
    ensures p in PositionToWeight ==> PositionToWeight[p] == ReferenceWeight(p)
  {
  }

  // ---------------------------------------------------------------------------
  // Stage 1: length.
  // ---------------------------------------------------------------------------

  /** A string of the right length can be indexed at the check position, and
      each of its positions has a weight. */
  predicate HasCorrectLength(vin: string)
    ensures HasCorrectLength(vin) ==> 8 < |vin| && forall p | 1 <= p <= |vin| :: p in PositionToWeight
  {
    |vin| == 17
  }

  // ---------------------------------------------------------------------------
  // Stage 2: alphabet.
  // ---------------------------------------------------------------------------

  /** A character passes when it is not the separator and occurs in the
      table string. */
  predicate IsLegalCharacter(c: char) {
    c != ' ' && c in LegalCharacters
  }

  /** The characters that pass are exactly the VIN alphabet: space and
      lower-case letters are rejected. */
  lemma LegalAlphabet(c: char)
    ensures IsLegalCharacter(c) <==> IsVinCharacter(c)
  {
    DigitRun(c);
    LetterRunAToH(c);
    LetterRunJToR(c);
    LetterRunSToZ(c);
  }

  lemma DigitRun(c: char)
    ensures c != ' ' && c in "0 1 2 3 4 5 6 7 8 9 " <==> IsDigit(c)
  {
    if IsDigit(c) {
      assert c == '0' || c == '1' || c == '2' || c == '3' || c == '4' ||
             c == '5' || c == '6' || c == '7' || c == '8' || c == '9';
    }
  }

  lemma LetterRunAToH(c: char)
    ensures c != ' ' && c in "A B C D E F G H " <==> 'A' <= c <= 'H'
  {
    if 'A' <= c <= 'H' {
      assert c == 'A' || c == 'B' || c == 'C' || c == 'D' ||
             c == 'E' || c == 'F' || c == 'G' || c == 'H';
    }
  }

  lemma LetterRunJToR(c: char)
    ensures c != ' ' && c in "J K L M N P R " <==> 'J' <= c <= 'R' && c != 'O' && c != 'Q'
  {
    if 'J' <= c <= 'R' && c != 'O' && c != 'Q' {
      assert c == 'J' || c == 'K' || c == 'L' || c == 'M' ||
             c == 'N' || c == 'P' || c == 'R';
    }
  }

  lemma LetterRunSToZ(c: char)
    ensures c != ' ' && c in "S T U V W X Y Z" <==> 'S' <= c <= 'Z'
  {
    if 'S' <= c <= 'Z' {
      assert c == 'S' || c == 'T' || c == 'U' || c == 'V' ||
             c == 'W' || c == 'X' || c == 'Y' || c == 'Z';
    }
  }

  predicate AllLegal(vin: string) {
    forall i | 0 <= i < |vin| :: IsLegalCharacter(vin[i])
  }

  /** Scans the string and stops at the first illegal character. */
  method ContainsOnlyLegalCharacters(vin: string) returns (ok: bool)
    ensures ok <==> AllLegal(vin)
    ensures !ok ==> exists i | 0 <= i < |vin| :: !IsVinCharacter(vin[i])
  {
    for i := 0 to |vin|
      invariant forall k | 0 <= k < i :: IsLegalCharacter(vin[k])
    {
      if !(vin[i] != ' ' && vin[i] in LegalCharacters) {
        LegalAlphabet(vin[i]);
        return false;
      }
    }
    return true;
  }

  // ---------------------------------------------------------------------------
  // Stage 3: check-position symbol.
  // ---------------------------------------------------------------------------

  /** The check position holds a symbol of the table string. Because that
      string separates its entries with spaces, a space also passes here. */
  predicate HasLegalCheckSumCharacter(vin: string)
    requires 8 < |vin|
    ensures HasLegalCheckSumCharacter(vin) <==> IsCheckDigitSymbol(vin[8]) || vin[8] == ' '
  {
    vin[9 - 1] in CheckSumLegalCharacters
  }

  // ---------------------------------------------------------------------------
  // Stage 4: check-position value.
  // ---------------------------------------------------------------------------

  /** A character has a numeric value: a digit, or a key of the letter table. */
  predicate HasNumber(c: char) { IsDigit(c) || c in LetterToNumber }

  /** The inputs on which the checksum computation performs no failing
      access: the check position exists, every position has a weight and
      every character has a numeric value. */
  predicate CheckSumDefined(vin: string) {
    8 < |vin| <= 17 && forall i | 0 <= i < |vin| :: HasNumber(vin[i])
  }

  function CharValue(c: char): (v: int)
    requires HasNumber(c)
    ensures 0 <= v <= 9
  {
    if IsDigit(c) then c as int - '0' as int else LetterToNumber[c]
  }

  function Weight(p: int): (w: int)
    requires p in PositionToWeight
    ensures 0 <= w <= 10
  {
    PositionToWeight[p]
  }

  /** Sum of CharValue(vin[p - 1]) * Weight(p) over positions 1..n; it is
      never negative and at most 90 per position, so it cannot overflow a
      32-bit integer. */
  function PartialSum(vin: string, n: nat): (s: int)
    requires n <= |vin| <= 17
    requires forall i | 0 <= i < n :: HasNumber(vin[i])
    ensures 0 <= s <= 90 * n
  {
    if n == 0 then 0
    else
      var term := CharValue(vin[n - 1]) * Weight(n);
      ProductBound(CharValue(vin[n - 1]), Weight(n));
      PartialSum(vin, n - 1) + term
  }

  lemma ProductBound(a: int, b: int)
    requires 0 <= a <= 9 && 0 <= b <= 10
    ensures 0 <= a * b <= 90
  {
  }

  function CheckSum(vin: string): int
    requires CheckSumDefined(vin)
  {
    PartialSum(vin, |vin|)
  }

  /** The weight of each position, as the table gives it. */
  lemma WeightValues()
    ensures Weight(1) == 8 && Weight(2) == 7 && Weight(3) == 6 && Weight(4) == 5 && Weight(5) == 4 &&
      Weight(6) == 3 && Weight(7) == 2 && Weight(8) == 10 && Weight(9) == 0 && Weight(10) == 9 &&
      Weight(11) == 8 && Weight(12) == 7 && Weight(13) == 6 && Weight(14) == 5 && Weight(15) == 4 &&
      Weight(16) == 3 && Weight(17) == 2
  {
    forall p | 1 <= p <= 17 ensures Weight(p) == ReferenceWeight(p) {
      WeightTableIsReference(p);
    }
  }

  /** The checksum of a 17-character string is the weighted sum of its
      character values with the weights 8, 7, 6, 5, 4, 3, 2, 10, 0, 9, 8, 7,
      6, 5, 4, 3, 2. */
  lemma CheckSumExpanded(vin: string)
    requires CheckSumDefined(vin) && |vin| == 17
    ensures CheckSum(vin) ==
      8 * CharValue(vin[0]) +
      7 * CharValue(vin[1]) +
      6 * CharValue(vin[2]) +
      5 * CharValue(vin[3]) +
      4 * CharValue(vin[4]) +
      3 * CharValue(vin[5]) +
      2 * CharValue(vin[6]) +
      10 * CharValue(vin[7]) +
      0 * CharValue(vin[8]) +
      9 * CharValue(vin[9]) +
      8 * CharValue(vin[10]) +
      7 * CharValue(vin[11]) +
      6 * CharValue(vin[12]) +
      5 * CharValue(vin[13]) +
      4 * CharValue(vin[14]) +
      3 * CharValue(vin[15]) +
      2 * CharValue(vin[16])
  {
    WeightValues();
    assert PartialSum(vin, 1) == PartialSum(vin, 0) + 8 * CharValue(vin[0]);
    assert PartialSum(vin, 2) == PartialSum(vin, 1) + 7 * CharValue(vin[1]);
    assert PartialSum(vin, 3) == PartialSum(vin, 2) + 6 * CharValue(vin[2]);
    assert PartialSum(vin, 4) == PartialSum(vin, 3) + 5 * CharValue(vin[3]);
    assert PartialSum(vin, 5) == PartialSum(vin, 4) + 4 * CharValue(vin[4]);
    assert PartialSum(vin, 6) == PartialSum(vin, 5) + 3 * CharValue(vin[5]);
    assert PartialSum(vin, 7) == PartialSum(vin, 6) + 2 * CharValue(vin[6]);
    assert PartialSum(vin, 8) == PartialSum(vin, 7) + 10 * CharValue(vin[7]);
    assert PartialSum(vin, 9) == PartialSum(vin, 8) + 0 * CharValue(vin[8]);
    assert PartialSum(vin, 10) == PartialSum(vin, 9) + 9 * CharValue(vin[9]);
    assert PartialSum(vin, 11) == PartialSum(vin, 10) + 8 * CharValue(vin[10]);
    assert PartialSum(vin, 12) == PartialSum(vin, 11) + 7 * CharValue(vin[11]);
    assert PartialSum(vin, 13) == PartialSum(vin, 12) + 6 * CharValue(vin[12]);
    assert PartialSum(vin, 14) == PartialSum(vin, 13) + 5 * CharValue(vin[13]);
    assert PartialSum(vin, 15) == PartialSum(vin, 14) + 4 * CharValue(vin[14]);
    assert PartialSum(vin, 16) == PartialSum(vin, 15) + 3 * CharValue(vin[15]);
    assert PartialSum(vin, 17) == PartialSum(vin, 16) + 2 * CharValue(vin[16]);
  }

  /** The check symbol that the validator computes for vin. */
  function ExpectedCheckSymbol(vin: string): char
    requires CheckSumDefined(vin)
  {
    RemainderSymbol(CheckSum(vin) % 11)
  }

  function Abs(x: int): nat { if x < 0 then -x else x }

  /** Integer division as C# performs it: the quotient is truncated toward
      zero. For a non-negative dividend and a positive divisor it agrees
      with Dafny's division. */
  function TruncatingDiv(a: int, b: int): (q: int)
    requires b != 0
    ensures 0 <= a && 0 < b ==> q == a / b
  {
    var m := Abs(a) / Abs(b);
    if (a < 0) == (b < 0) then m else -m
  }

  /** The remainder the validator forms from a non-negative sum is the
      modulus, a value in 0..10. */
  lemma RemainderIsModulus(sum: int)
    requires 0 <= sum
    ensures sum - TruncatingDiv(sum, 11) * 11 == sum % 11
    ensures 0 <= sum - TruncatingDiv(sum, 11) * 11 <= 10
  {
  }

  /** Computes the weighted sum over the string, reduces it modulo 11 and
      compares the resulting symbol with the check position. */
  method IsValidCheckSum(vin: string) returns (ok: bool)
    requires CheckSumDefined(vin)
    ensures ok <==> vin[8] == ExpectedCheckSymbol(vin)
  {
    var checkSumSymbol := vin[9 - 1];
    var calculatedCheckSum := 0;
    for i := 0 to |vin|
      invariant calculatedCheckSum == PartialSum(vin, i)
    {
      var number;
      if IsDigit(vin[i]) {
        number := vin[i] as int - '0' as int;
      } else {
        number := LetterToNumber[vin[i]];
      }
      calculatedCheckSum := calculatedCheckSum + number * PositionToWeight[i + 1];
    }
    var closestValue := TruncatingDiv(calculatedCheckSum, 11);
    closestValue := closestValue * 11;
    var calculatedCheckSumValue := calculatedCheckSum - closestValue;
    RemainderIsModulus(calculatedCheckSum);
    var calculatedCheckSumSymbol;
    if calculatedCheckSumValue != 10 {
      calculatedCheckSumSymbol := ('0' as int + calculatedCheckSumValue) as char;
    } else {
      calculatedCheckSumSymbol := 'X';
    }
    ok := checkSumSymbol == calculatedCheckSumSymbol;
  }

  /** After stages 1 and 2 every dictionary lookup of the checksum
      computation has its key. */
  lemma LookupsAreTotal(vin: string)
    requires |vin| == 17 && AllLegal(vin)
    ensures CheckSumDefined(vin)
  {
    forall i | 0 <= i < |vin| ensures HasNumber(vin[i]) {
      LegalAlphabet(vin[i]);
      LetterTableIsTransliteration(vin[i]);
    }
  }

  // ---------------------------------------------------------------------------
  // The whole validation.
  // ---------------------------------------------------------------------------

  /** The result of validating vin: the first failing stage, or Pass. */
  function Validate(vin: string): Outcome {
    if !HasCorrectLength(vin) then Fail(IncorrectLength)
    else if !AllLegal(vin) then Fail(IllegalCharacters)
    else if !HasLegalCheckSumCharacter(vin) then Fail(IllegalCheckSumCharacter)
    else
      LookupsAreTotal(vin);
      if vin[8] != ExpectedCheckSymbol(vin) then Fail(InvalidCheckSum) else Pass
  }

  /** Runs the four stages in order and reports the first that fails. */
  method ValidateVIN(vin: string) returns (outcome: Outcome)
    ensures outcome == Validate(vin)
  {
    if !HasCorrectLength(vin) {
      return Fail(IncorrectLength);
    }
    var legal := ContainsOnlyLegalCharacters(vin);
    if !legal {
      return Fail(IllegalCharacters);
    }
    if !HasLegalCheckSumCharacter(vin) {
      return Fail(IllegalCheckSumCharacter);
    }
    LookupsAreTotal(vin);
    var valid := IsValidCheckSum(vin);
    if !valid {
      return Fail(InvalidCheckSum);
    }
    return Pass;
  }

  // ---------------------------------------------------------------------------
  // Properties.
  // ---------------------------------------------------------------------------

  /** Positions n+1.. of the reference sum complete the validator's partial
      sum over positions 1..n to the full reference sum. */
  lemma {:induction false} PartialSumMeetsReference(vin: string, n: nat)
    requires |vin| == 17 && n <= 17
    requires forall k | 0 <= k < 17 :: IsVinCharacter(vin[k])
    ensures forall i | 0 <= i < n :: HasNumber(vin[i])
    ensures PartialSum(vin, n) + ReferenceSum(vin[n..], n + 1) == ReferenceSum(vin, 1)
  {
    forall i | 0 <= i < n ensures HasNumber(vin[i]) {
      LetterTableIsTransliteration(vin[i]);
    }
    if n > 0 {
      PartialSumMeetsReference(vin, n - 1);
      LetterTableIsTransliteration(vin[n - 1]);
      WeightTableIsReference(n);
      assert vin[n - 1..][1..] == vin[n..];
    } else {
      assert vin[0..] == vin;
    }
  }

  /** The validator's sum is the standard's sum. */
  lemma CheckSumIsReference(vin: string)
    requires |vin| == 17
    requires forall k | 0 <= k < 17 :: IsVinCharacter(vin[k])
    ensures CheckSumDefined(vin)
    ensures CheckSum(vin) == ReferenceSum(vin, 1)
    ensures ExpectedCheckSymbol(vin) == ReferenceCheckDigit(vin)
  {
    PartialSumMeetsReference(vin, 17);
  }

  /** Validation in the standard's terms: each error is reported exactly when
      every earlier stage passed and its own stage fails. In particular the
      space that the check-symbol table contains is never accepted. */
  lemma ValidateMeaning(vin: string)
    ensures Validate(vin) == Fail(IncorrectLength) <==> |vin| != 17
    ensures Validate(vin) == Fail(IllegalCharacters) <==>
      |vin| == 17 && exists k | 0 <= k < 17 :: !IsVinCharacter(vin[k])
    ensures Validate(vin) == Fail(IllegalCheckSumCharacter) <==>
      |vin| == 17 && (forall k | 0 <= k < 17 :: IsVinCharacter(vin[k])) &&
      !IsCheckDigitSymbol(vin[8])
    ensures Validate(vin) == Fail(InvalidCheckSum) <==>
      |vin| == 17 && (forall k | 0 <= k < 17 :: IsVinCharacter(vin[k])) &&
      IsCheckDigitSymbol(vin[8]) && vin[8] != ReferenceCheckDigit(vin)
    ensures Validate(vin) == Pass <==>
      |vin| == 17 && (forall k | 0 <= k < 17 :: IsVinCharacter(vin[k])) &&
      vin[8] == ReferenceCheckDigit(vin)
  {
    forall k | 0 <= k < |vin| ensures IsLegalCharacter(vin[k]) <==> IsVinCharacter(vin[k]) {
      LegalAlphabet(vin[k]);
    }
    if |vin| == 17 && AllLegal(vin) {
      CheckSumIsReference(vin);
    }
  }

  /** The check position has weight 0, so its character never changes the
      sum over the other positions. */
  lemma {:induction false} CheckCharacterIgnored(vin: string, c: char, n: nat)
    requires CheckSumDefined(vin) && HasNumber(c) && n <= |vin|
    ensures CheckSumDefined(vin[8 := c])
    ensures PartialSum(vin[8 := c], n) == PartialSum(vin, n)
  {
    var w := vin[8 := c];
    forall i | 0 <= i < |w| ensures HasNumber(w[i]) {
      if i != 8 { assert w[i] == vin[i]; }
    }
    if n > 0 {
      CheckCharacterIgnored(vin, c, n - 1);
      if n - 1 != 8 {
        assert vin[8 := c][n - 1] == vin[n - 1];
      } else {
        assert Weight(n) == 0;
      }
    }
  }

  /** For a legal 17-character string, the expected symbol is a check symbol,
      and among the check symbols it is the only one that makes validation
      pass in position 9. */
  lemma ExactlyOneCheckSymbol(vin: string)
    requires |vin| == 17 && AllLegal(vin)
    ensures CheckSumDefined(vin)
    ensures IsCheckDigitSymbol(ExpectedCheckSymbol(vin))
    ensures forall c | IsCheckDigitSymbol(c) ::
      Validate(vin[8 := c]) == Pass <==> c == ExpectedCheckSymbol(vin)
  {
    LookupsAreTotal(vin);
    forall c | IsCheckDigitSymbol(c)
      ensures Validate(vin[8 := c]) == Pass <==> c == ExpectedCheckSymbol(vin)
    {
      CheckSymbolReplaced(vin, c);
    }
  }

  /** Replacing the check character of a legal 17-character string by a check
      symbol keeps the string legal and leaves the expected symbol unchanged,
      so the result passes exactly for the expected symbol. */
  lemma CheckSymbolReplaced(vin: string, c: char)
    requires |vin| == 17 && AllLegal(vin)
    requires IsCheckDigitSymbol(c)
    ensures CheckSumDefined(vin)
    ensures AllLegal(vin[8 := c]) && CheckSumDefined(vin[8 := c])
    ensures ExpectedCheckSymbol(vin[8 := c]) == ExpectedCheckSymbol(vin)
    ensures Validate(vin[8 := c]) ==
      if c == ExpectedCheckSymbol(vin) then Pass else Fail(InvalidCheckSum)
  {
    LookupsAreTotal(vin);
    LegalAlphabet(c);
    LetterTableIsTransliteration(c);
    var w := vin[8 := c];
    forall i | 0 <= i < 17 ensures IsLegalCharacter(w[i]) {
      if i != 8 { assert w[i] == vin[i]; }
    }
    assert AllLegal(w);
    LookupsAreTotal(w);
    CheckCharacterIgnored(vin, c, 17);
    assert CheckSum(w) == CheckSum(vin);
  }

  /** A string that passes validation is plain ASCII, so counting its length
      in Unicode scalar values or in UTF-16 code units gives the same 17. */
  lemma PassIsAscii(vin: string)
    requires Validate(vin) == Pass
    ensures |vin| == 17
    ensures forall k | 0 <= k < |vin| :: vin[k] < 128 as char
  {
    forall k | 0 <= k < |vin| ensures vin[k] < 128 as char {
      LegalAlphabet(vin[k]);
    }
  }
}
