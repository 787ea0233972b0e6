/** Concrete strings and the outcome the validator gives them. */
module VinScenarios {
  import opened VinValidator
  import opened Vins
  import opened VinDescription

  /** A common example VIN: its weighted sum is 311, and 311 mod 11 is 3,
      which is the character it carries in position 9. */
  lemma WorkedExample()
    ensures CheckSumDefined("1HGCM82633A004352")
    ensures CheckSum("1HGCM82633A004352") == 311
    ensures Validate("1HGCM82633A004352") == Pass
  {
    var s := "1HGCM82633A004352";
    forall i | 0 <= i < 17 ensures IsLegalCharacter(s[i]) {
      LegalAlphabet(s[i]);
    }
    LookupsAreTotal(s);
    ExampleSums(s);
  }

  lemma WorkedExampleSections(v: Vin)
    requires v.Valid() && v.FullVIN == "1HGCM82633A004352"
    ensures v.WMI == "1HG" && v.VDS == "CM8263" && v.VIS == "3A004352"
    ensures GetSerialNumber(v) == "004352"
  {
    ExampleSlices(v.FullVIN);
  }

  lemma ExampleSlices(s: string)
    requires s == "1HGCM82633A004352"
    ensures s[0..3] == "1HG" && s[3..9] == "CM8263" && s[9..] == "3A004352"
    ensures s[11..17] == "004352"
  {
  }

  lemma ShortStrings()
    ensures Validate("") == Fail(IncorrectLength)
    ensures Validate("1HGCM82633A00435") == Fail(IncorrectLength)
    ensures Validate("1HGCM82633A0043521") == Fail(IncorrectLength)
  {
  }

  /** I is not in the alphabet; lower case and space are rejected as well. */
  lemma IllegalLetters()
    ensures Validate("1HGCM82I33A004352") == Fail(IllegalCharacters)
    ensures Validate("1hgcm82633a004352") == Fail(IllegalCharacters)
    ensures Validate("1HGCM826 3A004352") == Fail(IllegalCharacters)
  {
    LegalAlphabet('I');
    LegalAlphabet('h');
    LegalAlphabet(' ');
    assert "1HGCM82I33A004352"[7] == 'I';
    assert "1hgcm82633a004352"[1] == 'h';
    assert "1HGCM826 3A004352"[8] == ' ';
  }

  /** A legal letter other than X in the check position passes the alphabet
      stage and fails the next one. */
  lemma IllegalCheckPosition()
    ensures Validate("1HGCM826Y3A004352") == Fail(IllegalCheckSumCharacter)
  {
    var s := "1HGCM826Y3A004352";
    forall i | 0 <= i < 17 ensures IsLegalCharacter(s[i]) {
      LegalAlphabet(s[i]);
    }
    LookupsAreTotal(s);
  }

  /** The example with a wrong check digit: the sum is still 311, which
      calls for 3, not 2. */
  lemma WrongCheckDigit()
    ensures CheckSumDefined("1HGCM82623A004352")
    ensures CheckSum("1HGCM82623A004352") == 311
    ensures Validate("1HGCM82623A004352") == Fail(InvalidCheckSum)
  {
    var s := "1HGCM82623A004352";
    forall i | 0 <= i < 17 ensures IsLegalCharacter(s[i]) {
      LegalAlphabet(s[i]);
    }
    LookupsAreTotal(s);
    ExampleSums(s);
  }

  /** The example with its tenth character replaced by Y: the ninth is still
      the legal symbol 3, but the sum becomes 356, which calls for 4. */
  lemma TenthCharacterChanged()
    ensures CheckSumDefined("1HGCM8263YA004352")
    ensures CheckSum("1HGCM8263YA004352") == 356
    ensures Validate("1HGCM8263YA004352") == Fail(InvalidCheckSum)
  {
    var s := "1HGCM8263YA004352";
    forall i | 0 <= i < 17 ensures IsLegalCharacter(s[i]) {
      LegalAlphabet(s[i]);
    }
    LookupsAreTotal(s);
    ExampleSums(s);
  }

  /** The weighted sums of the three 17-character example strings. */
  lemma ExampleSums(s: string)
    requires CheckSumDefined(s)
    ensures s == "1HGCM82633A004352" ==> CheckSum(s) == 311
    ensures s == "1HGCM82623A004352" ==> CheckSum(s) == 311
    ensures s == "1HGCM8263YA004352" ==> CheckSum(s) == 356
  {
    if |s| == 17 {
      CheckSumExpanded(s);
      LetterValues();
    }
  }

  /** The values of the letters the examples use. */
  lemma LetterValues()
    ensures CharValue('A') == 1 && CharValue('C') == 3 && CharValue('G') == 7
    ensures CharValue('H') == 8 && CharValue('M') == 4 && CharValue('Y') == 8
  {
  }
}
