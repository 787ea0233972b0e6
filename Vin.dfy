/** The VIN value object: a validated string and its three fixed sections
    in the ISO 3779 layout. */
module Vins {
  import opened VinValidator

  /** The result of building a VIN: the object, or the validator's error. */
  datatype Construction = Built(vin: Vin) | Rejected(error: ValidationError)

  class Vin {
    const FullVIN: string
    /** World Manufacturer Identifier, characters [0, 3). */
    const WMI: string
    /** Vehicle Descriptor Section, characters [3, 9). */
    const VDS: string
    /** Vehicle Indicator Section, characters [9, 17). */
    const VIS: string

    /** Every VIN object holds a string that passed validation, and its
        sections are the fixed slices of that string. */
    predicate Valid() {
      Validate(FullVIN) == Pass && |FullVIN| == 17 &&
      WMI == FullVIN[0..3] && VDS == FullVIN[3..9] && VIS == FullVIN[9..]
    }

    /** Stores a string that has passed validation and slices it. */
    constructor (vin: string)
      requires Validate(vin) == Pass
      ensures Valid() && FullVIN == vin
    {
      FullVIN := vin;
      WMI := vin[0..3];
      VDS := vin[3..9];
      VIS := vin[9..];
    }

    /** Validates first; only a string that passes all four stages becomes a
        VIN, and otherwise the failing stage's error is reported unchanged. */
    static method Create(vin: string) returns (r: Construction)
      ensures r.Rejected? <==> Validate(vin) != Pass
      ensures r.Rejected? ==> Validate(vin) == Fail(r.error)
      ensures r.Built? ==> fresh(r.vin) && r.vin.Valid() && r.vin.FullVIN == vin
    {
      var outcome := ValidateVIN(vin);
      if outcome.Fail? {
        return Rejected(outcome.error);
      }
      var v := new Vin(vin);
      return Built(v);
    }
  }

  /** The three sections have lengths 3, 6 and 8 and put together give back
      the whole string. */
  lemma Decomposition(v: Vin)
    requires v.Valid()
    ensures |v.WMI| == 3 && |v.VDS| == 6 && |v.VIS| == 8
    ensures v.WMI + v.VDS + v.VIS == v.FullVIN
  {
    SlicesJoin(v.FullVIN);
  }

  lemma SlicesJoin(s: string)
    requires |s| == 17
    ensures s == s[0..3] + s[3..9] + s[9..]
  {
  }
}
