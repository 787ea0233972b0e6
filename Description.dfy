/** Decoding of a validated VIN into further fields. */
module VinDescription {
  import opened Vins

  /** The serial number: the last six characters of the VIN, which are the
      VIS without its first two characters (model year and plant). */
  function GetSerialNumber(v: Vin): (serial: string)
    requires v.Valid()
    ensures |serial| == 6
    ensures serial == v.FullVIN[11..17]
    ensures v.FullVIN == v.FullVIN[..11] + serial
  {
    v.VIS[2..]
  }
}
