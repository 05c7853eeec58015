/** The per-axis scale factor of the calibration procedure: physical distance
    per raw count, from one reading taken while the sensor is moved by a known
    distance. */
module Calibration {

  /** `known / raw`, or 1.0 when the reading is zero. */
  function CalibrationFactor(known: real, raw: int): (f: real)
    ensures raw != 0 ==> f * (raw as real) == known
    ensures raw == 0 ==> f == 1.0
  {
    if raw != 0 then known / (raw as real) else 1.0
  }

  /** 15000 um over 1000 counts is 15 um per count; a zero reading falls back. */
  lemma CalibrationExamples()
    ensures CalibrationFactor(15000.0, 1000) == 15.0
    ensures CalibrationFactor(15000.0, 0) == 1.0
    ensures CalibrationFactor(15000.0, -1000) == -15.0
  {
  }
}
