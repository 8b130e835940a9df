/** The tolerance test of ils-fixup.py (lines 9-13 and 68-87): how far a nav.dat row-4
    record may be from its correction before it is rewritten, and which discrepancies the
    diagnostic line names. Floating-point numbers are taken as reals. */
module Tolerance {
  import opened PyText
  import opened Loader

  /** `M_IN_FT`: feet in one metre. */
  const FeetPerMetre: real := 3.280839895
  /** `COORD_DEG_EPS`: about one metre along a meridian, in degrees. */
  const CoordDegEps: real := 1.0 / 111000.0
  /** `ELEV_M_EPS`, in metres. */
  const ElevMEps: real := 5.0
  /** `HDG_DEG_EPS`, in degrees. */
  const HdgDegEps: real := 0.1

  /** The four numeric fields read from a row-4 line: `float(tokens[1])`, `float(tokens[2])`,
      `int(tokens[3])` (feet) and `float(tokens[6])`. */
  datatype DbFields = DbFields(lat: real, lon: real, elevFt: int, hdg: real)

  /** `dlon`, `dlat`, `delev` (metres) and `dhdg`. */
  datatype Deltas = Deltas(dlon: real, dlat: real, delev: real, dhdg: real)

  /** One part of the discrepancy line written to standard error. */
  datatype Mismatch =
    | CoordOff(dlon: real, dlat: real)
    | ElevOff(delev: real)
    | HeadingOff(dhdg: real)
    | NavIdOff(expected: string, found: string)

  function Abs(x: real): real {
    if x < 0.0 then -x else x
  }

  /** Lines 69-72: the database value minus the correction's, the elevation in metres.
      `FeetPerMetre` is written out as a literal here and in `ElevationFeet`, which keeps
      the arithmetic linear for the verifier. */
  function DeltasOf(db: DbFields, c: Correction): Deltas {
    Deltas(db.lon - c.lon, db.lat - c.lat, db.elevFt as real / 3.280839895 - c.elev, db.hdg - c.hdg)
  }

  predicate CoordExceeded(d: Deltas) {
    Abs(d.dlon) > CoordDegEps || Abs(d.dlat) > CoordDegEps
  }

  /** The condition of lines 74-76: any of the five tests fires. */
  predicate NeedsCorrection(d: Deltas, navId: string, found: string) {
    || Abs(d.dlon) > CoordDegEps
    || Abs(d.dlat) > CoordDegEps
    || Abs(d.delev) > ElevMEps
    || Abs(d.dhdg) > HdgDegEps
    || navId != found
  }

  /** The parts lines 79-86 print after the key, in their order. */
  function Mismatches(d: Deltas, navId: string, found: string): seq<Mismatch> {
    (if CoordExceeded(d) then [CoordOff(d.dlon, d.dlat)] else [])
    + (if Abs(d.delev) > ElevMEps then [ElevOff(d.delev)] else [])
    + (if Abs(d.dhdg) > HdgDegEps then [HeadingOff(d.dhdg)] else [])
    + (if navId != found then [NavIdOff(navId, found)] else [])
  }

  /** The discrepancy line has a part exactly when the correction is needed, each test that
      fires is named, and nothing else is. */
  lemma MismatchesNamed(d: Deltas, navId: string, found: string)
    ensures Mismatches(d, navId, found) != [] <==> NeedsCorrection(d, navId, found)
    ensures CoordOff(d.dlon, d.dlat) in Mismatches(d, navId, found) <==> CoordExceeded(d)
    ensures ElevOff(d.delev) in Mismatches(d, navId, found) <==> Abs(d.delev) > ElevMEps
    ensures HeadingOff(d.dhdg) in Mismatches(d, navId, found) <==> Abs(d.dhdg) > HdgDegEps
    ensures NavIdOff(navId, found) in Mismatches(d, navId, found) <==> navId != found
    ensures |Mismatches(d, navId, found)| <= 4
  {
  }

  /** Line 91: the elevation written back, `int(round(elev * M_IN_FT))` feet. */
  function ElevationFeet(elevM: real): int {
    RoundHalfAway(elevM * 3.280839895)
  }

  /** The elevation written back, read again as feet and converted to metres, is within
      half a foot of the correction, well inside the elevation tolerance. */
  lemma ElevationReadsBack(elevM: real)
    ensures Abs(ElevationFeet(elevM) as real / FeetPerMetre - elevM) <= 0.5 / FeetPerMetre
    ensures Abs(ElevationFeet(elevM) as real / FeetPerMetre - elevM) <= ElevMEps
  {
    var n := ElevationFeet(elevM) as real;
    assert n / FeetPerMetre - elevM == (n - elevM * FeetPerMetre) / FeetPerMetre;
  }
}
