/**
 * Beam arcs against ship sectors: `normalize_angle`, the `is_between`
 * helper and `beam_overlaps_sector`. Angles are degrees, modelled as exact
 * reals; Python's `%` on a positive modulus is the floor modulus.
 */
module Angles {

  /** How many whole turns `x % 360` takes off `x`. */
  function Turns(x: real): int {
    (x / 360.0).Floor
  }

  /** `x % 360` in Python: the representative of `x` in `[0, 360)`. */
  function Mod360(x: real): (r: real)
    ensures 0.0 <= r < 360.0
    ensures x - r == 360.0 * Turns(x) as real
  {
    x - 360.0 * Turns(x) as real
  }

  /** `d` is a whole number of turns: `x` and `x + d` are the same direction. */
  predicate IsTurns(d: real) {
    d / 360.0 == (d / 360.0).Floor as real
  }

  lemma TurnsWitness(d: real, k: int)
    requires d == 360.0 * k as real
    ensures IsTurns(d)
  {
    assert d / 360.0 == k as real;
  }

  /** Two representatives in `[0, 360)` that differ by whole turns are equal. */
  lemma SameTurn(r1: real, r2: real, k: int)
    requires 0.0 <= r1 < 360.0 && 0.0 <= r2 < 360.0 && r1 - r2 == 360.0 * k as real
    ensures r1 == r2
  {
    assert -1 < k < 1;
  }

  /** Whole turns added or removed do not change the representative. */
  lemma Mod360Turns(x: real, y: real, k: int)
    requires x - y == 360.0 * k as real
    ensures Mod360(x) == Mod360(y)
  {
    var a, b := Mod360(x), Mod360(y);
    SameTurn(a, b, k - Turns(x) + Turns(y));
  }

  /** A value already in `[0, 360)` is its own representative. */
  lemma Mod360Small(x: real)
    requires 0.0 <= x < 360.0
    ensures Mod360(x) == x
  {
    SameTurn(Mod360(x), x, -Turns(x));
  }

  /** `normalize_angle`: `((angle + 180) % 360) - 180`. */
  function NormalizeAngle(angle: real): real
  {
    Mod360(angle + 180.0) - 180.0
  }

  /** The normalized angle lies in `[-180, 180)` and is the same direction. */
  lemma NormalizeSpec(angle: real)
    ensures -180.0 <= NormalizeAngle(angle) < 180.0
    ensures IsTurns(angle - NormalizeAngle(angle))
  {
    TurnsWitness(angle - NormalizeAngle(angle), Turns(angle + 180.0));
  }

  /** An angle already in `[-180, 180)` is left alone, so normalizing twice
      is normalizing once. */
  lemma NormalizeFixes(angle: real)
    requires -180.0 <= angle < 180.0
    ensures NormalizeAngle(angle) == angle
  {
    Mod360Small(angle + 180.0);
  }

  lemma NormalizeIdempotent(angle: real)
    ensures NormalizeAngle(NormalizeAngle(angle)) == NormalizeAngle(angle)
  {
    NormalizeSpec(angle);
    NormalizeFixes(NormalizeAngle(angle));
  }

  /** Normalizing depends only on the direction: a full turn changes nothing. */
  lemma NormalizePeriodic(angle: real)
    ensures NormalizeAngle(angle + 360.0) == NormalizeAngle(angle)
  {
    Mod360Turns(angle + 360.0 + 180.0, angle + 180.0, 1);
  }

  /** `is_between`: with all three normalized, `start <= angle <= end`, or,
      when the interval crosses the -180/180 seam, `angle >= start or angle <= end`. */
  predicate IsBetween(angle: real, start: real, end: real) {
    var a, s, e := NormalizeAngle(angle), NormalizeAngle(start), NormalizeAngle(end);
    if s <= e then s <= a <= e else a >= s || a <= e
  }

  /** The reference meaning: `angle` is on the arc swept counter-clockwise
      from `start` to `end`. */
  predicate OnArc(angle: real, start: real, end: real) {
    Mod360(angle - start) <= Mod360(end - start)
  }

  /** The representative of a difference of two normalized angles. */
  lemma DiffMod(x: real, y: real)
    requires -180.0 <= x < 180.0 && -180.0 <= y < 180.0
    ensures Mod360(x - y) == if x >= y then x - y else x - y + 360.0
  {
    if x >= y {
      Mod360Small(x - y);
    } else {
      Mod360Small(x - y + 360.0);
      Mod360Turns(x - y + 360.0, x - y, 1);
    }
  }

  /** Normalizing both ends does not change their difference's representative. */
  lemma DiffNormalized(x: real, y: real)
    ensures Mod360(NormalizeAngle(x) - NormalizeAngle(y)) == Mod360(x - y)
  {
    Mod360Turns(x - y, NormalizeAngle(x) - NormalizeAngle(y), Turns(x + 180.0) - Turns(y + 180.0));
  }

  /** `is_between` decides exactly the counter-clockwise arc test. */
  lemma IsBetweenOnArc(angle: real, start: real, end: real)
    ensures IsBetween(angle, start, end) <==> OnArc(angle, start, end)
  {
    var a, s, e := NormalizeAngle(angle), NormalizeAngle(start), NormalizeAngle(end);
    NormalizeSpec(angle);
    NormalizeSpec(start);
    NormalizeSpec(end);
    DiffNormalized(angle, start);
    DiffNormalized(end, start);
    DiffMod(a, s);
    DiffMod(e, s);
  }

  /** `beam_overlaps_sector`: either end of the beam arc, or its middle,
      lies in the sector. */
  predicate BeamOverlapsSector(barrelAngle: real, arcWidth: real, sectorStart: real, sectorEnd: real) {
    var ba := NormalizeAngle(barrelAngle);
    var halfWidth := arcWidth / 2.0;
    var beamStart := NormalizeAngle(ba - halfWidth);
    var beamEnd := NormalizeAngle(ba + halfWidth);
    var beamMid := NormalizeAngle(ba);
    IsBetween(beamStart, sectorStart, sectorEnd)
      || IsBetween(beamEnd, sectorStart, sectorEnd)
      || IsBetween(beamMid, sectorStart, sectorEnd)
  }

  /** On the arc is a property of the direction only. */
  lemma OnArcTurns(x: real, y: real, k: int, start: real, end: real)
    requires x - y == 360.0 * k as real
    ensures OnArc(x, start, end) <==> OnArc(y, start, end)
  {
    Mod360Turns(x - start, y - start, k);
  }

  /** Shifting a normalized centre by `h` is on the same arcs as shifting
      the raw centre. */
  lemma OnArcShifted(barrel: real, h: real, start: real, end: real)
    ensures OnArc(NormalizeAngle(NormalizeAngle(barrel) + h), start, end) <==> OnArc(barrel + h, start, end)
  {
    var ba := NormalizeAngle(barrel);
    var n := NormalizeAngle(ba + h);
    OnArcTurns(n, ba + h, -Turns(ba + h + 180.0), start, end);
    OnArcTurns(ba + h, barrel + h, -Turns(barrel + 180.0), start, end);
  }

  /** The beam overlaps the sector exactly when its start `barrel - w/2`,
      its end `barrel + w/2` or its centre `barrel` is on the sector's
      counter-clockwise arc from `sectorStart` to `sectorEnd`; no point
      strictly inside the beam's halves is looked at. */
  lemma BeamOverlapsSpec(barrelAngle: real, arcWidth: real, sectorStart: real, sectorEnd: real)
    ensures BeamOverlapsSector(barrelAngle, arcWidth, sectorStart, sectorEnd)
        <==> (OnArc(barrelAngle - arcWidth / 2.0, sectorStart, sectorEnd)
          || OnArc(barrelAngle + arcWidth / 2.0, sectorStart, sectorEnd)
          || OnArc(barrelAngle, sectorStart, sectorEnd))
  {
    var ba := NormalizeAngle(barrelAngle);
    var h := arcWidth / 2.0;
    IsBetweenOnArc(NormalizeAngle(ba - h), sectorStart, sectorEnd);
    IsBetweenOnArc(NormalizeAngle(ba + h), sectorStart, sectorEnd);
    IsBetweenOnArc(NormalizeAngle(ba), sectorStart, sectorEnd);
    OnArcShifted(barrelAngle, -h, sectorStart, sectorEnd);
    assert ba - h == ba + -h && barrelAngle - h == barrelAngle + -h;
    OnArcShifted(barrelAngle, h, sectorStart, sectorEnd);
    OnArcShifted(barrelAngle, 0.0, sectorStart, sectorEnd);
    assert ba + 0.0 == ba && barrelAngle + 0.0 == barrelAngle;
  }

  /** A beam aimed into the sector always overlaps it. */
  lemma AimedBeamOverlaps(barrelAngle: real, arcWidth: real, sectorStart: real, sectorEnd: real)
    requires OnArc(barrelAngle, sectorStart, sectorEnd)
    ensures BeamOverlapsSector(barrelAngle, arcWidth, sectorStart, sectorEnd)
  {
    BeamOverlapsSpec(barrelAngle, arcWidth, sectorStart, sectorEnd);
  }
}
