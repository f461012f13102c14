/** The frame-to-radius schedule of the expanding ring: a linear
    interpolation from the first radius to the last one over the frames. */
module RadiusSchedule {
  import opened Geodesy

  /** The fixed parameters of the animation: the epicentre, the first and
      last ring radius in kilometres, and the number of frames. */
  datatype Settings = Settings(center: Coord, radiusMin: real, radiusMax: real, frames: nat)

  /** The fictitious epicentre off the west coast of Vancouver Island. */
  const EPICENTER: Coord := Coord(-126.5, 49.7)
  const RADIUS_MIN: real := 1.0
  const RADIUS_MAX: real := 100.0
  const N_FRAMES: nat := 60

  /** The settings the script runs with. */
  const SCRIPT_SETTINGS: Settings := Settings(EPICENTER, RADIUS_MIN, RADIUS_MAX, N_FRAMES)

  /** The radius in kilometres drawn at `frame`: the first radius plus the
      frame's share of the whole growth, the divisor being the last frame
      index (so at least two frames are needed). */
  function Radius(s: Settings, frame: nat): (r: real)
    requires s.frames >= 2
    ensures frame == 0 ==> r == s.radiusMin
    ensures frame == s.frames - 1 ==> r == s.radiusMax
  {
    s.radiusMin + (s.radiusMax - s.radiusMin) * (frame as real) / ((s.frames - 1) as real)
  }

  /** The radius grows by the same step from each frame to the next. */
  function Step(s: Settings): real
    requires s.frames >= 2
  {
    (s.radiusMax - s.radiusMin) / ((s.frames - 1) as real)
  }

  /** The radius is the first radius plus one step per frame. */
  lemma RadiusIsAffine(s: Settings, frame: nat)
    requires s.frames >= 2
    ensures Radius(s, frame) == s.radiusMin + Step(s) * (frame as real)
  {
  }

  /** With a growing range, a later frame never has a smaller ring. */
  lemma RadiusMonotone(s: Settings, f1: nat, f2: nat)
    requires s.frames >= 2
    requires s.radiusMin <= s.radiusMax
    requires f1 <= f2
    ensures Radius(s, f1) <= Radius(s, f2)
  {
    RadiusIsAffine(s, f1);
    RadiusIsAffine(s, f2);
    var d, gap := Step(s), (f2 - f1) as real;
    assert d >= 0.0 && gap >= 0.0;
    assert Radius(s, f2) - Radius(s, f1) == d * gap;
    assert d * gap >= 0.0;
  }

  /** Of two distinct frames, the later one has a strictly larger ring
      exactly when the last radius exceeds the first. */
  lemma RadiusStrictlyIncreasing(s: Settings, f1: nat, f2: nat)
    requires s.frames >= 2
    requires f1 < f2
    ensures Radius(s, f1) < Radius(s, f2) <==> s.radiusMin < s.radiusMax
  {
    RadiusIsAffine(s, f1);
    RadiusIsAffine(s, f2);
    var gap := (f2 - f1) as real;
    assert Radius(s, f2) - Radius(s, f1) == Step(s) * gap;
    assert Step(s) > 0.0 <==> s.radiusMin < s.radiusMax;
    assert gap > 0.0;
  }

  /** Every frame the animation visits, 0 up to the frame count less one,
      draws a radius between the first and the last. */
  lemma RadiusInBounds(s: Settings, frame: nat)
    requires s.frames >= 2
    requires s.radiusMin <= s.radiusMax
    requires frame < s.frames
    ensures s.radiusMin <= Radius(s, frame) <= s.radiusMax
  {
    RadiusMonotone(s, 0, frame);
    RadiusMonotone(s, frame, s.frames - 1);
  }

  /** The frame whose radius is `r`, read back from the schedule: the inverse
      of the interpolation when the range is not empty. */
  function FrameOf(s: Settings, r: real): real
    requires s.frames >= 2
    requires s.radiusMin != s.radiusMax
  {
    (r - s.radiusMin) * ((s.frames - 1) as real) / (s.radiusMax - s.radiusMin)
  }

  /** The frame can be recovered from the radius it draws, so no two frames
      draw the same ring unless the range is empty. */
  lemma FrameOfRadius(s: Settings, frame: nat)
    requires s.frames >= 2
    requires s.radiusMin != s.radiusMax
    ensures FrameOf(s, Radius(s, frame)) == frame as real
  {
  }

  /** The radii of all frames in the order the animation visits them. */
  function Radii(s: Settings): (rs: seq<real>)
    requires s.frames >= 2
    ensures |rs| == s.frames
    ensures rs[0] == s.radiusMin && rs[|rs| - 1] == s.radiusMax
  {
    seq(s.frames, f requires 0 <= f => Radius(s, f))
  }

  /** With a growing range the radii of the whole run are sorted and lie in
      the range. */
  lemma RadiiSorted(s: Settings)
    requires s.frames >= 2
    requires s.radiusMin <= s.radiusMax
    ensures forall i, j :: 0 <= i <= j < |Radii(s)| ==> Radii(s)[i] <= Radii(s)[j]
    ensures forall i :: 0 <= i < |Radii(s)| ==> s.radiusMin <= Radii(s)[i] <= s.radiusMax
  {
    var rs := Radii(s);
    forall i, j | 0 <= i <= j < |rs| ensures rs[i] <= rs[j] {
      RadiusMonotone(s, i, j);
    }
    forall i | 0 <= i < |rs| ensures s.radiusMin <= rs[i] <= s.radiusMax {
      RadiusInBounds(s, i);
    }
  }

  /** The script's own settings: a valid frame count, rings from 1 km to
      100 km, every one of positive size, and frame 29 in between. */
  lemma ScriptSchedule()
    ensures SCRIPT_SETTINGS.frames >= 2
    ensures Radius(SCRIPT_SETTINGS, 0) == 1.0
    ensures Radius(SCRIPT_SETTINGS, N_FRAMES - 1) == 100.0
    ensures Radius(SCRIPT_SETTINGS, 29) == 1.0 + 99.0 * 29.0 / 59.0
    ensures forall f: nat :: f < N_FRAMES ==> 1.0 <= Radius(SCRIPT_SETTINGS, f) <= 100.0
  {
  }
}
