/** The expanding-ring animation: each frame asks the geodesy routine for a
    circle around the epicentre and swaps it in for the ring shown before. */
module RingAnimation {
  import opened Geodesy
  import opened RadiusSchedule
  import opened Axes

  datatype Option<T> = None | Some(value: T)

  /** Both the initial frame and every later frame sample the circle at 100 points. */
  const RING_POINTS: nat := 100
  const METRES_PER_KM: real := 1000.0

  /** The ring polygon of a radius in kilometres around `center`. */
  function RingShape(center: Coord, radiusKm: real): (g: Shape)
    ensures g.Polygon?
    ensures g.points.center == center && g.points.count == RING_POINTS
    ensures g.points.metres / METRES_PER_KM == radiusKm
  {
    Polygon(GeodesicCircle(center, radiusKm * METRES_PER_KM, RING_POINTS))
  }

  /** The ring the initial frame draws, at the first radius. */
  function InitShape(s: Settings): Shape {
    RingShape(s.center, s.radiusMin)
  }

  /** The ring frame `frame` draws. */
  function FrameShape(s: Settings, frame: nat): Shape
    requires s.frames >= 2
  {
    RingShape(s.center, Radius(s, frame))
  }

  /** The initial frame draws the same ring as frame 0 does. */
  lemma InitIsFirstFrame(s: Settings)
    requires s.frames >= 2
    ensures InitShape(s) == FrameShape(s, 0)
  {
  }

  /** The rings of frames 0 up to the frame count less one, in order: one
      ring for each radius of the run. */
  function Schedule(s: Settings): (gs: seq<Shape>)
    requires s.frames >= 2
    ensures |gs| == s.frames
    ensures forall f :: 0 <= f < |gs| ==> gs[f].Polygon? && gs[f].points.center == s.center
    ensures forall f: nat :: f < |gs| ==> gs[f] == FrameShape(s, f)
  {
    var rs := Radii(s);
    seq(s.frames, f requires 0 <= f < s.frames => RingShape(s.center, rs[f]))
  }

  /** A run starts with the ring `init` draws and ends with the ring at the
      last radius. */
  lemma ScheduleEnds(s: Settings)
    requires s.frames >= 2
    ensures Schedule(s)[0] == InitShape(s)
    ensures Schedule(s)[s.frames - 1] == RingShape(s.center, s.radiusMax)
  {
  }

  /** With a growing range the rings of a run never shrink from one frame to
      the next. */
  lemma ScheduleExpands(s: Settings)
    requires s.frames >= 2
    ensures s.radiusMin <= s.radiusMax ==>
      forall i, j :: 0 <= i <= j < s.frames ==>
        Schedule(s)[i].points.metres <= Schedule(s)[j].points.metres
  {
    var gs, rs := Schedule(s), Radii(s);
    if s.radiusMin <= s.radiusMax {
      RadiiSorted(s);
      forall i, j | 0 <= i <= j < s.frames ensures gs[i].points.metres <= gs[j].points.metres {
        assert rs[i] <= rs[j];
        assert gs[i].points.metres == rs[i] * METRES_PER_KM;
        assert gs[j].points.metres == rs[j] * METRES_PER_KM;
      }
    }
  }

  /** A run that has drawn frames below `frame` and then draws `frame`
      has drawn the frames up to and including it. */
  lemma SchedulePrefix(s: Settings, frame: nat)
    requires s.frames >= 2 && frame < s.frames
    ensures Schedule(s)[..frame + 1] == Schedule(s)[..frame] + [FrameShape(s, frame)]
  {
  }

  /** The artists left once the current ring, if there is one, is removed. */
  function Detached(s: seq<Artist>, current: Option<Handle>): seq<Artist> {
    match current
    case None => s
    case Some(h) => Without(s, h)
  }

  /** The animation state: the axes it draws on and the handle of the ring it
      shows, none before the first frame. */
  class Animator {
    const ax: Axes
    const settings: Settings
    var circleArtist: Option<Handle>
    /** Every ring shown so far, in the order shown. */
    ghost var drawn: seq<Shape>

    /** At most one ring is on the axes: none before the first frame, and
        afterwards exactly the last one drawn, under the held handle. */
    ghost predicate Valid()
      reads this, ax
    {
      && ax.Valid()
      && settings.frames >= 2
      && (circleArtist.None? ==> Rings(ax.artists) == [])
      && (circleArtist.Some? ==>
            drawn != [] && Rings(ax.artists) == [Artist(circleArtist.value, drawn[|drawn| - 1])])
    }

    constructor (ax: Axes, settings: Settings)
      requires ax.Valid() && Rings(ax.artists) == []
      requires settings.frames >= 2
      ensures Valid()
      ensures this.ax == ax && this.settings == settings
      ensures circleArtist == None && drawn == []
    {
      this.ax := ax;
      this.settings := settings;
      circleArtist := None;
      drawn := [];
    }

    /** Wraps the points in a polygon, removes the ring shown so far if
        there is one, and shows the new polygon instead. */
    method Show(points: CirclePoints) returns (h: Handle)
      requires Valid()
      modifies this, ax
      ensures Valid()
      ensures h == old(ax.nextHandle) && circleArtist == Some(h)
      ensures ax.artists == Detached(old(ax.artists), old(circleArtist)) + [Artist(h, Polygon(points))]
      ensures ax.artists == Background(old(ax.artists)) + [Artist(h, Polygon(points))]
      ensures Rings(ax.artists) == [Artist(h, Polygon(points))]
      ensures Background(ax.artists) == Background(old(ax.artists))
      ensures drawn == old(drawn) + [Polygon(points)]
    {
      var polygon := Polygon(points);
      ghost var kept := ax.artists;
      if circleArtist.Some? {
        RemoveRing(ax.artists, Artist(circleArtist.value, drawn[|drawn| - 1]));
        ax.Remove(circleArtist.value);
        kept := ax.artists;
      }
      assert Rings(kept) == [] && Background(kept) == Background(old(ax.artists));
      h := ax.Add(polygon);
      SelectAppend(kept, [Artist(h, polygon)], true);
      SelectAppend(kept, [Artist(h, polygon)], false);
      circleArtist := Some(h);
      drawn := drawn + [polygon];
      SoleRingLast(kept, Artist(h, polygon));
    }

    /** The initial frame: the ring at the first radius. */
    method Init() returns (h: Handle)
      requires Valid()
      modifies this, ax
      ensures Valid()
      ensures h == old(ax.nextHandle) && circleArtist == Some(h)
      ensures ax.artists == Detached(old(ax.artists), old(circleArtist)) + [Artist(h, InitShape(settings))]
      ensures ax.artists == Background(old(ax.artists)) + [Artist(h, InitShape(settings))]
      ensures Rings(ax.artists) == [Artist(h, InitShape(settings))]
      ensures Background(ax.artists) == Background(old(ax.artists))
      ensures drawn == old(drawn) + [InitShape(settings)]
    {
      var radius := settings.radiusMin;
      var points := GeodesicCircle(settings.center, radius * METRES_PER_KM, RING_POINTS);
      h := Show(points);
    }

    /** Frame `frame`: the ring at the scheduled radius. */
    method Update(frame: nat) returns (h: Handle)
      requires Valid()
      modifies this, ax
      ensures Valid()
      ensures h == old(ax.nextHandle) && circleArtist == Some(h)
      ensures ax.artists == Detached(old(ax.artists), old(circleArtist)) + [Artist(h, FrameShape(settings, frame))]
      ensures ax.artists == Background(old(ax.artists)) + [Artist(h, FrameShape(settings, frame))]
      ensures Rings(ax.artists) == [Artist(h, FrameShape(settings, frame))]
      ensures Background(ax.artists) == Background(old(ax.artists))
      ensures drawn == old(drawn) + [FrameShape(settings, frame)]
    {
      var radius := Radius(settings, frame);
      var points := GeodesicCircle(settings.center, radius * METRES_PER_KM, RING_POINTS);
      h := Show(points);
    }

    /** The animation driver: the initial frame, then frames 0 up to the
        frame count less one in increasing order, without repeating. */
    method Animate()
      requires Valid()
      modifies this, ax
      ensures Valid()
      ensures drawn == old(drawn) + [InitShape(settings)] + Schedule(settings)
      ensures Background(ax.artists) == Background(old(ax.artists))
      ensures circleArtist.Some?
      ensures Rings(ax.artists) == [Artist(circleArtist.value, RingShape(settings.center, settings.radiusMax))]
      ensures ax.artists == Background(old(ax.artists)) + [Artist(circleArtist.value, RingShape(settings.center, settings.radiusMax))]
    {
      var _ := Init();
      PlayFrames();
    }

    /** The frames of a run, 0 up to the frame count less one in increasing
        order, each one swapped in for the ring shown before it. */
    method PlayFrames()
      requires Valid() && circleArtist.Some?
      modifies this, ax
      ensures Valid()
      ensures drawn == old(drawn) + Schedule(settings)
      ensures Background(ax.artists) == Background(old(ax.artists))
      ensures circleArtist.Some?
      ensures Rings(ax.artists) == [Artist(circleArtist.value, RingShape(settings.center, settings.radiusMax))]
      ensures ax.artists == Background(old(ax.artists)) + [Artist(circleArtist.value, RingShape(settings.center, settings.radiusMax))]
    {
      ghost var base := Background(ax.artists);
      ghost var before := drawn;
      var frame := 0;
      while frame < settings.frames
        invariant 0 <= frame <= settings.frames
        invariant Valid() && circleArtist.Some?
        invariant drawn == before + Schedule(settings)[..frame]
        invariant Background(ax.artists) == base
        invariant frame > 0 ==> ax.artists == base + [Artist(circleArtist.value, drawn[|drawn| - 1])]
      {
        var _ := Update(frame);
        SchedulePrefix(settings, frame);
        frame := frame + 1;
      }
      assert Schedule(settings)[..frame] == Schedule(settings);
      ScheduleEnds(settings);
    }
  }

  /** The figure before the animation: fresh axes with the basemap drawn. */
  method BuildMap() returns (ax: Axes)
    ensures fresh(ax) && ax.Valid()
    ensures ax.artists == Layers(BASEMAP, 0)
    ensures Background(ax.artists) == Layers(BASEMAP, 0) && Rings(ax.artists) == []
  {
    ax := new Axes();
    ax.DrawBasemap();
    AddLayers([], BASEMAP, 0);
    assert ax.artists == [] + Layers(BASEMAP, 0);
  }

  /** The script end to end: the basemap, then the whole animation with the
      script's settings on top of it. */
  method Script() returns (ax: Axes, anim: Animator)
    ensures anim.ax == ax && anim.Valid()
    ensures Background(ax.artists) == Layers(BASEMAP, 0)
    ensures anim.drawn == [InitShape(SCRIPT_SETTINGS)] + Schedule(SCRIPT_SETTINGS)
    ensures anim.circleArtist.Some?
    ensures Rings(ax.artists) == [Artist(anim.circleArtist.value, RingShape(EPICENTER, RADIUS_MAX))]
    ensures ax.artists == Layers(BASEMAP, 0) + [Artist(anim.circleArtist.value, RingShape(EPICENTER, RADIUS_MAX))]
  {
    ax := BuildMap();
    assert SCRIPT_SETTINGS.frames == 60;
    anim := new Animator(ax, SCRIPT_SETTINGS);
    anim.Animate();
  }
}
