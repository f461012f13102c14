# Expanding-ring animation of the BC coast map

The script `BC_coast_animation.py` draws a basemap of Vancouver Island and
the BC Central Coast, then animates a red ring that grows around a
fictitious epicentre, frame by frame. This project models the part of the
script with its own logic, which has three pieces:

- the **radius schedule**: frame `f` of `N_FRAMES` gets radius
  `RADIUS_MIN + (RADIUS_MAX - RADIUS_MIN) * f / (N_FRAMES - 1)` km;
- the **ring swap** in `init` and `update`: the global `circle_artist`
  starts as nothing. Each call asks the geodesy routine for 100 points at
  `radius * 1000` metres around the epicentre and wraps them in a polygon.
  It removes the ring shown before, if there is one, and adds the new ring
  to the axes;
- the **animation driver**: `init`, then `update` for frames
  `0 .. N_FRAMES - 1` in order.

Modules:

- `Geodesy` (`geodesy.dfy`): positions and the geodesy collaborator as an
  abstract circle request (centre, metres, point count).
- `RadiusSchedule` (`radius_schedule.dfy`): the settings (epicentre, first
  and last radius, frame count), the script's constants and the radius
  function. Its lemmas cover the exact endpoints, monotonicity,
  strictness, bounds and the inverse (given the radius, the frame can be
  recovered).
- `Axes` (`axes.dfy`): the axes as an object holding the ordered list of
  displayed artists. Each artist carries a handle and a shape: a
  background layer or a ring polygon. `Add` is `ax.add_geometries`.
  `Remove` is `artist.remove()`. `DrawBasemap` adds the raster mesh,
  coastlines, borders, land, ocean and gridlines.
- `RingAnimation` (`ring_animation.dfy`): the ring polygon built from a
  circle request, and the `Animator` class, which holds `circleArtist` and
  provides `Init`, `Update` and the driver `Animate` (with its frame loop
  `PlayFrames`). `Script` runs the whole thing with the script's
  constants.

The class invariant `Animator.Valid` says that at most one ring is on the
axes. Before the first frame there is none. After any `Init` or `Update`
there is exactly one: the ring just built, under the held handle. Each call
states the whole new artist list: the old list, minus the previous ring if
there was one, plus the new ring. Equivalently, the new list is the old
background layers, in their order, followed by the new ring.

Edge cases of the script, as the model treats them:

- The script does not check for a frame count below 2 or a non-positive
  radius. With `N_FRAMES = 60` neither case arises. `Radius` requires at
  least two frames so that the divisor `N_FRAMES - 1` is non-zero (for one
  frame, line 120 would raise `ZeroDivisionError`). For the script's
  constants, `ScriptSchedule` proves that every radius lies in
  [1, 100] km.
- `update(frame)` does not check its frame argument. `Update` accepts any
  `nat`. Only the driver limits frames to `0 .. N_FRAMES - 1`.
- `if circle_artist:` tests whether an artist is held. A matplotlib artist
  object is always truthy, so the test reads as `circleArtist.Some?`.

## Model

| member | source | states |
|---|---|---|
| `RadiusSchedule.Radius` | BC_coast_animation.py:120 | frame 0 gets exactly `RADIUS_MIN`; frame `N_FRAMES - 1` gets exactly `RADIUS_MAX` (at least two frames, so the divisor is non-zero) |
| `RadiusSchedule.RadiusIsAffine` | BC_coast_animation.py:120 | the radius is the first radius plus a fixed per-frame step times the frame index |
| `RadiusSchedule.RadiusMonotone` | BC_coast_animation.py:120 | when `RADIUS_MIN <= RADIUS_MAX`, a later frame never has a smaller radius |
| `RadiusSchedule.RadiusStrictlyIncreasing` | BC_coast_animation.py:120 | of two distinct frames, the later one has a strictly larger radius if and only if `RADIUS_MIN < RADIUS_MAX` |
| `RadiusSchedule.RadiusInBounds` | BC_coast_animation.py:120 | every frame in `0 .. N_FRAMES - 1` has a radius in `[RADIUS_MIN, RADIUS_MAX]` |
| `RadiusSchedule.FrameOfRadius` | BC_coast_animation.py:120 | when the range is not empty, reading the frame back from its radius gives the frame: no two frames draw the same ring |
| `RadiusSchedule.Radii` | BC_coast_animation.py:131-133 | the radii of a run: one per frame, the first is `RADIUS_MIN`, the last is `RADIUS_MAX` |
| `RadiusSchedule.RadiiSorted` | BC_coast_animation.py:131-133 | the radii of a run are sorted and each lies in `[RADIUS_MIN, RADIUS_MAX]` |
| `RadiusSchedule.ScriptSchedule` | BC_coast_animation.py:19-28 | with the script's constants (60 frames, 1 to 100 km), frame 0 is 1 km, frame 59 is 100 km, frame 29 is 1 + 99 * 29 / 59 km, and every frame lies in [1, 100] km |
| `Axes.Without` | BC_coast_animation.py:111 | removing an artist keeps exactly the other artists (an artist is kept if and only if its handle differs) |
| `Axes.WithoutAppend` | BC_coast_animation.py:111 | removal works element by element over a concatenation, so the kept artists stay in their order |
| `Axes.RemoveRing` | BC_coast_animation.py:110-111 | removing the one displayed ring leaves the background layers as they were and no ring on the axes |
| `Axes.Layers` | BC_coast_animation.py:65-97 | the layers the basemap adds: one artist per layer kind, with consecutive handles |
| `Axes.AddLayers` | BC_coast_animation.py:65-97 | drawing layers adds no ring and appends exactly those layers to the background |
| `Axes.NoRingsIsBackground` | BC_coast_animation.py:110-111 | axes that show no ring, as after the old ring is removed, show only their background layers |
| `Axes.SoleRingLast` | BC_coast_animation.py:112-114 | when the ring just added is the only ring, everything displayed before it is background |
| `Axes.Axes.constructor` | BC_coast_animation.py:57-63 | new axes display nothing |
| `Axes.Axes.Add` | BC_coast_animation.py:112-114 | the shape is displayed on top of the existing artists, under a handle no earlier artist had |
| `Axes.Axes.Remove` | BC_coast_animation.py:111 | the artist with the handle leaves the axes and nothing else changes |
| `Axes.Axes.DrawBasemap` | BC_coast_animation.py:65-97 | raster mesh, coastlines, borders, land, ocean and gridlines are appended in that order |
| `RingAnimation.RingShape` | BC_coast_animation.py:108-109 | the ring is a polygon over the geodesy routine's points, requested around the given centre at the radius in metres (radius in km times 1000) and with 100 points |
| `RingAnimation.InitIsFirstFrame` | BC_coast_animation.py:107 | `init` draws the same ring as `update(0)` |
| `RingAnimation.Schedule` | BC_coast_animation.py:131-133 | the rings of a run: one ring polygon per frame, each around the epicentre, built from that frame's radius, so element `f` is the ring `update(f)` draws |
| `RingAnimation.ScheduleEnds` | BC_coast_animation.py:131-133 | a run's first ring is `init`'s ring and its last ring is at `RADIUS_MAX` |
| `RingAnimation.ScheduleExpands` | BC_coast_animation.py:131-133 | with a growing range, the requested ring size never shrinks from one frame to the next |
| `RingAnimation.Animator.constructor` | BC_coast_animation.py:101 | before any call, no ring is held and none is displayed |
| `RingAnimation.Animator.Show` | BC_coast_animation.py:109-114 | the previous ring is removed only if one is held; the new polygon is added; afterwards exactly that ring is displayed and held, and the axes show the old background followed by the new ring |
| `RingAnimation.Animator.Init` | BC_coast_animation.py:104-115 | the new artists are the old ones, minus the held ring, plus the ring at `RADIUS_MIN`; equivalently, the old background followed by the new ring; exactly one ring is displayed; the returned handle is the held one |
| `RingAnimation.Animator.Update` | BC_coast_animation.py:118-128 | the same swap as `Init`, with the frame's scheduled radius |
| `RingAnimation.Animator.Animate` | BC_coast_animation.py:131-133 | one `init` then frames `0 .. N_FRAMES - 1` in order: the rings drawn are `init`'s ring followed by the run's schedule; the axes end as the old background followed by the one ring at `RADIUS_MAX` |
| `RingAnimation.Animator.PlayFrames` | BC_coast_animation.py:131-133 | frames `0 .. N_FRAMES - 1` in order, each swapped in: the rings drawn are the run's schedule; the axes end as the old background followed by the ring at `RADIUS_MAX` |
| `RingAnimation.BuildMap` | BC_coast_animation.py:54-97 | the figure before the animation holds exactly the six basemap layers and no ring |
| `RingAnimation.Script` | BC_coast_animation.py:54-133 | the whole script: the rings drawn are the initial one and the 60 scheduled ones, and the axes end as the six basemap layers followed by the ring at 100 km |

## Left out

- Raster loading with rioxarray and its placeholder fallback (lines 41-48). This is file I/O. The fallback branch never binds `da`, so line 65 would fail in that case anyway. The mesh is modelled only as a background layer.
- The colormap, figure size, Lambert projection, map extent, colour limits, colorbar, feature styling, gridline labels and title (lines 50-97). These are rendering settings with no effect on which artists are displayed. The colorbar and the title are not artists on the map axes in this model.
- The ellipsoidal geometry of `Geodesic.circle` and the shapely polygon construction. These are foreign libraries. A ring is known only by its request: centre, metres and point count.
- `FuncAnimation` scheduling beyond the one run modelled by `Animate`: blitting, extra redraws that call `init` again, and the `repeat` flag. `Init` and `Update` keep the invariant from any valid state, so extra calls are covered by their contracts, but the exact call pattern of the library is not modelled.
- GIF encoding with `PillowWriter` at 15 frames per second (lines 135-136). This is file output.
- The script's other constants (`OUTPUT_GIF`, `FPS`, `FIGSIZE`, `TOPO_FILE`, region bounds, circle styling) are not part of this model; they only feed rendering or output.
- Floating-point rounding of the radius formula. The model uses exact real arithmetic. `RADIUS_MIN` and `RADIUS_MAX` are integers in the script, so `init` passes an integer metre value while `update` passes a float, but both denote the same number.
- Removing an artist that is not on the axes: in matplotlib this is an error. `Axes.Axes.Remove` requires the artist to be attached, and its only caller always holds an attached ring.
