/** The map axes as far as the animation sees them: an ordered list of
    displayed artists, each reachable through the handle it was added with. */
module Axes {
  import opened Geodesy

  /** The static layers drawn before the animation starts. */
  datatype LayerKind = Mesh | Coastline | Borders | Land | Ocean | Gridlines

  /** A displayed geometry: a background layer or a ring polygon. */
  datatype Shape = Layer(kind: LayerKind) | Polygon(points: CirclePoints)

  type Handle = nat

  /** One displayed artist and the handle that removes it. */
  datatype Artist = Artist(handle: Handle, shape: Shape)

  /** The basemap layers, in the order the script adds them. */
  const BASEMAP: seq<LayerKind> := [Mesh, Coastline, Borders, Land, Ocean, Gridlines]

  ghost predicate HandlesDistinct(s: seq<Artist>) {
    forall i, j :: 0 <= i < j < |s| ==> s[i].handle != s[j].handle
  }

  /** The artists of `s` except the one added under `h`, in their order. */
  function Without(s: seq<Artist>, h: Handle): (r: seq<Artist>)
    ensures |r| <= |s|
    ensures forall a :: a in r <==> a in s && a.handle != h
  {
    if s == [] then []
    else if s[0].handle == h then Without(s[1..], h)
    else [s[0]] + Without(s[1..], h)
  }

  /** The artists of `s` that are rings (`ring`) or background layers
      (`!ring`), in their order. */
  function Select(s: seq<Artist>, ring: bool): (r: seq<Artist>)
    ensures |r| <= |s|
    ensures forall a :: a in r <==> a in s && a.shape.Polygon? == ring
  {
    if s == [] then []
    else if s[0].shape.Polygon? == ring then [s[0]] + Select(s[1..], ring)
    else Select(s[1..], ring)
  }

  function Rings(s: seq<Artist>): seq<Artist> { Select(s, true) }

  function Background(s: seq<Artist>): seq<Artist> { Select(s, false) }

  /** Removal works element by element, so the artists it keeps stay in
      their order. */
  lemma {:induction false} WithoutAppend(s: seq<Artist>, t: seq<Artist>, h: Handle)
    ensures Without(s + t, h) == Without(s, h) + Without(t, h)
  {
    if s != [] {
      assert (s + t)[0] == s[0];
      assert (s + t)[1..] == s[1..] + t;
      WithoutAppend(s[1..], t, h);
    } else {
      assert s + t == t;
    }
  }

  /** Removing a handle no artist carries changes nothing. */
  lemma {:induction false} WithoutAbsent(s: seq<Artist>, h: Handle)
    requires forall a :: a in s ==> a.handle != h
    ensures Without(s, h) == s
  {
    if s != [] {
      assert s[0] in s;
      assert forall a :: a in s[1..] ==> a in s;
      WithoutAbsent(s[1..], h);
      assert s == [s[0]] + s[1..];
    }
  }

  /** Removal keeps the handles distinct. */
  lemma {:induction false} WithoutDistinct(s: seq<Artist>, h: Handle)
    requires HandlesDistinct(s)
    ensures HandlesDistinct(Without(s, h))
  {
    if s != [] {
      var t := s[1..];
      assert HandlesDistinct(t) by {
        forall i, j | 0 <= i < j < |t| ensures t[i].handle != t[j].handle {
          assert t[i] == s[i + 1] && t[j] == s[j + 1];
        }
      }
      WithoutDistinct(t, h);
      if s[0].handle != h {
        var w := Without(t, h);
        forall a | a in w ensures a.handle != s[0].handle {
          assert a in t;
          var k :| 0 <= k < |t| && t[k] == a;
          assert s[k + 1] == a;
        }
        var r := [s[0]] + w;
        forall i, j | 0 <= i < j < |r| ensures r[i].handle != r[j].handle {
          if i == 0 {
            assert r[j] == w[j - 1] && r[j] in w;
          } else {
            assert r[i] == w[i - 1] && r[j] == w[j - 1];
          }
        }
      }
    }
  }

  /** Selecting by kind distributes over concatenation. */
  lemma {:induction false} SelectAppend(s: seq<Artist>, t: seq<Artist>, ring: bool)
    ensures Select(s + t, ring) == Select(s, ring) + Select(t, ring)
  {
    if s != [] {
      assert (s + t)[0] == s[0];
      assert (s + t)[1..] == s[1..] + t;
      SelectAppend(s[1..], t, ring);
    } else {
      assert s + t == t;
    }
  }

  /** Removing an artist and then selecting by kind is selecting and then
      removing. */
  lemma {:induction false} SelectWithout(s: seq<Artist>, h: Handle, ring: bool)
    ensures Select(Without(s, h), ring) == Without(Select(s, ring), h)
  {
    if s != [] {
      SelectWithout(s[1..], h, ring);
      if s[0].handle != h {
        assert ([s[0]] + Without(s[1..], h))[1..] == Without(s[1..], h);
      }
      if s[0].shape.Polygon? == ring {
        assert ([s[0]] + Select(s[1..], ring))[1..] == Select(s[1..], ring);
      }
    }
  }

  /** Removing the artist added under `h`, when that artist is a ring and
      handles are distinct, leaves the background layers as they were and
      takes exactly that artist off the rings. */
  lemma RemoveRing(s: seq<Artist>, x: Artist)
    requires HandlesDistinct(s)
    requires Rings(s) == [x]
    ensures Background(Without(s, x.handle)) == Background(s)
    ensures Rings(Without(s, x.handle)) == []
  {
    var h := x.handle;
    assert x in Rings(s);
    forall a | a in Background(s) ensures a.handle != h {
      var i :| 0 <= i < |s| && s[i] == a;
      var j :| 0 <= j < |s| && s[j] == x;
      assert i != j;
    }
    SelectWithout(s, h, false);
    WithoutAbsent(Background(s), h);
    SelectWithout(s, h, true);
    assert Without([x], h) == [];
  }

  /** A list without rings is its own background. */
  lemma {:induction false} NoRingsIsBackground(s: seq<Artist>)
    requires Rings(s) == []
    ensures s == Background(s)
  {
    if s != [] {
      assert s[0] !in Rings(s);
      NoRingsIsBackground(s[1..]);
      assert s == [s[0]] + s[1..];
    }
  }

  /** When the ring `x` shown last is the only ring, everything before it is
      background. */
  lemma SoleRingLast(d: seq<Artist>, x: Artist)
    requires x.shape.Polygon?
    requires Rings(d + [x]) == [x]
    ensures d == Background(d + [x])
  {
    SelectAppend(d, [x], true);
    SelectAppend(d, [x], false);
    assert Select([x], true) == [x] && Select([x], false) == [];
    NoRingsIsBackground(d);
  }

  /** The artists that adding the layers `kinds` one after another creates,
      when the first of them gets handle `first`. */
  function Layers(kinds: seq<LayerKind>, first: Handle): (r: seq<Artist>)
    ensures |r| == |kinds|
    ensures forall i :: 0 <= i < |r| ==> r[i] == Artist(first + i, Layer(kinds[i]))
  {
    if kinds == [] then [] else [Artist(first, Layer(kinds[0]))] + Layers(kinds[1..], first + 1)
  }

  /** Drawing layers adds no ring and appends exactly those layers to the
      background. */
  lemma AddLayers(s: seq<Artist>, kinds: seq<LayerKind>, first: Handle)
    ensures Rings(s + Layers(kinds, first)) == Rings(s)
    ensures Background(s + Layers(kinds, first)) == Background(s) + Layers(kinds, first)
  {
    var ls := Layers(kinds, first);
    SelectAppend(s, ls, true);
    SelectAppend(s, ls, false);
    LayersOnly(ls);
  }

  /** A list of layers is its own background and holds no ring. */
  lemma {:induction false} LayersOnly(s: seq<Artist>)
    requires forall a :: a in s ==> a.shape.Layer?
    ensures Select(s, true) == [] && Select(s, false) == s
  {
    if s != [] {
      assert s[0] in s;
      assert forall a :: a in s[1..] ==> a in s;
      LayersOnly(s[1..]);
      assert s == [s[0]] + s[1..];
    }
  }

  /** The axes of the figure. Artists are kept in the order they were added;
      every artist gets a handle no earlier artist had. */
  class Axes {
    var artists: seq<Artist>
    var nextHandle: Handle

    ghost predicate Valid()
      reads this
    {
      HandlesDistinct(artists) && forall a :: a in artists ==> a.handle < nextHandle
    }

    constructor ()
      ensures Valid()
      ensures artists == [] && nextHandle == 0
    {
      artists := [];
      nextHandle := 0;
    }

    /** Displays `shape` on top of what is there and returns its handle. */
    method Add(shape: Shape) returns (h: Handle)
      requires Valid()
      modifies this
      ensures Valid()
      ensures h == old(nextHandle) && nextHandle == h + 1
      ensures artists == old(artists) + [Artist(h, shape)]
      ensures forall a :: a in old(artists) ==> a.handle != h
    {
      h := nextHandle;
      artists := artists + [Artist(h, shape)];
      nextHandle := nextHandle + 1;
    }

    /** Takes the artist added under `h` off the axes. */
    method Remove(h: Handle)
      requires Valid()
      requires exists a :: a in artists && a.handle == h
      modifies this
      ensures Valid()
      ensures artists == Without(old(artists), h)
      ensures nextHandle == old(nextHandle)
    {
      WithoutDistinct(artists, h);
      artists := Without(artists, h);
    }

    /** Draws the basemap: raster mesh, coastlines, borders, land, ocean and
        gridlines, in that order, on top of what is there. */
    method DrawBasemap()
      requires Valid()
      modifies this
      ensures Valid()
      ensures artists == old(artists) + Layers(BASEMAP, old(nextHandle))
    {
      var h0 := Add(Layer(Mesh));
      var h1 := Add(Layer(Coastline));
      var h2 := Add(Layer(Borders));
      var h3 := Add(Layer(Land));
      var h4 := Add(Layer(Ocean));
      var h5 := Add(Layer(Gridlines));
      assert Layers(BASEMAP, h0) == [Artist(h0, Layer(Mesh)), Artist(h1, Layer(Coastline)),
        Artist(h2, Layer(Borders)), Artist(h3, Layer(Land)), Artist(h4, Layer(Ocean)),
        Artist(h5, Layer(Gridlines))];
    }
  }
}
