/** The route layers of the map component (internal/ui/static/js/map/flight-map.mjs): which polylines
    are on the map, and which list they can be taken off through.  The map library refuses a vertex
    without a finite latitude: Leaflet 1.9.4, pinned by the page that shows the map, throws. */
module RouteLayers {
  import opened Sequences
  import opened Routes

  /** A polyline with the identity the map library stamps on it. */
  datatype Polyline = Polyline(stamp: nat, path: seq<Vertex>)

  function Paths(layers: seq<Polyline>): (r: seq<seq<Vertex>>)
    ensures |r| == |layers|
    ensures forall i :: 0 <= i < |r| ==> r[i] == layers[i].path
  {
    seq(|layers|, i requires 0 <= i < |layers| => layers[i].path)
  }

  /** The two-point paths addRoute draws: one for each pair of neighbours on one side of the
      antimeridian. */
  function Pairs(points: seq<Point>): seq<seq<Vertex>> {
    var n := |points|;
    if n < 2 then []
    else
      Pairs(points[..n - 1]) +
      if Crosses(points[n - 2], points[n - 1]) then [] else [[AsVertex(points[n - 2]), AsVertex(points[n - 1])]]
  }

  /** As many anonymous polylines as there are neighbours minus crossings. */
  lemma {:induction false} PairsDrawn(points: seq<Point>)
    requires points != []
    ensures |Pairs(points)| + Crossings(points) == |points| - 1
  {
    if |points| >= 2 {
      PairsDrawn(points[..|points| - 1]);
    }
  }

  /** The neighbours that are not more than half a turn apart, in order. */
  function Joins(points: seq<Point>): (r: seq<nat>)
    ensures forall i :: 0 <= i < |r| ==> r[i] + 1 < |points|
  {
    var n := |points|;
    if n < 2 then []
    else if HalfTurn(points, n - 2) then Joins(points[..n - 1])
    else Joins(points[..n - 1]) + [n - 2]
  }

  lemma {:induction false} JoinsMean(points: seq<Point>)
    ensures Increasing(Joins(points))
    ensures forall k: nat :: k in Joins(points) <==> k + 1 < |points| && !HalfTurn(points, k)
  {
    if |points| >= 2 {
      JoinsMean(points[..|points| - 1]);
      HalfTurnInit(points, points[..|points| - 1]);
    }
  }

  /** A straight line from one route point to the next. */
  predicate Line(path: seq<Vertex>, a: Point, b: Point) {
    path == [Vertex(Finite(a.lat), a.lng, a.altitude), Vertex(Finite(b.lat), b.lng, b.altitude)]
  }

  ghost predicate LinesAt(paths: seq<seq<Vertex>>, points: seq<Point>, at: seq<nat>) {
    |paths| == |at| && forall i :: 0 <= i < |at| ==> at[i] + 1 < |points| && Line(paths[i], points[at[i]], points[at[i] + 1])
  }

  lemma LinesSnoc(paths: seq<seq<Vertex>>, points: seq<Point>, at: seq<nat>, last: Point)
    requires LinesAt(paths, points, at)
    ensures LinesAt(paths, points + [last], at)
    ensures points != [] ==>
              LinesAt(paths + [[AsVertex(points[|points| - 1]), AsVertex(last)]], points + [last], at + [|points| - 1])
  {
  }

  /** Each polyline of addRoute joins two neighbouring points, and each pair that does not cross has one, in
      the order of the route. */
  lemma {:induction false} PairsJoinNeighbours(points: seq<Point>)
    ensures LinesAt(Pairs(points), points, Joins(points))
  {
    if |points| >= 2 {
      var n := |points|;
      PairsJoinNeighbours(points[..n - 1]);
      LinesSnoc(Pairs(points[..n - 1]), points[..n - 1], Joins(points[..n - 1]), points[n - 1]);
      assert points == points[..n - 1] + [points[n - 1]];
    }
  }

  predicate IsLongest(segments: seq<seq<Vertex>>, longest: seq<Vertex>) {
    if segments == [] then longest == []
    else longest in segments && forall s :: s in segments ==> |s| <= |longest|
  }

  method GetLongestRouteSegment(segments: seq<seq<Vertex>>) returns (longest: seq<Vertex>)
    requires forall s :: s in segments ==> s != []
    ensures IsLongest(segments, longest)
  {
    longest := [];
    for i := 0 to |segments|
      invariant IsLongest(segments[..i], longest)
    {
      assert segments[..i + 1] == segments[..i] + [segments[i]];
      if |segments[i]| > |longest| {
        longest := segments[i];
      }
    }
    assert segments[..|segments|] == segments;
  }

  predicate Drawable(path: seq<Vertex>) {
    forall k :: 0 <= k < |path| ==> path[k].lat.Finite?
  }

  predicate AllDrawable(paths: seq<seq<Vertex>>) {
    forall k :: 0 <= k < |paths| ==> Drawable(paths[k])
  }

  /** The first `n` paths, and no more of them, are drawn when drawing stops at the first that cannot be. */
  predicate DrawnUntil(paths: seq<seq<Vertex>>, n: nat) {
    && n <= |paths|
    && (forall k :: 0 <= k < n ==> Drawable(paths[k]))
    && (n < |paths| ==> !Drawable(paths[n]))
  }

  /** Two neighbours lie on the antimeridian with opposite signs. */
  predicate JumpsOnAntimeridian(points: seq<Point>) {
    exists k :: 0 <= k < |points| - 1 && BothOnAntimeridian(points[k], points[k + 1])
  }

  predicate SplitDrawable(s: Split) {
    Drawable(s.current) && AllDrawable(s.done)
  }

  lemma DrawableSnoc(path: seq<Vertex>, v: Vertex)
    ensures Drawable(path + [v]) <==> Drawable(path) && v.lat.Finite?
  {
    assert Drawable(path + [v]) ==> forall k :: 0 <= k < |path| ==> (path + [v])[k] == path[k] && path[k].lat.Finite?;
    assert (path + [v])[|path|] == v;
  }

  lemma ExtendedDrawable(s: Split, crosses: bool, exit: Vertex, entry: Vertex, next: Vertex)
    requires next.lat.Finite? && (exit.lat.Finite? <==> entry.lat.Finite?)
    ensures SplitDrawable(s.Extended(crosses, exit, entry, next)) <==> SplitDrawable(s) && (crosses ==> exit.lat.Finite?)
  {
    var s' := s.Extended(crosses, exit, entry, next);
    DrawableSnoc(s.current, exit);
    DrawableSnoc(s.current, next);
    if crosses {
      var closed := s.current + [exit];
      assert s'.done[|s.done|] == closed && forall k :: 0 <= k < |s.done| ==> s'.done[k] == s.done[k];
      assert s'.current[0] == entry && s'.current[1] == next;
    }
  }

  lemma JumpsSnoc(points: seq<Point>)
    requires |points| >= 2
    ensures var n := |points|;
            JumpsOnAntimeridian(points) <==>
            JumpsOnAntimeridian(points[..n - 1]) || BothOnAntimeridian(points[n - 2], points[n - 1])
  {
    var n, init := |points|, points[..|points| - 1];
    if JumpsOnAntimeridian(points) {
      var k :| 0 <= k < n - 1 && BothOnAntimeridian(points[k], points[k + 1]);
      assert k < n - 2 ==> init[k] == points[k] && init[k + 1] == points[k + 1];
    }
    if JumpsOnAntimeridian(init) {
      var k :| 0 <= k < n - 2 && BothOnAntimeridian(init[k], init[k + 1]);
      assert init[k] == points[k] && init[k + 1] == points[k + 1];
    }
  }

  /** A split can be drawn exactly when no two neighbours of its route lie on the antimeridian with
      opposite signs. */
  lemma {:induction false} SplitDrawableIff(points: seq<Point>)
    requires points != [] && forall k :: 0 <= k < |points| ==> InRange(points[k])
    ensures SplitDrawable(SplitUp(points)) <==> !JumpsOnAntimeridian(points)
  {
    var n := |points|;
    if n > 1 {
      var a, b := points[n - 2], points[n - 1];
      SplitDrawableIff(points[..n - 1]);
      JumpsSnoc(points);
      if Crosses(a, b) {
        var _ := SeamsMeetOnTheLine(a, b);
      }
      SplitStepDrawable(SplitUp(points[..n - 1]), a, b);
    }
  }

  lemma SplitStepDrawable(s: Split, a: Point, b: Point)
    requires Crosses(a, b) ==> (ExitSeam(a, b).lat.NotFinite? <==> BothOnAntimeridian(a, b)) && ExitSeam(a, b).lat == EntrySeam(a, b).lat
    ensures SplitDrawable(s.Extended(Crosses(a, b), ExitSeam(a, b), EntrySeam(a, b), AsVertex(b))) <==>
            SplitDrawable(s) && !BothOnAntimeridian(a, b)
  {
    var next := AsVertex(b);
    if Crosses(a, b) {
      ExtendedDrawable(s, true, ExitSeam(a, b), EntrySeam(a, b), next);
    } else {
      ExtendedDrawable(s, false, next, next, next);
    }
  }

  lemma SegmentsDrawable(s: Split)
    ensures AllDrawable(s.Segments()) <==> SplitDrawable(s)
  {
    assert s.Segments()[|s.done|] == s.current && forall k :: 0 <= k < |s.done| ==> s.done[k] == s.Segments()[k];
  }

  /** Every segment of a route can be drawn iff no two neighbours lie on the antimeridian with opposite
      signs. */
  lemma DrawableUnlessJumps(points: seq<Point>)
    requires forall k :: 0 <= k < |points| ==> InRange(points[k])
    ensures AllDrawable(SegmentsOf(points)) <==> !JumpsOnAntimeridian(points)
  {
    if |points| >= 2 {
      SplitDrawableIff(points);
      SegmentsDrawable(SplitUp(points));
    }
  }

  // ----- The first segment

  function FirstSegment(s: Split): seq<Vertex> {
    if s.done == [] then s.current else s.done[0]
  }

  /** The first crossing of the route is a jump on the antimeridian, so that its first segment already ends
      without a latitude. */
  predicate JumpsFirst(points: seq<Point>) {
    exists k: nat :: k < |points| - 1 && JumpsFirstAt(points, k)
  }

  predicate JumpsFirstAt(points: seq<Point>, k: nat)
    requires k < |points| - 1
  {
    BothOnAntimeridian(points[k], points[k + 1]) && NoCrossing(points[..k + 1])
  }

  predicate CrossesNext(points: seq<Point>, k: nat)
    requires k < |points| - 1
  {
    Crosses(points[k], points[k + 1])
  }

  predicate NoCrossing(points: seq<Point>) {
    forall k: nat :: k < |points| - 1 ==> !CrossesNext(points, k)
  }

  lemma NoCrossingSnoc(points: seq<Point>)
    requires |points| >= 2
    ensures var n := |points|;
            NoCrossing(points) <==> NoCrossing(points[..n - 1]) && !Crosses(points[n - 2], points[n - 1])
  {
    var n, init := |points|, points[..|points| - 1];
    forall k: nat | k < n - 2
      ensures CrossesNext(points, k) <==> CrossesNext(init, k)
    {
      assert init[k] == points[k] && init[k + 1] == points[k + 1];
    }
    assert CrossesNext(points, n - 2) <==> Crosses(points[n - 2], points[n - 1]);
  }

  lemma JumpsFirstSnoc(points: seq<Point>)
    requires |points| >= 2
    ensures var n := |points|;
            JumpsFirst(points) <==>
            JumpsFirst(points[..n - 1]) || (NoCrossing(points[..n - 1]) && BothOnAntimeridian(points[n - 2], points[n - 1]))
  {
    var n, init := |points|, points[..|points| - 1];
    forall k: nat | k < n - 2
      ensures JumpsFirstAt(points, k) <==> JumpsFirstAt(init, k)
    {
      assert init[..k + 1] == points[..k + 1] && init[k] == points[k] && init[k + 1] == points[k + 1];
    }
    assert JumpsFirstAt(points, n - 2) <==> NoCrossing(init) && BothOnAntimeridian(points[n - 2], points[n - 1]);
  }

  /** What one more point does to the first segment. */
  lemma FirstSegmentExtended(s: Split, crosses: bool, exit: Vertex, entry: Vertex, next: Vertex)
    requires next.lat.Finite?
    ensures var s' := s.Extended(crosses, exit, entry, next);
            && (s'.done == [] <==> s.done == [] && !crosses)
            && (Drawable(FirstSegment(s')) <==> Drawable(FirstSegment(s)) && (s.done == [] && crosses ==> exit.lat.Finite?))
  {
    DrawableSnoc(s.current, exit);
    DrawableSnoc(s.current, next);
    if crosses && s.done != [] {
      assert (s.done + [s.current + [exit]])[0] == s.done[0];
    }
  }

  lemma {:induction false} FirstDrawableIff(points: seq<Point>)
    requires points != [] && forall k :: 0 <= k < |points| ==> InRange(points[k])
    ensures SplitUp(points).done == [] <==> NoCrossing(points)
    ensures Drawable(FirstSegment(SplitUp(points))) <==> !JumpsFirst(points)
  {
    var n := |points|;
    if n > 1 {
      var a, b := points[n - 2], points[n - 1];
      FirstDrawableIff(points[..n - 1]);
      JumpsFirstSnoc(points);
      NoCrossingSnoc(points);
      if Crosses(a, b) {
        SeamsFace(a, b);
      }
      FirstSegmentExtended(SplitUp(points[..n - 1]), Crosses(a, b), ExitSeam(a, b), EntrySeam(a, b), AsVertex(b));
    }
  }

  /** Some segment is refused, but not the first. */
  predicate Strands(points: seq<Point>) {
    JumpsOnAntimeridian(points) && !JumpsFirst(points)
  }

  /** Drawing up to the first refused segment leaves something behind exactly when the route jumps on the
      antimeridian and its first crossing is no such jump. */
  lemma DrawnBeforeRefusedIff(points: seq<Point>, n: nat)
    requires forall k :: 0 <= k < |points| ==> InRange(points[k])
    requires DrawnUntil(SegmentsOf(points), n) && n < |SegmentsOf(points)|
    ensures n > 0 <==> Strands(points)
  {
    DrawableUnlessJumps(points);
    FirstDrawableIff(points);
    assert SegmentsOf(points)[0] == FirstSegment(SplitUp(points));
  }

  /** A route whose first segment is drawn and whose second is refused: its layer is stranded. */
  lemma StrandingRoute() returns (points: seq<Point>)
    ensures points == [Point(0.0, 170.0, None), Point(0.0, -170.0, None), Point(0.0, -180.0, None), Point(5.0, 180.0, None)]
    ensures Thinned(AsWaypoints(points)) == points
    ensures |SegmentsOf(points)| == 3 && DrawnUntil(SegmentsOf(points), 1) && Strands(points)
  {
    var a, b, c, d := Point(0.0, 170.0, None), Point(0.0, -170.0, None), Point(0.0, -180.0, None), Point(5.0, 180.0, None);
    points := [a, b, c, d];
    NormalizedIsFixed(points);
    assert points[..3] == [a, b, c] && [a, b, c][..2] == [a, b] && [a, b][..1] == [a];
    var second := [EntrySeam(a, b), AsVertex(b), AsVertex(c), ExitSeam(c, d)];
    assert SplitUp([a]) == Split([], [AsVertex(a)]);
    assert SplitUp([a, b]) == SplitUp([a]).Extended(true, ExitSeam(a, b), EntrySeam(a, b), AsVertex(b));
    assert [AsVertex(a)] + [ExitSeam(a, b)] == [AsVertex(a), ExitSeam(a, b)];
    assert SplitUp([a, b]).done == [[AsVertex(a), ExitSeam(a, b)]];
    assert SplitUp([a, b, c]).current == second[..3];
    assert second[..3] + [ExitSeam(c, d)] == second;
    assert SplitUp(points) == SplitUp([a, b, c]).Extended(true, ExitSeam(c, d), EntrySeam(c, d), AsVertex(d));
    assert SplitUp(points).done == [[AsVertex(a), ExitSeam(a, b)], second];
    assert second[3].lat.NotFinite?;
    DrawnBeforeRefusedIff(points, 1);
  }

  type Named = map<string, seq<Polyline>>

  ghost predicate InNamed(named: Named, layer: Polyline) {
    exists name :: name in named && layer in named[name]
  }

  /** Named paths share no layer, not even with themselves. */
  ghost predicate NamedApart(named: Named) {
    && (forall name :: name in named ==> Distinct(named[name]))
    && (forall a, b, layer :: a in named && b in named && a != b && layer in named[a] ==> layer !in named[b])
  }

  /** The group shows exactly the anonymous polylines, the layers of all named paths and those that a
      failed addPath left behind, and no layer is in two places. */
  ghost predicate Consistent(route: seq<Polyline>, named: Named, stranded: set<Polyline>, group: set<Polyline>, nextStamp: nat) {
    && (forall layer :: layer in group <==> layer in route || layer in stranded || InNamed(named, layer))
    && Distinct(route)
    && NamedApart(named)
    && (forall layer :: layer in route ==> !InNamed(named, layer))
    && (forall layer :: layer in stranded ==> layer !in route && !InNamed(named, layer))
    && Stamped(group, nextStamp)
  }

  ghost predicate Stamped(group: set<Polyline>, nextStamp: nat) {
    && (forall layer :: layer in group ==> layer.stamp < nextStamp)
    && (forall a, b :: a in group && b in group && a.stamp == b.stamp ==> a == b)
  }

  /** New layers, stamped from `nextStamp` on. */
  predicate NewlyStamped(layers: seq<Polyline>, nextStamp: nat) {
    forall i :: 0 <= i < |layers| ==> layers[i].stamp == nextStamp + i
  }

  lemma StampedMore(group: set<Polyline>, nextStamp: nat, layers: seq<Polyline>)
    requires Stamped(group, nextStamp) && NewlyStamped(layers, nextStamp)
    ensures Stamped(group + (set layer | layer in layers), nextStamp + |layers|)
    ensures forall layer :: layer in layers ==> layer !in group
  {
  }

  lemma WithoutName(route: seq<Polyline>, named: Named, stranded: set<Polyline>, group: set<Polyline>, nextStamp: nat, name: string)
    requires Consistent(route, named, stranded, group, nextStamp) && name in named
    ensures Consistent(route, named - {name}, stranded, group - (set layer | layer in named[name]), nextStamp)
  {
    var named' := named - {name};
    forall layer | layer in group && layer !in named[name] && InNamed(named, layer)
      ensures InNamed(named', layer)
    {
      var other :| other in named && layer in named[other];
      assert other in named' && layer in named'[other];
    }
    forall layer | InNamed(named', layer)
      ensures InNamed(named, layer) && layer !in named[name]
    {
      var other :| other in named' && layer in named'[other];
      assert other in named && layer in named[other];
    }
    forall layer | layer in named[name]
      ensures layer !in route && layer !in stranded
    {
      assert InNamed(named, layer);
    }
  }

  lemma NamedWithName(named: Named, name: string, layers: seq<Polyline>, layer: Polyline)
    requires name !in named
    ensures InNamed(named[name := layers], layer) <==> InNamed(named, layer) || layer in layers
  {
    var named' := named[name := layers];
    if InNamed(named, layer) {
      var other :| other in named && layer in named[other];
      assert other in named' && layer in named'[other];
    }
    if layer in layers {
      assert name in named' && layer in named'[name];
    }
  }

  lemma WithNameApart(named: Named, name: string, layers: seq<Polyline>)
    requires NamedApart(named) && name !in named && Distinct(layers)
    requires forall layer :: layer in layers ==> !InNamed(named, layer)
    ensures NamedApart(named[name := layers])
  {
  }

  lemma WithName(route: seq<Polyline>, named: Named, stranded: set<Polyline>, group: set<Polyline>, nextStamp: nat,
                 name: string, layers: seq<Polyline>)
    requires Consistent(route, named, stranded, group, nextStamp) && name !in named
    requires NewlyStamped(layers, nextStamp)
    ensures Consistent(route, named[name := layers], stranded, group + (set layer | layer in layers), nextStamp + |layers|)
  {
    StampedMore(group, nextStamp, layers);
    WithNameApart(named, name, layers);
    forall layer
      ensures InNamed(named[name := layers], layer) <==> InNamed(named, layer) || layer in layers
    {
      NamedWithName(named, name, layers, layer);
    }
  }

  /** Layers that reach the group but no list. */
  lemma WithStranded(route: seq<Polyline>, named: Named, stranded: set<Polyline>, group: set<Polyline>, nextStamp: nat,
                     layers: seq<Polyline>)
    requires Consistent(route, named, stranded, group, nextStamp) && NewlyStamped(layers, nextStamp)
    ensures var added := set layer | layer in layers;
            Consistent(route, named, stranded + added, group + added, nextStamp + |layers|)
  {
    StampedMore(group, nextStamp, layers);
  }

  lemma NewAreApart(stranded: set<Polyline>, group: set<Polyline>, nextStamp: nat, layers: seq<Polyline>)
    requires stranded <= group && Stamped(group, nextStamp) && NewlyStamped(layers, nextStamp)
    ensures stranded + (set layer | layer in layers) == stranded <==> layers == []
  {
    if layers != [] {
      assert layers[0] in layers && layers[0] !in group;
    }
  }

  lemma Appended(route: seq<Polyline>, stranded: set<Polyline>, group: set<Polyline>, nextStamp: nat, layer: Polyline)
    requires Consistent(route, map[], stranded, group, nextStamp) && layer.stamp == nextStamp
    requires group == (set l | l in route) + stranded
    ensures Consistent(route + [layer], map[], stranded, group + {layer}, nextStamp + 1)
    ensures group + {layer} == (set l | l in route + [layer]) + stranded
    ensures Paths(route + [layer]) == Paths(route) + [layer.path]
  {
    assert layer !in group;
  }

  lemma SameOtherNames(named: Named, name: string, layers: seq<Polyline>)
    ensures named[name := layers] - {name} == named - {name}
  {
  }

  method IsDrawable(path: seq<Vertex>) returns (drawable: bool)
    ensures drawable <==> Drawable(path)
  {
    for k := 0 to |path|
      invariant forall j :: 0 <= j < k ==> path[j].lat.Finite?
    {
      if path[k].lat.NotFinite? {
        return false;
      }
    }
    return true;
  }

  class FlightMap {
    var routePolylines: seq<Polyline>
    var namedRouteLayers: Named
    var routeLayerGroup: set<Polyline>
    var nextStamp: nat
    /** Layers of the group that are in no list, so that no later call takes them off. */
    ghost var stranded: set<Polyline>

    ghost predicate Valid()
      reads this
    {
      Consistent(routePolylines, namedRouteLayers, stranded, routeLayerGroup, nextStamp)
    }

    constructor ()
      ensures Valid()
      ensures routePolylines == [] && namedRouteLayers == map[] && routeLayerGroup == {} && stranded == {}
    {
      routePolylines, namedRouteLayers, routeLayerGroup, nextStamp, stranded := [], map[], {}, 0, {};
    }

    method RemoveLayers(layers: seq<Polyline>)
      modifies this`routeLayerGroup
      ensures routeLayerGroup == old(routeLayerGroup) - set layer | layer in layers
    {
      for i := 0 to |layers|
        invariant routeLayerGroup == old(routeLayerGroup) - set layer | layer in layers[..i]
      {
        assert layers[..i + 1] == layers[..i] + [layers[i]];
        routeLayerGroup := routeLayerGroup - {layers[i]};
      }
      assert layers[..|layers|] == layers;
    }

    /** Takes every listed route layer off the map, anonymous or named; stranded layers stay. */
    method ClearRoute()
      requires Valid()
      modifies this
      ensures Valid() && nextStamp == old(nextStamp)
      ensures routePolylines == [] && namedRouteLayers == map[]
      ensures routeLayerGroup == stranded == old(stranded)
    {
      RemoveLayers(routePolylines);
      var rest := namedRouteLayers.Keys;
      while rest != {}
        invariant rest <= namedRouteLayers.Keys
        invariant routePolylines == old(routePolylines) && namedRouteLayers == old(namedRouteLayers) && nextStamp == old(nextStamp)
        invariant stranded == old(stranded) && stranded <= routeLayerGroup
        invariant forall layer :: layer in routeLayerGroup ==>
                    layer in stranded || exists name :: name in rest && layer in namedRouteLayers[name]
      {
        var name :| name in rest;
        assert forall layer :: layer in namedRouteLayers[name] ==> InNamed(namedRouteLayers, layer);
        RemoveLayers(namedRouteLayers[name]);
        rest := rest - {name};
      }
      routePolylines := [];
      namedRouteLayers := map[];
    }

    /** Takes the layers of one named path off the map and forgets the name. */
    method ClearPath(name: string)
      requires Valid()
      modifies this
      ensures Valid() && nextStamp == old(nextStamp)
      ensures routePolylines == old(routePolylines) && stranded == old(stranded)
      ensures namedRouteLayers == old(namedRouteLayers) - {name}
      ensures routeLayerGroup ==
              if name in old(namedRouteLayers) then old(routeLayerGroup) - set layer | layer in old(namedRouteLayers)[name]
              else old(routeLayerGroup)
    {
      if name !in namedRouteLayers {
        return;
      }
      WithoutName(routePolylines, namedRouteLayers, stranded, routeLayerGroup, nextStamp, name);
      RemoveLayers(namedRouteLayers[name]);
      namedRouteLayers := namedRouteLayers - {name};
    }

    /** Draws path after path, up to the first one with a vertex the map library refuses. */
    method NewPolylines(paths: seq<seq<Vertex>>) returns (layers: seq<Polyline>)
      modifies this`routeLayerGroup, this`nextStamp
      ensures DrawnUntil(paths, |layers|) && Paths(layers) == paths[..|layers|]
      ensures NewlyStamped(layers, old(nextStamp))
      ensures nextStamp == old(nextStamp) + |layers|
      ensures routeLayerGroup == old(routeLayerGroup) + set layer | layer in layers
    {
      layers := [];
      for i := 0 to |paths|
        invariant |layers| == i && Paths(layers) == paths[..i]
        invariant forall k :: 0 <= k < i ==> Drawable(paths[k])
        invariant NewlyStamped(layers, old(nextStamp))
        invariant nextStamp == old(nextStamp) + i
        invariant routeLayerGroup == old(routeLayerGroup) + set layer | layer in layers
      {
        var drawable := IsDrawable(paths[i]);
        if !drawable {
          return;
        }
        var polyline := Polyline(nextStamp, paths[i]);
        nextStamp := nextStamp + 1;
        routeLayerGroup := routeLayerGroup + {polyline};
        layers := layers + [polyline];
      }
      assert paths[..|paths|] == paths;
    }

    /** Replaces the path `name` by the segments of the given route; `fit` is the part to zoom to.
        A route without two distinct valid points leaves the name without layers.  The call throws
        exactly when two neighbours of the thinned route lie on the antimeridian with opposite signs; the
        name is then gone, and the segments before the first one without a latitude are stranded. */
    method AddPath(name: string, waypoints: seq<Waypoint>) returns (fit: seq<Vertex>, threw: bool, ghost left: seq<Polyline>)
      requires Valid()
      modifies this
      ensures Valid()
      ensures routePolylines == old(routePolylines)
      ensures namedRouteLayers - {name} == old(namedRouteLayers) - {name}
      ensures threw <==> JumpsOnAntimeridian(Thinned(waypoints))
      ensures stranded == old(stranded) + set layer | layer in left
      ensures stranded == old(stranded) <==> !Strands(Thinned(waypoints))
      ensures !threw ==> left == []
      ensures var segments := SegmentsOf(Thinned(waypoints));
              if |waypoints| < 2 then namedRouteLayers == old(namedRouteLayers) && fit == []
              else if threw then
                && name !in namedRouteLayers && fit == []
                && |left| < |segments| && DrawnUntil(segments, |left|)
                && Paths(left) == segments[..|left|] && NewlyStamped(left, old(nextStamp))
              else
                && (name in namedRouteLayers <==> segments != [])
                && (segments != [] ==> Paths(namedRouteLayers[name]) == segments)
                && IsLongest(segments, fit)
    {
      fit, threw, left := [], false, [];
      JumpsNeedPoints(waypoints);
      if |waypoints| < 2 {
        return;
      }
      ClearPath(name);
      var routeSegments := SplitRouteAtAntimeridian(waypoints);
      SegmentsNonEmpty(waypoints);
      if |routeSegments| == 0 {
        return;
      }
      ThinnedIsNormalized(waypoints);
      DrawableUnlessJumps(Thinned(waypoints));
      threw, left := AddSegments(name, routeSegments);
      if threw {
        DrawnBeforeRefusedIff(Thinned(waypoints), |left|);
      } else {
        fit := GetLongestRouteSegment(routeSegments);
      }
    }

    /** The drawing loop of addPath; the new layers enter the list only after the last one. */
    method AddSegments(name: string, segments: seq<seq<Vertex>>) returns (threw: bool, ghost left: seq<Polyline>)
      requires Valid() && name !in namedRouteLayers
      modifies this
      ensures Valid()
      ensures routePolylines == old(routePolylines)
      ensures stranded == old(stranded) + set layer | layer in left
      ensures stranded == old(stranded) <==> left == []
      ensures threw <==> !AllDrawable(segments)
      ensures if threw then
                && namedRouteLayers == old(namedRouteLayers)
                && |left| < |segments| && DrawnUntil(segments, |left|)
                && Paths(left) == segments[..|left|] && NewlyStamped(left, old(nextStamp))
              else
                && left == [] && name in namedRouteLayers && Paths(namedRouteLayers[name]) == segments
                && namedRouteLayers - {name} == old(namedRouteLayers) - {name}
    {
      ghost var group, stamp := routeLayerGroup, nextStamp;
      var layers := NewPolylines(segments);
      threw, left := |layers| < |segments|, [];
      if threw {
        WithStranded(routePolylines, namedRouteLayers, stranded, group, stamp, layers);
        NewAreApart(stranded, group, stamp, layers);
        stranded := stranded + set layer | layer in layers;
        left := layers;
      } else {
        WithName(routePolylines, namedRouteLayers, stranded, group, stamp, name, layers);
        SameOtherNames(namedRouteLayers, name, layers);
        namedRouteLayers := namedRouteLayers[name := layers];
      }
    }

    /** The drawing loop of addRoute, on an empty route layer. */
    method DrawPairs(filtered: seq<Point>)
      requires Valid() && |filtered| >= 2
      requires routePolylines == [] && namedRouteLayers == map[] && routeLayerGroup == stranded
      modifies this
      ensures Valid()
      ensures namedRouteLayers == map[] && stranded == old(stranded)
      ensures Paths(routePolylines) == Pairs(filtered)
      ensures routeLayerGroup == (set layer | layer in routePolylines) + stranded
    {
      for i := 0 to |filtered| - 1
        invariant namedRouteLayers == map[] && stranded == old(stranded) && Valid()
        invariant Paths(routePolylines) == Pairs(filtered[..i + 1])
        invariant routeLayerGroup == (set layer | layer in routePolylines) + stranded
      {
        assert filtered[..i + 2][..i + 1] == filtered[..i + 1];
        var point1, point2 := filtered[i], filtered[i + 1];
        if Abs(point2.lng - point1.lng) > 180.0 {
          continue;
        }
        var polyline := Polyline(nextStamp, [AsVertex(point1), AsVertex(point2)]);
        Appended(routePolylines, stranded, routeLayerGroup, nextStamp, polyline);
        nextStamp := nextStamp + 1;
        routeLayerGroup := routeLayerGroup + {polyline};
        routePolylines := routePolylines + [polyline];
      }
      assert filtered[..|filtered|] == filtered;
    }

    /** Replaces everything listed on the route layer by the route's pairs of neighbours that do not cross the
        antimeridian; `fit` is the longest segment of the split route. */
    method AddRoute(waypoints: seq<Waypoint>) returns (fit: seq<Vertex>)
      requires Valid()
      modifies this
      ensures Valid() && stranded == old(stranded)
      ensures var points := Thinned(waypoints);
              if |waypoints| < 2 then
                && routePolylines == old(routePolylines) && namedRouteLayers == old(namedRouteLayers)
                && routeLayerGroup == old(routeLayerGroup) && fit == []
              else
                && namedRouteLayers == map[]
                && Paths(routePolylines) == Pairs(points)
                && routeLayerGroup == (set layer | layer in routePolylines) + stranded
                && IsLongest(SegmentsOf(points), fit)
    {
      if |waypoints| < 2 {
        return [];
      }
      ClearRoute();
      var filtered := NormalizeRoutePoints(waypoints);
      if |filtered| < 2 {
        return [];
      }
      DrawPairs(filtered);
      ThinningIsIdempotent(waypoints);
      SegmentsNonEmpty(waypoints);
      var routeSegments := SplitRouteAtAntimeridian(AsWaypoints(filtered));
      fit := GetLongestRouteSegment(routeSegments);
    }
  }

  lemma JumpsNeedPoints(waypoints: seq<Waypoint>)
    ensures |Thinned(waypoints)| <= |waypoints|
    ensures JumpsOnAntimeridian(Thinned(waypoints)) ==> |Thinned(waypoints)| >= 2
  {
  }

  lemma SegmentsNonEmpty(waypoints: seq<Waypoint>)
    ensures forall s :: s in SegmentsOf(Thinned(waypoints)) ==> s != []
    ensures SegmentsOf(Thinned(waypoints)) == [] <==> |Thinned(waypoints)| < 2
  {
    ThinnedIsNormalized(waypoints);
    if |Thinned(waypoints)| >= 2 {
      SegmentsJoinToRoute(Thinned(waypoints));
    }
  }
}
