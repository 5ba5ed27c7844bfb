/** Route geometry (internal/ui/static/js/map/flight-map.mjs): thinning a list of waypoints and splitting
    the thinned route where it crosses the antimeridian.  Coordinates are real numbers; `NotFinite`
    stands for every JavaScript number that is not one. */
module Routes {
  import opened Sequences

  datatype Coordinate = NotFinite | Finite(value: real)

  datatype Waypoint = Waypoint(latitude: Coordinate, longitude: Coordinate, altitude: Option<real>)

  /** A waypoint that passed validation. */
  datatype Point = Point(lat: real, lng: real, altitude: Option<real>)

  /** A vertex of a split route.  An inserted seam vertex may have no finite latitude. */
  datatype Vertex = Vertex(lat: Coordinate, lng: real, altitude: Option<real>)

  const EPSILON := 0.0001

  function Abs(x: real): real {
    if x < 0.0 then -x else x
  }

  predicate InRange(p: Point) {
    -90.0 <= p.lat <= 90.0 && -180.0 <= p.lng <= 180.0
  }

  predicate IsValid(wp: Waypoint) {
    wp.latitude.Finite? && wp.longitude.Finite? && InRange(Point(wp.latitude.value, wp.longitude.value, wp.altitude))
  }

  function ToPoint(wp: Waypoint): Point
    requires IsValid(wp)
  {
    Point(wp.latitude.value, wp.longitude.value, wp.altitude)
  }

  predicate Far(a: Point, b: Point) {
    Abs(b.lat - a.lat) > EPSILON || Abs(b.lng - a.lng) > EPSILON
  }

  // ----- Thinning

  /** More than a ten-thousandth of a degree apart, in latitude or in longitude. */
  predicate Apart(a: Point, b: Point) {
    b.lat - a.lat > 0.0001 || a.lat - b.lat > 0.0001 || b.lng - a.lng > 0.0001 || a.lng - b.lng > 0.0001
  }

  lemma FarMeansApart(a: Point, b: Point)
    ensures Far(a, b) <==> Apart(a, b)
  {
  }

  /** Both coordinates are numbers on the globe. */
  predicate Usable(wp: Waypoint) {
    && wp.latitude.Finite? && wp.longitude.Finite?
    && -90.0 <= wp.latitude.value && wp.latitude.value <= 90.0
    && -180.0 <= wp.longitude.value && wp.longitude.value <= 180.0
  }

  lemma ValidMeansUsable(wp: Waypoint)
    ensures IsValid(wp) <==> Usable(wp)
  {
  }

  predicate FarFromNext(points: seq<Point>, k: nat)
    requires k < |points| - 1
  {
    Apart(points[k], points[k + 1])
  }

  /** Neighbours are far apart. */
  predicate Spread(points: seq<Point>) {
    forall k: nat :: k < |points| - 1 ==> FarFromNext(points, k)
  }

  lemma SpreadSnoc(points: seq<Point>, p: Point)
    ensures Spread(points + [p]) <==> Spread(points) && (points == [] || Far(points[|points| - 1], p))
  {
    var more := points + [p];
    if Spread(more) {
      assert forall k: nat :: k < |points| - 1 ==> FarFromNext(more, k) && FarFromNext(points, k);
      assert points != [] ==> FarFromNext(more, |points| - 1);
    } else {
      var k: nat :| k < |more| - 1 && !FarFromNext(more, k);
      assert k < |points| - 1 ==> !FarFromNext(points, k);
    }
  }

  function Thinned(waypoints: seq<Waypoint>): seq<Point> {
    if waypoints == [] then []
    else
      var kept, wp := Thinned(waypoints[..|waypoints| - 1]), waypoints[|waypoints| - 1];
      if IsValid(wp) && (kept == [] || Far(kept[|kept| - 1], ToPoint(wp))) then kept + [ToPoint(wp)] else kept
  }

  method NormalizeRoutePoints(waypoints: seq<Waypoint>) returns (result: seq<Point>)
    ensures result == Thinned(waypoints)
  {
    result := [];
    for i := 0 to |waypoints|
      invariant result == Thinned(waypoints[..i])
    {
      assert waypoints[..i + 1][..i] == waypoints[..i];
      var wp := waypoints[i];
      if !IsValid(wp) {
        continue;
      }
      var normalized := ToPoint(wp);
      if |result| == 0 {
        result := result + [normalized];
        continue;
      }
      var previous := result[|result| - 1];
      if Abs(normalized.lat - previous.lat) > EPSILON || Abs(normalized.lng - previous.lng) > EPSILON {
        result := result + [normalized];
      }
    }
    assert waypoints[..|waypoints|] == waypoints;
  }

  /** `at` are the positions of the kept waypoints, and it is the greedy choice: the first valid one is
      kept, neighbours kept are far apart, and every valid waypoint dropped is near the last one kept
      before it. */
  ghost predicate GreedyThinning(waypoints: seq<Waypoint>, out: seq<Point>, at: seq<nat>) {
    Keeps(waypoints, out, at) && DropsNear(waypoints, out, at)
  }

  predicate Keeps(waypoints: seq<Waypoint>, out: seq<Point>, at: seq<nat>) {
    && |at| == |out|
    && Increasing(at)
    && (forall k :: 0 <= k < |at| ==> at[k] < |waypoints| && KeptFrom(out[k], waypoints[at[k]]))
    && Spread(out)
  }

  predicate KeptFrom(p: Point, wp: Waypoint) {
    Usable(wp) && p.lat == wp.latitude.value && p.lng == wp.longitude.value && p.altitude == wp.altitude
  }

  ghost predicate DropsNear(waypoints: seq<Waypoint>, out: seq<Point>, at: seq<nat>)
    requires |at| == |out|
  {
    forall i :: 0 <= i < |waypoints| && Usable(waypoints[i]) && i !in at ==> NearLastKept(waypoints[i], i, out, at)
  }

  ghost predicate NearLastKept(wp: Waypoint, i: nat, out: seq<Point>, at: seq<nat>)
    requires |at| == |out| && Usable(wp)
  {
    exists k: nat :: KeptBefore(at, i, k) && Near(out[k], wp)
  }

  /** At most a ten-thousandth of a degree away, in latitude and in longitude. */
  predicate Near(p: Point, wp: Waypoint)
    requires Usable(wp)
  {
    && wp.latitude.value - p.lat <= 0.0001 && p.lat - wp.latitude.value <= 0.0001
    && wp.longitude.value - p.lng <= 0.0001 && p.lng - wp.longitude.value <= 0.0001
  }

  /** The k-th kept position is the last one before `i`. */
  predicate KeptBefore(at: seq<nat>, i: nat, k: nat) {
    k < |at| && at[k] < i && (k + 1 < |at| ==> i < at[k + 1])
  }

  lemma {:induction false} ThinnedIsGreedy(waypoints: seq<Waypoint>) returns (at: seq<nat>)
    ensures GreedyThinning(waypoints, Thinned(waypoints), at)
  {
    if waypoints == [] {
      at := [];
    } else {
      var n := |waypoints| - 1;
      at := ThinnedIsGreedy(waypoints[..n]);
      var kept, wp := Thinned(waypoints[..n]), waypoints[n];
      assert waypoints == waypoints[..n] + [wp];
      if IsValid(wp) && (kept == [] || Far(kept[|kept| - 1], ToPoint(wp))) {
        GreedyKeeps(waypoints[..n], kept, at, wp);
        at := at + [n];
      } else {
        GreedyDrops(waypoints[..n], kept, at, wp);
      }
    }
  }

  /** Positions from `n` on do not matter to an earlier waypoint. */
  lemma NearWithMore(p: Waypoint, i: nat, out: seq<Point>, at: seq<nat>, last: Point, n: nat)
    requires |at| == |out| && i < n && Usable(p) && NearLastKept(p, i, out, at)
    ensures NearLastKept(p, i, out + [last], at + [n])
  {
    var k: nat :| KeptBefore(at, i, k) && Near(out[k], p);
    assert KeptBefore(at + [n], i, k) && (out + [last])[k] == out[k];
  }

  lemma NearWithLess(p: Waypoint, i: nat, out: seq<Point>, at: seq<nat>, last: Point, n: nat)
    requires |at| == |out| && i < n && Usable(p) && NearLastKept(p, i, out + [last], at + [n])
    ensures NearLastKept(p, i, out, at)
  {
    var k: nat :| KeptBefore(at + [n], i, k) && Near((out + [last])[k], p);
    assert k < |at| && (out + [last])[k] == out[k] && (at + [n])[k] == at[k];
    assert k + 1 < |at| ==> (at + [n])[k + 1] == at[k + 1];
    assert KeptBefore(at, i, k);
  }

  lemma KeepsOneMore(waypoints: seq<Waypoint>, out: seq<Point>, at: seq<nat>, wp: Waypoint)
    requires Keeps(waypoints, out, at)
    requires IsValid(wp) && (out == [] || Far(out[|out| - 1], ToPoint(wp)))
    ensures Keeps(waypoints + [wp], out + [ToPoint(wp)], at + [|waypoints|])
  {
    SpreadSnoc(out, ToPoint(wp));
  }

  lemma DropsNearKeeping(waypoints: seq<Waypoint>, out: seq<Point>, at: seq<nat>, wp: Waypoint, last: Point)
    requires |at| == |out| && DropsNear(waypoints, out, at)
    ensures DropsNear(waypoints + [wp], out + [last], at + [|waypoints|])
  {
    var n, at', all := |waypoints|, at + [|waypoints|], waypoints + [wp];
    assert at'[|at|] == n && forall k :: 0 <= k < |at| ==> at'[k] == at[k];
    forall i | 0 <= i < |all| && Usable(all[i]) && i !in at'
      ensures NearLastKept(all[i], i, out + [last], at')
    {
      assert i < n && all[i] == waypoints[i] && i !in at;
      NearWithMore(waypoints[i], i, out, at, last, n);
    }
  }

  lemma GreedyKeeps(waypoints: seq<Waypoint>, out: seq<Point>, at: seq<nat>, wp: Waypoint)
    requires GreedyThinning(waypoints, out, at)
    requires IsValid(wp) && (out == [] || Far(out[|out| - 1], ToPoint(wp)))
    ensures GreedyThinning(waypoints + [wp], out + [ToPoint(wp)], at + [|waypoints|])
  {
    KeepsOneMore(waypoints, out, at, wp);
    DropsNearKeeping(waypoints, out, at, wp, ToPoint(wp));
  }

  lemma GreedyDrops(waypoints: seq<Waypoint>, out: seq<Point>, at: seq<nat>, wp: Waypoint)
    requires GreedyThinning(waypoints, out, at)
    requires IsValid(wp) ==> out != [] && !Far(out[|out| - 1], ToPoint(wp))
    ensures GreedyThinning(waypoints + [wp], out, at)
  {
    var n := |waypoints|;
    if IsValid(wp) {
      assert KeptBefore(at, n, |at| - 1);
      assert NearLastKept(wp, n, out, at);
    }
  }

  /** Leaving out the last waypoint when it was kept. */
  lemma PrefixOfKept(waypoints: seq<Waypoint>, out: seq<Point>, at: seq<nat>, out': seq<Point>, at': seq<nat>)
    requires GreedyThinning(waypoints, out, at) && waypoints != []
    requires at == at' + [|waypoints| - 1] && |out'| == |at'| && out' <= out
    ensures GreedyThinning(waypoints[..|waypoints| - 1], out', at')
  {
    var n, init := |waypoints| - 1, waypoints[..|waypoints| - 1];
    assert at[|at'|] == n && forall k :: 0 <= k < |at'| ==> at'[k] == at[k] && at[k] < n;
    assert out == out' + [out[|at'|]];
    SpreadSnoc(out', out[|at'|]);
    assert Keeps(init, out', at');
    forall i | 0 <= i < |init| && Usable(init[i]) && i !in at'
      ensures NearLastKept(init[i], i, out', at')
    {
      assert i !in at && init[i] == waypoints[i];
      NearWithLess(init[i], i, out', at', out[|at'|], n);
    }
  }

  lemma KeptPrefix(waypoints: seq<Waypoint>, out: seq<Point>, at: seq<nat>)
    requires GreedyThinning(waypoints, out, at) && waypoints != [] && at != [] && at[|at| - 1] == |waypoints| - 1
    ensures GreedyThinning(waypoints[..|waypoints| - 1], out[..|at| - 1], at[..|at| - 1])
  {
    var m := |at| - 1;
    assert at == at[..m] + [at[m]];
    PrefixOfKept(waypoints, out, at, out[..m], at[..m]);
  }

  /** Leaving out the last waypoint when it was dropped. */
  lemma PrefixOfDropped(waypoints: seq<Waypoint>, out: seq<Point>, at: seq<nat>)
    requires GreedyThinning(waypoints, out, at) && waypoints != []
    requires at == [] || at[|at| - 1] != |waypoints| - 1
    ensures |waypoints| - 1 !in at
    ensures GreedyThinning(waypoints[..|waypoints| - 1], out, at)
  {
    var n, init := |waypoints| - 1, waypoints[..|waypoints| - 1];
    assert forall k :: 0 <= k < |at| ==> at[k] < n;
    assert Keeps(init, out, at);
    forall i | 0 <= i < |init| && Usable(init[i]) && i !in at
      ensures NearLastKept(init[i], i, out, at)
    {
      assert init[i] == waypoints[i];
    }
  }

  /** When everything kept was kept before position `n`, the last one of it is the one `p` is near. */
  lemma NearLast(p: Waypoint, n: nat, out: seq<Point>, at: seq<nat>)
    requires |at| == |out| && Usable(p) && NearLastKept(p, n, out, at)
    requires forall j :: 0 <= j < |at| ==> at[j] <= n
    ensures out != [] && Near(out[|out| - 1], p)
  {
    var k: nat :| KeptBefore(at, n, k) && Near(out[k], p);
    assert k == |at| - 1;
  }

  /** A dropped last waypoint is near the last one kept. */
  lemma DroppedIsNearLast(waypoints: seq<Waypoint>, out: seq<Point>, at: seq<nat>)
    requires GreedyThinning(waypoints, out, at) && waypoints != []
    requires |waypoints| - 1 !in at && IsValid(waypoints[|waypoints| - 1])
    ensures out != [] && !Far(out[|out| - 1], ToPoint(waypoints[|waypoints| - 1]))
  {
    NearLast(waypoints[|waypoints| - 1], |waypoints| - 1, out, at);
  }

  lemma ThinnedSnoc(waypoints: seq<Waypoint>, wp: Waypoint)
    ensures var kept := Thinned(waypoints);
            Thinned(waypoints + [wp]) ==
            if IsValid(wp) && (kept == [] || Far(kept[|kept| - 1], ToPoint(wp))) then kept + [ToPoint(wp)] else kept
  {
    assert (waypoints + [wp])[..|waypoints|] == waypoints;
  }

  lemma ThinnedKeeps(waypoints: seq<Waypoint>, kept: seq<Point>, wp: Waypoint)
    requires waypoints != [] && waypoints[|waypoints| - 1] == wp && kept == Thinned(waypoints[..|waypoints| - 1])
    requires IsValid(wp) && (kept == [] || Far(kept[|kept| - 1], ToPoint(wp)))
    ensures Thinned(waypoints) == kept + [ToPoint(wp)]
  {
    assert waypoints == waypoints[..|waypoints| - 1] + [wp];
    ThinnedSnoc(waypoints[..|waypoints| - 1], wp);
  }

  /** The last one kept is a valid waypoint far from the one kept before it. */
  lemma LastKept(waypoints: seq<Waypoint>, out: seq<Point>, at: seq<nat>) returns (kept: seq<Point>, wp: Waypoint)
    requires Keeps(waypoints, out, at) && at != []
    ensures kept == out[..|out| - 1] && wp == waypoints[at[|at| - 1]]
    ensures IsValid(wp) && out == kept + [ToPoint(wp)] && (kept == [] || Far(kept[|kept| - 1], ToPoint(wp)))
  {
    kept, wp := out[..|out| - 1], waypoints[at[|at| - 1]];
    assert out == kept + [out[|out| - 1]];
    SpreadSnoc(kept, out[|out| - 1]);
  }

  lemma KeptLast(waypoints: seq<Waypoint>, out: seq<Point>, at: seq<nat>)
    requires Keeps(waypoints, out, at) && at != [] && at[|at| - 1] == |waypoints| - 1
    requires out[..|out| - 1] == Thinned(waypoints[..|waypoints| - 1])
    ensures out == Thinned(waypoints)
  {
    var kept, wp := LastKept(waypoints, out, at);
    ThinnedKeeps(waypoints, kept, wp);
  }

  lemma DroppedLast(waypoints: seq<Waypoint>, out: seq<Point>, at: seq<nat>)
    requires GreedyThinning(waypoints, out, at) && waypoints != [] && |waypoints| - 1 !in at
    requires out == Thinned(waypoints[..|waypoints| - 1])
    ensures out == Thinned(waypoints)
  {
    if IsValid(waypoints[|waypoints| - 1]) {
      DroppedIsNearLast(waypoints, out, at);
    }
  }

  /** Nothing else is a greedy thinning: the characterization determines the result. */
  lemma {:induction false} GreedyThinningIsUnique(waypoints: seq<Waypoint>, out: seq<Point>, at: seq<nat>)
    requires GreedyThinning(waypoints, out, at)
    ensures out == Thinned(waypoints)
  {
    if waypoints != [] {
      var n, m := |waypoints| - 1, |at| - 1;
      if at != [] && at[m] == n {
        KeptPrefix(waypoints, out, at);
        GreedyThinningIsUnique(waypoints[..n], out[..m], at[..m]);
        KeptLast(waypoints, out, at);
      } else {
        PrefixOfDropped(waypoints, out, at);
        GreedyThinningIsUnique(waypoints[..n], out, at);
        DroppedLast(waypoints, out, at);
      }
    }
  }

  function AsWaypoints(points: seq<Point>): (r: seq<Waypoint>)
    ensures |r| == |points|
    ensures forall i :: 0 <= i < |r| ==> r[i] == Waypoint(Finite(points[i].lat), Finite(points[i].lng), points[i].altitude)
  {
    seq(|points|, i requires 0 <= i < |points| => Waypoint(Finite(points[i].lat), Finite(points[i].lng), points[i].altitude))
  }

  /** Points in range whose neighbours are far apart. */
  predicate Normalized(points: seq<Point>) {
    && (forall k :: 0 <= k < |points| ==> InRange(points[k]))
    && Spread(points)
  }

  lemma {:induction false} ThinnedIsNormalized(waypoints: seq<Waypoint>)
    ensures Normalized(Thinned(waypoints))
  {
    if waypoints != [] {
      ThinnedIsNormalized(waypoints[..|waypoints| - 1]);
      var wp := waypoints[|waypoints| - 1];
      if IsValid(wp) {
        SpreadSnoc(Thinned(waypoints[..|waypoints| - 1]), ToPoint(wp));
      }
    }
  }

  /** Thinning leaves a normalized route alone. */
  lemma {:induction false} NormalizedIsFixed(points: seq<Point>)
    requires Normalized(points)
    ensures Thinned(AsWaypoints(points)) == points
  {
    if points != [] {
      var init := points[..|points| - 1];
      assert points == init + [points[|points| - 1]];
      SpreadSnoc(init, points[|points| - 1]);
      NormalizedIsFixed(init);
      assert AsWaypoints(points)[..|points| - 1] == AsWaypoints(init);
    }
  }

  /** Thinning twice is thinning once. */
  lemma ThinningIsIdempotent(waypoints: seq<Waypoint>)
    ensures Thinned(AsWaypoints(Thinned(waypoints))) == Thinned(waypoints)
  {
    ThinnedIsNormalized(waypoints);
    NormalizedIsFixed(Thinned(waypoints));
  }

  // ----- Seam points

  predicate Crosses(a: Point, b: Point) {
    Abs(b.lng - a.lng) > 180.0
  }

  /** The longitude of `b` on the branch that continues from `a`. */
  function Unwrapped(a: Point, b: Point): real {
    if a.lng > 0.0 && b.lng < 0.0 then b.lng + 360.0
    else if a.lng < 0.0 && b.lng > 0.0 then b.lng - 360.0
    else b.lng
  }

  function Interpolate(a: Point, b: Point, longitude: real): Vertex {
    var lngB := Unwrapped(a, b);
    var target := if longitude == 180.0 && a.lng < 0.0 then -180.0 else longitude;
    var unwrappedTarget := if a.lng > 0.0 && target < 0.0 then target + 360.0 else target;
    if lngB - a.lng == 0.0 then Vertex(NotFinite, longitude, a.altitude)
    else
      var ratio := (unwrappedTarget - a.lng) / (lngB - a.lng);
      Vertex(Finite(a.lat + (b.lat - a.lat) * ratio), longitude, a.altitude)
  }

  function SeamLongitude(p: Point): real {
    if p.lng < 0.0 then -180.0 else 180.0
  }

  /** The seam vertex that ends the segment of `a`, and the one that starts the segment of `b`. */
  function ExitSeam(a: Point, b: Point): Vertex { Interpolate(a, b, SeamLongitude(a)) }
  function EntrySeam(a: Point, b: Point): Vertex { Interpolate(a, b, SeamLongitude(b)) }

  /** Both points lie exactly on the antimeridian, written with opposite signs. */
  predicate BothOnAntimeridian(a: Point, b: Point) {
    (a.lng == 180.0 && b.lng == -180.0) || (a.lng == -180.0 && b.lng == 180.0)
  }

  predicate Between(x: real, a: real, b: real) {
    (a <= x <= b) || (b <= x <= a)
  }

  lemma ProductSign(x: real, y: real)
    ensures x >= 0.0 && y >= 0.0 ==> x * y >= 0.0
    ensures x > 0.0 && y > 0.0 ==> x * y > 0.0
  {
  }

  lemma ScaledBetween(a: real, b: real, ratio: real)
    requires 0.0 <= ratio <= 1.0
    ensures Between(a + (b - a) * ratio, a, b)
  {
    if a <= b {
      ProductSign(b - a, ratio);
      ProductSign(b - a, 1.0 - ratio);
    } else {
      ProductSign(a - b, ratio);
      ProductSign(a - b, 1.0 - ratio);
    }
  }

  lemma QuotientInUnit(num: real, den: real)
    requires 0.0 <= num <= den || den <= num <= 0.0
    requires den != 0.0
    ensures 0.0 <= num / den <= 1.0 && den * (num / den) == num
  {
    var ratio := num / den;
    if den > 0.0 {
      ProductSign(-ratio, den);
      ProductSign(ratio - 1.0, den);
    } else {
      ProductSign(-ratio, -den);
      ProductSign(ratio - 1.0, -den);
    }
  }

  /** How far along the way from `a` to `b` the antimeridian lies. */
  lemma RatioInUnit(a: Point, b: Point) returns (ratio: real)
    requires InRange(a) && InRange(b) && Crosses(a, b) && !BothOnAntimeridian(a, b)
    ensures Unwrapped(a, b) != a.lng
    ensures ratio == (SeamLongitude(a) - a.lng) / (Unwrapped(a, b) - a.lng)
    ensures 0.0 <= ratio <= 1.0
    ensures a.lng + (Unwrapped(a, b) - a.lng) * ratio == SeamLongitude(a)
  {
    var num, den := SeamLongitude(a) - a.lng, Unwrapped(a, b) - a.lng;
    ratio := num / den;
    QuotientInUnit(num, den);
  }

  lemma SeamsFace(a: Point, b: Point)
    requires InRange(a) && InRange(b) && Crosses(a, b)
    ensures ExitSeam(a, b).lat == EntrySeam(a, b).lat
    ensures ExitSeam(a, b).lng == SeamLongitude(a) == -EntrySeam(a, b).lng
    ensures ExitSeam(a, b).lat.NotFinite? <==> BothOnAntimeridian(a, b)
  {
  }

  /** For every crossing pair: the two seam vertices lie on the antimeridian, each on the side of its own
      point, at one common latitude, which is the latitude of the straight line from `a` the short way round
      to `b` where it meets the antimeridian, between the end latitudes -- except exactly when both points
      already lie on the antimeridian with opposite signs, where the division is by zero and neither seam
      has a latitude.  Both carry the altitude of `a`. */
  lemma SeamsMeetOnTheLine(a: Point, b: Point) returns (ratio: real)
    requires InRange(a) && InRange(b) && Crosses(a, b)
    ensures ExitSeam(a, b).lat == EntrySeam(a, b).lat
    ensures ExitSeam(a, b).lng == (if a.lng < 0.0 then -180.0 else 180.0) == -EntrySeam(a, b).lng
    ensures ExitSeam(a, b).altitude == EntrySeam(a, b).altitude == a.altitude
    ensures ExitSeam(a, b).lat.NotFinite? <==> (a.lng == 180.0 && b.lng == -180.0) || (a.lng == -180.0 && b.lng == 180.0)
    ensures ExitSeam(a, b).lat.Finite? ==>
              var short := if b.lng > a.lng then b.lng - a.lng - 360.0 else b.lng - a.lng + 360.0;
              && 0.0 <= ratio <= 1.0
              && ExitSeam(a, b).lat.value == a.lat + (b.lat - a.lat) * ratio
              && ExitSeam(a, b).lng == a.lng + short * ratio
              && (a.lat <= ExitSeam(a, b).lat.value <= b.lat || b.lat <= ExitSeam(a, b).lat.value <= a.lat)
  {
    SeamsFace(a, b);
    if BothOnAntimeridian(a, b) {
      ratio := 0.0;
    } else {
      ratio := RatioInUnit(a, b);
      ScaledBetween(a.lat, b.lat, ratio);
      ShortWay(a, b);
    }
  }

  lemma ShortWay(a: Point, b: Point)
    requires InRange(a) && InRange(b) && Crosses(a, b)
    ensures Unwrapped(a, b) - a.lng == if b.lng > a.lng then b.lng - a.lng - 360.0 else b.lng - a.lng + 360.0
  {
  }

  // ----- Splitting

  function AsVertex(p: Point): Vertex { Vertex(Finite(p.lat), p.lng, p.altitude) }

  function AsVertices(points: seq<Point>): (r: seq<Vertex>)
    ensures |r| == |points|
    ensures forall i :: 0 <= i < |r| ==> r[i] == Vertex(Finite(points[i].lat), points[i].lng, points[i].altitude)
  {
    seq(|points|, i requires 0 <= i < |points| => AsVertex(points[i]))
  }

  /** Finished segments and the one still growing. */
  datatype Split = Split(done: seq<seq<Vertex>>, current: seq<Vertex>) {
    function Segments(): seq<seq<Vertex>> { done + [current] }

    /** One more route vertex; across the antimeridian the current segment is closed at `exit` and the
        next one starts at `entry`. */
    function Extended(crosses: bool, exit: Vertex, entry: Vertex, next: Vertex): Split {
      if crosses then Split(done + [current + [exit]], [entry, next]) else Split(done, current + [next])
    }
  }

  function SplitUp(points: seq<Point>): Split
    requires points != []
  {
    var n := |points|;
    if n == 1 then Split([], [AsVertex(points[0])])
    else
      var a, b := points[n - 2], points[n - 1];
      SplitUp(points[..n - 1]).Extended(Crosses(a, b), ExitSeam(a, b), EntrySeam(a, b), AsVertex(b))
  }

  function SegmentsOf(points: seq<Point>): seq<seq<Vertex>> {
    if |points| < 2 then [] else SplitUp(points).Segments()
  }

  method SplitRouteAtAntimeridian(waypoints: seq<Waypoint>) returns (segments: seq<seq<Vertex>>)
    ensures segments == SegmentsOf(Thinned(waypoints))
  {
    var normalized := NormalizeRoutePoints(waypoints);
    if |normalized| < 2 {
      return [];
    }
    segments := [];
    var current := [AsVertex(normalized[0])];
    for i := 1 to |normalized|
      invariant Split(segments, current) == SplitUp(normalized[..i])
      invariant i > 1 ==> |current| >= 2
      invariant |current| >= 1
    {
      assert normalized[..i + 1][..i] == normalized[..i];
      var previous, point := normalized[i - 1], normalized[i];
      if Crosses(previous, point) {
        current := current + [Interpolate(previous, point, if previous.lng < 0.0 then -180.0 else 180.0)];
        if |current| >= 2 {
          segments := segments + [current];
        }
        current := [Interpolate(previous, point, if point.lng < 0.0 then -180.0 else 180.0), AsVertex(point)];
      } else {
        current := current + [AsVertex(point)];
      }
    }
    assert normalized[..|normalized|] == normalized;
    if |current| >= 2 {
      segments := segments + [current];
    }
  }

  function Crossings(points: seq<Point>): nat {
    var n := |points|;
    if n < 2 then 0
    else Crossings(points[..n - 1]) + if Crosses(points[n - 2], points[n - 1]) then 1 else 0
  }

  /** One more segment than there are crossings. */
  lemma {:induction false} OneMoreSegmentThanCrossings(points: seq<Point>)
    requires points != []
    ensures |SplitUp(points).Segments()| == Crossings(points) + 1
  {
    if |points| > 1 {
      OneMoreSegmentThanCrossings(points[..|points| - 1]);
    }
  }

  /** The vertices of finished segments without their seams: all but the first segment start with one,
      all end with one. */
  function WithoutSeams(done: seq<seq<Vertex>>): seq<Vertex>
    requires forall s :: s in done ==> |s| >= 2
  {
    if done == [] then []
    else
      var n, last := |done|, done[|done| - 1];
      WithoutSeams(done[..n - 1]) + last[if n == 1 then 0 else 1..|last| - 1]
  }

  /** The route the segments came from: seams dropped, the rest joined. */
  function Joined(segments: seq<seq<Vertex>>): seq<Vertex>
    requires segments != [] && forall s :: s in segments ==> |s| >= 2
  {
    var n, last := |segments|, segments[|segments| - 1];
    WithoutSeams(segments[..n - 1]) + last[if n == 1 then 0 else 1..]
  }

  /** Consecutive vertices lie on one side of the antimeridian. */
  predicate NoCrossingInside(segment: seq<Vertex>) {
    forall k :: 0 <= k < |segment| - 1 ==> Abs(segment[k + 1].lng - segment[k].lng) <= 180.0
  }

  /** Shape of the split after the route vertex `last`. */
  ghost predicate Whole(s: Split, last: Vertex) {
    && (forall seg :: seg in s.done ==> |seg| >= 2 && NoCrossingInside(seg))
    && s.current != [] && (s.done != [] ==> |s.current| >= 2)
    && NoCrossingInside(s.current)
    && s.current[|s.current| - 1] == last
  }

  lemma ExtendedIsWhole(s: Split, last: Vertex, crosses: bool, exit: Vertex, entry: Vertex, next: Vertex)
    requires Whole(s, last)
    requires if crosses then Abs(exit.lng - last.lng) <= 180.0 && Abs(next.lng - entry.lng) <= 180.0
             else Abs(next.lng - last.lng) <= 180.0
    ensures Whole(s.Extended(crosses, exit, entry, next), next)
  {
  }

  /** Each seam lies on the side of its own point, and going out at one and in at the other covers the
      short-way difference. */
  lemma SeamSides(a: Point, b: Point)
    requires InRange(a) && InRange(b) && Crosses(a, b)
    ensures Abs(ExitSeam(a, b).lng - a.lng) <= 180.0 && Abs(b.lng - EntrySeam(a, b).lng) <= 180.0
    ensures (ExitSeam(a, b).lng - a.lng) + (b.lng - EntrySeam(a, b).lng) == Wrap(b.lng - a.lng)
  {
    assert ExitSeam(a, b).lng == SeamLongitude(a) && EntrySeam(a, b).lng == SeamLongitude(b);
  }

  /** What the last point adds to a split, with the seams described by where they lie. */
  lemma SplitGrows(points: seq<Point>) returns (crosses: bool, exit: Vertex, entry: Vertex)
    requires |points| >= 2 && forall k :: 0 <= k < |points| ==> InRange(points[k])
    ensures var n := |points|;
            var a, b := points[n - 2], points[n - 1];
            && SplitUp(points) == SplitUp(points[..n - 1]).Extended(crosses, exit, entry, AsVertex(b))
            && (if crosses then Abs(exit.lng - a.lng) <= 180.0 && Abs(b.lng - entry.lng) <= 180.0 else Abs(b.lng - a.lng) <= 180.0)
            && Wrap(b.lng - a.lng) == if crosses then (exit.lng - a.lng) + (b.lng - entry.lng) else b.lng - a.lng
  {
    var a, b := points[|points| - 2], points[|points| - 1];
    crosses, exit, entry := Crosses(a, b), ExitSeam(a, b), EntrySeam(a, b);
    if crosses {
      SeamSides(a, b);
    }
  }

  lemma {:induction false} SplitIsWhole(points: seq<Point>)
    requires points != [] && forall k :: 0 <= k < |points| ==> InRange(points[k])
    ensures Whole(SplitUp(points), AsVertex(points[|points| - 1]))
    ensures |points| >= 2 ==> |SplitUp(points).current| >= 2
  {
    var n := |points|;
    if n > 1 {
      SplitIsWhole(points[..n - 1]);
      var crosses, exit, entry := SplitGrows(points);
      ExtendedIsWhole(SplitUp(points[..n - 1]), AsVertex(points[n - 2]), crosses, exit, entry, AsVertex(points[n - 1]));
    }
  }

  /** The route vertices a split holds so far. */
  function Held(s: Split): seq<Vertex>
    requires s.current != [] && forall seg :: seg in s.done ==> |seg| >= 2
  {
    WithoutSeams(s.done) + s.current[if s.done == [] then 0 else 1..]
  }

  lemma ExtendedHoldsNext(s: Split, last: Vertex, crosses: bool, exit: Vertex, entry: Vertex, next: Vertex)
    requires Whole(s, last)
    requires Whole(s.Extended(crosses, exit, entry, next), next)
    ensures Held(s.Extended(crosses, exit, entry, next)) == Held(s) + [next]
  {
    if crosses {
      var closed := s.current + [exit];
      var from := if s.done == [] then 0 else 1;
      assert (s.done + [closed])[..|s.done|] == s.done;
      assert closed[from..|closed| - 1] == s.current[from..];
    }
  }

  ghost predicate Holds(s: Split, points: seq<Point>)
    requires points != []
  {
    Whole(s, AsVertex(points[|points| - 1])) && Held(s) == AsVertices(points)
  }

  lemma AsVerticesSnoc(points: seq<Point>)
    requires points != []
    ensures AsVertices(points) == AsVertices(points[..|points| - 1]) + [AsVertex(points[|points| - 1])]
  {
  }

  /** One more route vertex, the split so far given by its value. */
  lemma HoldsOneMore(s: Split, points: seq<Point>, crosses: bool, exit: Vertex, entry: Vertex)
    requires |points| >= 2 && Holds(s, points[..|points| - 1])
    requires Whole(s.Extended(crosses, exit, entry, AsVertex(points[|points| - 1])), AsVertex(points[|points| - 1]))
    ensures Holds(s.Extended(crosses, exit, entry, AsVertex(points[|points| - 1])), points)
  {
    ExtendedHoldsNext(s, AsVertex(points[|points| - 2]), crosses, exit, entry, AsVertex(points[|points| - 1]));
    AsVerticesSnoc(points);
  }

  lemma {:induction false} SplitHoldsRoute(points: seq<Point>)
    requires points != [] && forall k :: 0 <= k < |points| ==> InRange(points[k])
    ensures Holds(SplitUp(points), points)
  {
    SplitIsWhole(points);
    if |points| == 1 {
      HoldsFirst(points[0]);
      assert points == [points[0]];
    } else {
      SplitHoldsRoute(points[..|points| - 1]);
      var crosses, exit, entry := SplitGrows(points);
      HoldsOneMore(SplitUp(points[..|points| - 1]), points, crosses, exit, entry);
    }
  }

  lemma HoldsFirst(p: Point)
    ensures Held(Split([], [AsVertex(p)])) == AsVertices([p])
  {
  }

  /** Splitting loses nothing and invents nothing but the seams: for every route of at least two
      normalized points, dropping the seams and joining the segments gives back the route. */
  lemma SegmentsJoinToRoute(points: seq<Point>)
    requires |points| >= 2 && forall k :: 0 <= k < |points| ==> InRange(points[k])
    ensures var segments := SegmentsOf(points);
            && |segments| == Crossings(points) + 1
            && (forall seg :: seg in segments ==> |seg| >= 2 && NoCrossingInside(seg))
            && Joined(segments) == AsVertices(points)
  {
    OneMoreSegmentThanCrossings(points);
    SplitIsWhole(points);
    SplitHoldsRoute(points);
    var s := SplitUp(points);
    assert s.Segments()[..|s.done|] == s.done;
  }

  // ----- Where the segments are joined

  /** The crossings of the route after its first point, in order. */
  function CrossingsIn(points: seq<Point>): seq<nat> {
    var n := |points|;
    if n < 2 then []
    else CrossingsIn(points[..n - 1]) + if Crosses(points[n - 2], points[n - 1]) then [n - 2] else []
  }

  /** The next point's longitude is more than half a turn away. */
  predicate HalfTurn(points: seq<Point>, k: nat)
    requires k + 1 < |points|
  {
    points[k + 1].lng - points[k].lng > 180.0 || points[k].lng - points[k + 1].lng > 180.0
  }

  lemma HalfTurnInit(points: seq<Point>, init: seq<Point>)
    requires points != [] && init == points[..|points| - 1]
    ensures forall k: nat :: k + 1 < |init| ==> (HalfTurn(init, k) <==> HalfTurn(points, k))
  {
    forall k: nat | k + 1 < |init|
      ensures HalfTurn(init, k) <==> HalfTurn(points, k)
    {
      assert init[k] == points[k] && init[k + 1] == points[k + 1];
    }
  }

  /** Exactly these positions, in order. */
  lemma {:induction false} CrossingsInMean(points: seq<Point>)
    ensures Increasing(CrossingsIn(points)) && |CrossingsIn(points)| == Crossings(points)
    ensures forall k: nat :: k in CrossingsIn(points) <==> k + 1 < |points| && HalfTurn(points, k)
    ensures forall c :: 0 <= c < |CrossingsIn(points)| ==> CrossingsIn(points)[c] + 1 < |points|
  {
    var n := |points|;
    if n >= 2 {
      CrossingsInMean(points[..n - 1]);
      HalfTurnInit(points, points[..n - 1]);
      assert Crosses(points[n - 2], points[n - 1]) <==> HalfTurn(points, n - 2);
    }
  }

  /** At the c-th crossing of the route the c-th segment ends and the next one begins. */
  ghost predicate JoinedAt(s: Split, c: nat, exit: Vertex, entry: Vertex) {
    && c < |s.done| && s.done[c] != [] && s.done[c][|s.done[c]| - 1] == exit
    && (if c + 1 < |s.done| then s.done[c + 1] != [] && s.done[c + 1][0] == entry else s.current != [] && s.current[0] == entry)
  }

  lemma JoinedAtStays(s: Split, c: nat, exit: Vertex, entry: Vertex, crosses: bool, exit': Vertex, entry': Vertex, next: Vertex)
    requires JoinedAt(s, c, exit, entry)
    ensures JoinedAt(s.Extended(crosses, exit', entry', next), c, exit, entry)
  {
  }

  lemma JoinedAtNew(s: Split, exit: Vertex, entry: Vertex, next: Vertex)
    requires s.current != []
    ensures JoinedAt(s.Extended(true, exit, entry, next), |s.done|, exit, entry)
  {
  }

  lemma {:induction false} SplitJoinsAtCrossings(points: seq<Point>, c: nat)
    requires points != [] && c < |CrossingsIn(points)| && forall k :: 0 <= k < |points| ==> InRange(points[k])
    ensures CrossingsIn(points)[c] + 1 < |points| && |SplitUp(points).done| == |CrossingsIn(points)|
    ensures var k := CrossingsIn(points)[c];
            JoinedAt(SplitUp(points), c, ExitSeam(points[k], points[k + 1]), EntrySeam(points[k], points[k + 1]))
  {
    var n := |points|;
    var init, a, b := points[..n - 1], points[n - 2], points[n - 1];
    CrossingsInMean(points);
    CrossingsInMean(init);
    OneMoreSegmentThanCrossings(init);
    OneMoreSegmentThanCrossings(points);
    var s := SplitUp(init);
    if c < |CrossingsIn(init)| {
      SplitJoinsAtCrossings(init, c);
      var k := CrossingsIn(init)[c];
      JoinedAtStays(s, c, ExitSeam(points[k], points[k + 1]), EntrySeam(points[k], points[k + 1]),
                    Crosses(a, b), ExitSeam(a, b), EntrySeam(a, b), AsVertex(b));
    } else {
      SplitIsWhole(init);
      JoinedAtNew(s, ExitSeam(a, b), EntrySeam(a, b), AsVertex(b));
    }
  }

  /** Between two neighbouring segments stands the crossing of the same number: the earlier one ends and the
      later one begins at the seam vertices of that pair. */
  lemma SegmentsMeetAtSeams(points: seq<Point>, c: nat)
    requires |points| >= 2 && c < |CrossingsIn(points)| && forall k :: 0 <= k < |points| ==> InRange(points[k])
    ensures CrossingsIn(points)[c] + 1 < |points| && |SegmentsOf(points)| == |CrossingsIn(points)| + 1
    ensures var segments, k := SegmentsOf(points), CrossingsIn(points)[c];
            && segments[c] != [] && segments[c][|segments[c]| - 1] == ExitSeam(points[k], points[k + 1])
            && segments[c + 1] != [] && segments[c + 1][0] == EntrySeam(points[k], points[k + 1])
  {
    SplitJoinsAtCrossings(points, c);
  }

  // ----- Longitude travelled

  /** Signed longitude covered by drawing a segment. */
  function Travel(segment: seq<Vertex>): real {
    var n := |segment|;
    if n < 2 then 0.0
    else Travel(segment[..n - 1]) + (segment[n - 1].lng - segment[n - 2].lng)
  }

  function TotalTravel(segments: seq<seq<Vertex>>): real {
    if segments == [] then 0.0
    else TotalTravel(segments[..|segments| - 1]) + Travel(segments[|segments| - 1])
  }

  /** A longitude difference taken the short way round. */
  function Wrap(d: real): real {
    if d > 180.0 then d - 360.0 else if d < -180.0 then d + 360.0 else d
  }

  function WrappedTravel(points: seq<Point>): real {
    var n := |points|;
    if n < 2 then 0.0
    else WrappedTravel(points[..n - 1]) + Wrap(points[n - 1].lng - points[n - 2].lng)
  }

  lemma TravelSnoc(segment: seq<Vertex>, v: Vertex)
    requires segment != []
    ensures Travel(segment + [v]) == Travel(segment) + (v.lng - segment[|segment| - 1].lng)
  {
    assert (segment + [v])[..|segment|] == segment;
  }

  lemma TotalTravelSnoc(segments: seq<seq<Vertex>>, segment: seq<Vertex>)
    ensures TotalTravel(segments + [segment]) == TotalTravel(segments) + Travel(segment)
  {
    assert (segments + [segment])[..|segments|] == segments;
  }

  lemma ExtendedTravel(s: Split, last: Vertex, crosses: bool, exit: Vertex, entry: Vertex, next: Vertex)
    requires Whole(s, last)
    ensures TotalTravel(s.Extended(crosses, exit, entry, next).Segments()) ==
            TotalTravel(s.Segments()) +
            if crosses then (exit.lng - last.lng) + (next.lng - entry.lng) else next.lng - last.lng
  {
    TotalTravelSnoc(s.done, s.current);
    if crosses {
      TravelSnoc(s.current, exit);
      TravelSnoc([entry], next);
      TotalTravelSnoc(s.done, s.current + [exit]);
      TotalTravelSnoc(s.done + [s.current + [exit]], [entry, next]);
    } else {
      TravelSnoc(s.current, next);
      TotalTravelSnoc(s.done, s.current + [next]);
    }
  }

  /** Conservation: the signed longitude covered by all segments is the sum of the short-way differences
      between the route's neighbouring points. */
  lemma {:induction false} TravelIsConserved(points: seq<Point>)
    requires points != [] && forall k :: 0 <= k < |points| ==> InRange(points[k])
    ensures TotalTravel(SplitUp(points).Segments()) == WrappedTravel(points)
  {
    var n := |points|;
    if n == 1 {
      TotalTravelSnoc([], SplitUp(points).current);
    } else {
      TravelIsConserved(points[..n - 1]);
      SplitIsWhole(points[..n - 1]);
      var crosses, exit, entry := SplitGrows(points);
      ExtendedTravel(SplitUp(points[..n - 1]), AsVertex(points[n - 2]), crosses, exit, entry, AsVertex(points[n - 1]));
    }
  }
}
