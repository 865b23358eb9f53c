/** frontend/src/springs.ts: turning a route matrix into springs whose rest
    length says how slow each route is compared with the average, and one
    relaxation step of the spring system over the mesh's vertex positions. */
module Springs {
  import opened Wrappers
  import opened Reals
  import opened Strings
  import opened Dataset
  import opened Mesh

  /** A spring between two vertex indices. */
  datatype Spring = Spring(from: int, to: int, length: real, strength: real)

  /** The conditions under which `routeMatrixToSprings` throws, each carrying
      the entry that caused it. `UnparsableDuration` and `MissingLocation`
      stand for the cases where the source goes on with `NaN` or fails on an
      `undefined` lookup. */
  datatype SpringError =
    | MissingSecondsSuffix(entry: RouteMatrixEntry)
    | UnparsableDuration(entry: RouteMatrixEntry)
    | ZeroDuration(entry: RouteMatrixEntry)
    | MissingLocation(entry: RouteMatrixEntry)
    | ZeroSphericalDistance(entry: RouteMatrixEntry)

  /** A route-matrix entry with the quantities derived from it. */
  datatype MeasuredRoute = MeasuredRoute(
    entry: RouteMatrixEntry,
    durationSeconds: int,
    metersPerSecond: real,
    sphericalDistanceMeters: real)

  /** The distance between two points on the globe, in meters (the haversine
      formula of `getSphericalDistance`, which is left abstract). */
  type SphericalDistance = (LatLng, LatLng) -> real

  // ---------------------------------------------------------------------
  // Filtering

  function Filter<T>(s: seq<T>, p: T -> bool): (r: seq<T>)
    ensures |r| <= |s|
  {
    if |s| == 0 then []
    else (if p(s[0]) then [s[0]] else []) + Filter(s[1..], p)
  }

  lemma {:induction false} FilterMembership<T>(s: seq<T>, p: T -> bool, x: T)
    ensures x in Filter(s, p) <==> x in s && p(x)
  {
    if |s| > 0 {
      FilterMembership(s[1..], p, x);
      assert s == [s[0]] + s[1..];
    }
  }

  /** Filtering keeps the order: it distributes over concatenation. */
  lemma {:induction false} FilterConcat<T>(a: seq<T>, b: seq<T>, p: T -> bool)
    ensures Filter(a + b, p) == Filter(a, p) + Filter(b, p)
  {
    if |a| > 0 {
      assert (a + b)[1..] == a[1..] + b;
      FilterConcat(a[1..], b, p);
    } else {
      assert a + b == b;
    }
  }

  lemma {:induction false} FilterTwice<T>(s: seq<T>, p: T -> bool, q: T -> bool, both: T -> bool)
    requires forall x :: both(x) == (p(x) && q(x))
    ensures Filter(Filter(s, p), q) == Filter(s, both)
  {
    if |s| > 0 {
      FilterTwice(s[1..], p, q, both);
      FilterConcat(if p(s[0]) then [s[0]] else [], Filter(s[1..], p), q);
    }
  }

  /** The first filter: a route exists and joins two different locations. */
  predicate Routable(e: RouteMatrixEntry) {
    e.condition == "ROUTE_EXISTS" && e.originIndex != e.destinationIndex
  }

  /** The second filter: durations of exactly "0s" are skipped. */
  predicate NonZeroDuration(e: RouteMatrixEntry) {
    e.duration != "0s"
  }

  predicate KeptRoute(e: RouteMatrixEntry) {
    Routable(e) && NonZeroDuration(e)
  }

  function CandidateRoutes(rm: seq<RouteMatrixEntry>): seq<RouteMatrixEntry> {
    Filter(Filter(rm, Routable), NonZeroDuration)
  }

  /** An entry takes part exactly when it is routable and its duration is
      not "0s"; candidates keep the matrix order. */
  lemma CandidateRoutesSpec(rm: seq<RouteMatrixEntry>, a: seq<RouteMatrixEntry>, b: seq<RouteMatrixEntry>)
    ensures forall e :: e in CandidateRoutes(rm) <==> e in rm && Routable(e) && e.duration != "0s"
    ensures CandidateRoutes(a + b) == CandidateRoutes(a) + CandidateRoutes(b)
  {
    FilterTwice(rm, Routable, NonZeroDuration, KeptRoute);
    forall e ensures e in CandidateRoutes(rm) <==> e in rm && Routable(e) && e.duration != "0s" {
      FilterMembership(rm, KeptRoute, e);
    }
    FilterConcat(a, b, Routable);
    FilterConcat(Filter(a, Routable), Filter(b, Routable), NonZeroDuration);
  }

  /** A "0s" entry is skipped silently: inserting one anywhere changes
      neither the candidates nor, therefore, the springs or the errors. */
  lemma ZeroSecondsSkipped(a: seq<RouteMatrixEntry>, e: RouteMatrixEntry, b: seq<RouteMatrixEntry>)
    requires e.duration == "0s"
    ensures CandidateRoutes(a + [e] + b) == CandidateRoutes(a + b)
  {
    CandidateRoutesSpec([], a + [e], b);
    CandidateRoutesSpec([], a, [e]);
    CandidateRoutesSpec([], a, b);
  }

  // ---------------------------------------------------------------------
  // nLocations

  function Max3(a: int, b: int, c: int): int {
    if a >= b && a >= c then a else if b >= c then b else c
  }

  /** The `reduce` over the route matrix, folding from the left. */
  function MaxIndex(rm: seq<RouteMatrixEntry>, acc: int): (m: int)
    ensures m >= acc
  {
    if |rm| == 0 then acc
    else MaxIndex(rm[1..], Max3(acc, rm[0].originIndex, rm[0].destinationIndex))
  }

  function NLocations(rm: seq<RouteMatrixEntry>): (n: int)
    ensures n >= 1
  {
    MaxIndex(rm, 0) + 1
  }

  lemma {:induction false} MaxIndexSpec(rm: seq<RouteMatrixEntry>, acc: int)
    ensures forall k :: 0 <= k < |rm| ==>
      rm[k].originIndex <= MaxIndex(rm, acc) && rm[k].destinationIndex <= MaxIndex(rm, acc)
    ensures MaxIndex(rm, acc) == acc ||
            exists k :: 0 <= k < |rm| &&
              (rm[k].originIndex == MaxIndex(rm, acc) || rm[k].destinationIndex == MaxIndex(rm, acc))
  {
    if |rm| > 0 {
      var acc' := Max3(acc, rm[0].originIndex, rm[0].destinationIndex);
      MaxIndexSpec(rm[1..], acc');
      var m := MaxIndex(rm, acc);
      assert m == MaxIndex(rm[1..], acc');
      forall k | 1 <= k < |rm|
        ensures rm[k].originIndex <= m && rm[k].destinationIndex <= m
      {
        assert rm[k] == rm[1..][k - 1];
      }
      if m != acc && m != acc' {
        var j :| 0 <= j < |rm[1..]| &&
          (rm[1..][j].originIndex == m || rm[1..][j].destinationIndex == m);
        assert rm[j + 1] == rm[1..][j];
      }
    }
  }

  /** `nLocations` is one more than the largest index mentioned by the matrix
      (and 1 for a matrix mentioning only non-positive indices). */
  lemma NLocationsSpec(rm: seq<RouteMatrixEntry>)
    ensures forall k :: 0 <= k < |rm| ==>
      rm[k].originIndex < NLocations(rm) && rm[k].destinationIndex < NLocations(rm)
    ensures NLocations(rm) == 1 ||
            exists k :: 0 <= k < |rm| &&
              (rm[k].originIndex == NLocations(rm) - 1 || rm[k].destinationIndex == NLocations(rm) - 1)
  {
    MaxIndexSpec(rm, 0);
  }

  // ---------------------------------------------------------------------
  // Measuring one route

  /** The number of seconds a duration string gives: `parseInt` of the text
      before its first "s". */
  function DurationSeconds(d: string): Option<int> {
    JsParseInt(Split(d, 's')[0])
  }

  /** A duration written "<n>s" reads as n seconds. */
  lemma DurationSecondsOfNumeral(n: nat)
    ensures DurationSeconds(NatToString(n) + "s") == Some(n)
  {
    var digits := NatToString(n);
    assert 's' !in digits;
    SplitAtFirst(digits, [], 's');
    assert digits + ['s'] + [] == digits + "s";
    JsParseIntOfNumeral(n);
  }

  /** The `map` callback on one candidate entry: the duration must end in
      "s", the text before the first "s" must parse to a non-zero number of
      seconds, both locations must exist and be a non-zero distance apart. */
  function Measure(gd: GridData, e: RouteMatrixEntry, sph: SphericalDistance): (r: Result<MeasuredRoute, SpringError>)
    ensures r.Failure? ==> r.error.entry == e
    ensures r.Success? ==>
      r.value.entry == e && r.value.durationSeconds != 0 && r.value.sphericalDistanceMeters != 0.0 &&
      r.value.metersPerSecond != 0.0 &&
      r.value.metersPerSecond == r.value.sphericalDistanceMeters / (r.value.durationSeconds as real)
  {
    var d := e.duration;
    if |d| == 0 || d[|d| - 1] != 's' then Failure(MissingSecondsSuffix(e))
    else match DurationSeconds(d)
      case None => Failure(UnparsableDuration(e))
      case Some(seconds) =>
        if seconds == 0 then Failure(ZeroDuration(e))
        else if !(0 <= e.originIndex < |gd.locations|) || !(0 <= e.destinationIndex < |gd.locations|) then
          Failure(MissingLocation(e))
        else
          var distance := sph(gd.locations[e.originIndex].snappedLocation,
                              gd.locations[e.destinationIndex].snappedLocation);
          if distance == 0.0 then Failure(ZeroSphericalDistance(e))
          else
            QuotientNonZero(distance, seconds as real);
            Success(MeasuredRoute(e, seconds, distance / (seconds as real), distance))
  }

  /** A duration written "<n>s" with n > 0, between two listed locations that
      are apart, is measured at n seconds. */
  lemma MeasureOfSeconds(gd: GridData, e: RouteMatrixEntry, sph: SphericalDistance, n: nat)
    requires e.duration == NatToString(n) + "s" && n > 0
    requires 0 <= e.originIndex < |gd.locations| && 0 <= e.destinationIndex < |gd.locations|
    requires sph(gd.locations[e.originIndex].snappedLocation,
                 gd.locations[e.destinationIndex].snappedLocation) != 0.0
    ensures Measure(gd, e, sph).Success?
    ensures Measure(gd, e, sph).value.durationSeconds == n
  {
    DurationSecondsOfNumeral(n);
    assert e.duration[|e.duration| - 1] == 's';
  }

  /** Measures every candidate entry in order; the first failure wins. */
  function MeasureAll(gd: GridData, es: seq<RouteMatrixEntry>, sph: SphericalDistance): (r: Result<seq<MeasuredRoute>, SpringError>)
    ensures r.Success? ==> |r.value| == |es|
    ensures r.Success? ==> forall k :: 0 <= k < |es| ==>
      r.value[k].entry == es[k] && r.value[k].metersPerSecond != 0.0
  {
    if |es| == 0 then Success([])
    else match Measure(gd, es[0], sph)
      case Failure(err) => Failure(err)
      case Success(m) =>
        match MeasureAll(gd, es[1..], sph)
        case Failure(err) => Failure(err)
        case Success(ms) =>
          MeasuredCons(m, ms, es);
          Success([m] + ms)
  }

  /** Putting the first entry's route in front of the rest's keeps every
      route with its entry. */
  lemma MeasuredCons(m: MeasuredRoute, ms: seq<MeasuredRoute>, es: seq<RouteMatrixEntry>)
    requires |es| > 0 && m.entry == es[0] && m.metersPerSecond != 0.0 && |ms| == |es| - 1
    requires forall k :: 0 <= k < |ms| ==> ms[k].entry == es[1..][k] && ms[k].metersPerSecond != 0.0
    ensures |[m] + ms| == |es|
    ensures forall k :: 0 <= k < |es| ==> ([m] + ms)[k].entry == es[k] && ([m] + ms)[k].metersPerSecond != 0.0
  {
    assert forall k :: 1 <= k < |es| ==> es[k] == es[1..][k - 1] && ([m] + ms)[k] == ms[k - 1];
  }

  /** On success, the k-th measured route is what measuring the k-th entry
      gives. */
  lemma {:induction false} MeasureAllSuccess(gd: GridData, es: seq<RouteMatrixEntry>, sph: SphericalDistance)
    requires MeasureAll(gd, es, sph).Success?
    ensures forall k :: 0 <= k < |es| ==> Measure(gd, es[k], sph) == Success(MeasureAll(gd, es, sph).value[k])
  {
    if |es| > 0 {
      var first, rest := Measure(gd, es[0], sph), MeasureAll(gd, es[1..], sph);
      assert first.Success? && rest.Success?;
      MeasureAllSuccess(gd, es[1..], sph);
      var r := MeasureAll(gd, es, sph).value;
      assert r == [first.value] + rest.value;
      forall k | 0 <= k < |es| ensures Measure(gd, es[k], sph) == Success(r[k]) {
        if k > 0 {
          assert es[k] == es[1..][k - 1];
          assert r[k] == rest.value[k - 1];
        }
      }
    }
  }

  /** Measuring fails exactly when some entry fails, and it reports the
      error of the first entry that fails. */
  lemma MeasureAllFailure(gd: GridData, es: seq<RouteMatrixEntry>, sph: SphericalDistance)
    ensures MeasureAll(gd, es, sph).Failure? <==>
      exists k :: 0 <= k < |es| && Measure(gd, es[k], sph).Failure?
    ensures MeasureAll(gd, es, sph).Failure? ==>
      exists k :: 0 <= k < |es| && Measure(gd, es[k], sph) == Failure(MeasureAll(gd, es, sph).error) &&
        forall j :: 0 <= j < k ==> Measure(gd, es[j], sph).Success?
  {
    MeasureAllFailsAtFirst(gd, es, sph);
    if exists k :: 0 <= k < |es| && Measure(gd, es[k], sph).Failure? {
      var k :| 0 <= k < |es| && Measure(gd, es[k], sph).Failure?;
      MeasureAllFailsAt(gd, es, sph, k);
    }
  }

  /** A failure of the whole is the failure of the first failing entry. */
  lemma {:induction false} MeasureAllFailsAtFirst(gd: GridData, es: seq<RouteMatrixEntry>, sph: SphericalDistance)
    ensures MeasureAll(gd, es, sph).Failure? ==>
      exists k :: 0 <= k < |es| && Measure(gd, es[k], sph) == Failure(MeasureAll(gd, es, sph).error) &&
        forall j :: 0 <= j < k ==> Measure(gd, es[j], sph).Success?
  {
    if |es| > 0 && Measure(gd, es[0], sph).Success? && MeasureAll(gd, es[1..], sph).Failure? {
      MeasureAllFailsAtFirst(gd, es[1..], sph);
      var k :| 0 <= k < |es[1..]| && Measure(gd, es[1..][k], sph) == Failure(MeasureAll(gd, es[1..], sph).error) &&
        forall j :: 0 <= j < k ==> Measure(gd, es[1..][j], sph).Success?;
      assert es[k + 1] == es[1..][k];
      forall j | 0 <= j < k + 1 ensures Measure(gd, es[j], sph).Success? {
        if j > 0 { assert es[j] == es[1..][j - 1]; }
      }
    }
  }

  /** One failing entry makes the whole fail. */
  lemma {:induction false} MeasureAllFailsAt(gd: GridData, es: seq<RouteMatrixEntry>, sph: SphericalDistance, k: int)
    requires 0 <= k < |es| && Measure(gd, es[k], sph).Failure?
    ensures MeasureAll(gd, es, sph).Failure?
  {
    if k > 0 && Measure(gd, es[0], sph).Success? {
      assert es[1..][k - 1] == es[k];
      MeasureAllFailsAt(gd, es[1..], sph, k - 1);
    }
  }

  // ---------------------------------------------------------------------
  // The springs

  function SpeedSum(routes: seq<MeasuredRoute>): real {
    if |routes| == 0 then 0.0
    else SpeedSum(routes[..|routes| - 1]) + routes[|routes| - 1].metersPerSecond
  }

  function AverageSpeed(routes: seq<MeasuredRoute>): real
    requires |routes| > 0
  {
    SpeedSum(routes) / (|routes| as real)
  }

  /** `routeMatrixToSprings`: one spring per candidate entry, whose rest
      length is the average speed over the route's own speed (slow routes
      are long springs) and whose strength is 0.1 / nLocations. With no
      candidate at all there are no springs. */
  function RouteMatrixToSprings(gd: GridData, sph: SphericalDistance): Result<seq<Spring>, SpringError> {
    match MeasureAll(gd, CandidateRoutes(gd.routeMatrix), sph)
    case Failure(err) => Failure(err)
    case Success(routes) =>
      if |routes| == 0 then Success([])
      else Success(SpringsOf(routes, NLocations(gd.routeMatrix)))
  }

  /** The final `map` from measured routes to springs. */
  function SpringsOf(routes: seq<MeasuredRoute>, nLocations: int): seq<Spring>
    requires |routes| > 0 && nLocations >= 1
    requires forall k :: 0 <= k < |routes| ==> routes[k].metersPerSecond != 0.0
  {
    var averageSpeed := AverageSpeed(routes);
    seq(|routes|, k requires 0 <= k < |routes| =>
      Spring(routes[k].entry.originIndex, routes[k].entry.destinationIndex,
             averageSpeed / routes[k].metersPerSecond, 0.1 / (nLocations as real)))
  }

  lemma SpringsOfShape(routes: seq<MeasuredRoute>, nLocations: int)
    requires |routes| > 0 && nLocations >= 1
    requires forall k :: 0 <= k < |routes| ==> routes[k].metersPerSecond != 0.0
    ensures SpringsFollowRoutes(SpringsOf(routes, nLocations), routes, nLocations)
  {
    var springs := SpringsOf(routes, nLocations);
    forall k | 0 <= k < |routes|
      ensures springs[k].length * routes[k].metersPerSecond == AverageSpeed(routes)
    {
      QuotientTimes(AverageSpeed(routes), routes[k].metersPerSecond);
    }
  }

  /** One spring per route, in order, joining the route's origin to its
      destination, with strength 0.1 / nLocations, and with rest length times
      the route's speed equal to the average speed. */
  predicate SpringsFollowRoutes(springs: seq<Spring>, routes: seq<MeasuredRoute>, nLocations: int)
    requires nLocations >= 1 && |routes| > 0
  {
    |springs| == |routes| &&
    forall k :: 0 <= k < |routes| ==>
      springs[k].from == routes[k].entry.originIndex && springs[k].to == routes[k].entry.destinationIndex &&
      springs[k].strength == 0.1 / (nLocations as real) &&
      springs[k].length * routes[k].metersPerSecond == AverageSpeed(routes)
  }

  /** On success, either there is no candidate entry and no spring, or the
      springs follow the measured candidates (which are the candidate
      entries, in matrix order). */
  lemma RouteSpringsShape(gd: GridData, sph: SphericalDistance, routes: seq<MeasuredRoute>)
    requires MeasureAll(gd, CandidateRoutes(gd.routeMatrix), sph) == Success(routes)
    ensures RouteMatrixToSprings(gd, sph).Success?
    ensures |routes| == |CandidateRoutes(gd.routeMatrix)|
    ensures forall k :: 0 <= k < |routes| ==> routes[k].entry == CandidateRoutes(gd.routeMatrix)[k]
    ensures |routes| == 0 ==> RouteMatrixToSprings(gd, sph).value == []
    ensures |routes| > 0 ==>
      SpringsFollowRoutes(RouteMatrixToSprings(gd, sph).value, routes, NLocations(gd.routeMatrix))
  {
    if |routes| > 0 {
      SpringsOfShape(routes, NLocations(gd.routeMatrix));
    }
  }

  /** A measured route joins two listed locations. */
  lemma MeasuredEndpointsListed(gd: GridData, e: RouteMatrixEntry, sph: SphericalDistance)
    requires Measure(gd, e, sph).Success?
    ensures 0 <= e.originIndex < |gd.locations| && 0 <= e.destinationIndex < |gd.locations|
  {
  }

  /** Every spring built joins two listed locations. */
  lemma RouteSpringsInRange(gd: GridData, sph: SphericalDistance)
    requires RouteMatrixToSprings(gd, sph).Success?
    ensures SpringsWithin(RouteMatrixToSprings(gd, sph).value, |gd.locations|)
  {
    var cs := CandidateRoutes(gd.routeMatrix);
    var mr := MeasureAll(gd, cs, sph);
    assert mr.Success?;
    RouteSpringsShape(gd, sph, mr.value);
    MeasureAllSuccess(gd, cs, sph);
    forall k | 0 <= k < |cs| ensures 0 <= cs[k].originIndex < |gd.locations| && 0 <= cs[k].destinationIndex < |gd.locations| {
      MeasuredEndpointsListed(gd, cs[k], sph);
    }
  }

  /** The springs are built exactly when every candidate entry measures,
      and otherwise the error is that of the first candidate that fails. */
  lemma RouteSpringsFailure(gd: GridData, sph: SphericalDistance)
    ensures var cs := CandidateRoutes(gd.routeMatrix);
      RouteMatrixToSprings(gd, sph).Failure? <==>
        exists k :: 0 <= k < |cs| && Measure(gd, cs[k], sph).Failure?
    ensures var cs := CandidateRoutes(gd.routeMatrix);
      RouteMatrixToSprings(gd, sph).Failure? ==>
        exists k :: 0 <= k < |cs| && Measure(gd, cs[k], sph) == Failure(RouteMatrixToSprings(gd, sph).error) &&
          forall j :: 0 <= j < k ==> Measure(gd, cs[j], sph).Success?
  {
    MeasureAllFailure(gd, CandidateRoutes(gd.routeMatrix), sph);
  }

  /** A route driven at exactly the average speed has rest length 1, a
      slower one (same direction of travel) a rest length above 1. */
  lemma SlowRoutesAreLong(routes: seq<MeasuredRoute>, k: int)
    requires 0 <= k < |routes| && routes[k].metersPerSecond != 0.0
    ensures routes[k].metersPerSecond == AverageSpeed(routes) ==>
      AverageSpeed(routes) / routes[k].metersPerSecond == 1.0
    ensures 0.0 < routes[k].metersPerSecond < AverageSpeed(routes) ==>
      AverageSpeed(routes) / routes[k].metersPerSecond > 1.0
  {
  }

  function SpeedRatioSum(routes: seq<MeasuredRoute>, average: real): real
    requires average != 0.0
  {
    if |routes| == 0 then 0.0
    else SpeedRatioSum(routes[..|routes| - 1], average) + routes[|routes| - 1].metersPerSecond / average
  }

  lemma {:induction false} SpeedRatioSumValue(routes: seq<MeasuredRoute>, average: real)
    requires average != 0.0
    ensures SpeedRatioSum(routes, average) == SpeedSum(routes) / average
  {
    if |routes| > 0 {
      SpeedRatioSumValue(routes[..|routes| - 1], average);
    }
  }

  /** Lengths are normalised by the average speed: the reciprocals of the
      rest lengths (each route's speed over the average) sum to the number
      of routes. */
  lemma ReciprocalLengthsSumToCount(routes: seq<MeasuredRoute>)
    requires |routes| > 0 && AverageSpeed(routes) != 0.0
    ensures SpeedRatioSum(routes, AverageSpeed(routes)) == |routes| as real
  {
    SpeedRatioSumValue(routes, AverageSpeed(routes));
  }

  /** The filtering example: a "0s" entry and a "120s" entry, both routable,
      give exactly one spring, for the "120s" entry. */
  lemma RouteFilteringExample(gd: GridData, sph: SphericalDistance, skipped: RouteMatrixEntry, kept: RouteMatrixEntry)
    requires gd.routeMatrix == [skipped, kept]
    requires Routable(skipped) && skipped.duration == "0s"
    requires Routable(kept) && kept.duration == "120s"
    requires 0 <= kept.originIndex < |gd.locations| && 0 <= kept.destinationIndex < |gd.locations|
    requires sph(gd.locations[kept.originIndex].snappedLocation,
                 gd.locations[kept.destinationIndex].snappedLocation) != 0.0
    ensures RouteMatrixToSprings(gd, sph).Success?
    ensures |RouteMatrixToSprings(gd, sph).value| == 1
    ensures RouteMatrixToSprings(gd, sph).value[0].from == kept.originIndex
    ensures RouteMatrixToSprings(gd, sph).value[0].to == kept.destinationIndex
  {
    ZeroSecondsSkipped([], skipped, [kept]);
    assert [] + [skipped] + [kept] == gd.routeMatrix;
    assert CandidateRoutes(gd.routeMatrix) == [kept];
    assert NatToString(120) + "s" == "120s";
    MeasureOfSeconds(gd, kept, sph, 120);
    assert MeasureAll(gd, [kept][1..], sph) == Success([]);
  }

  // ---------------------------------------------------------------------
  // One relaxation step

  datatype Vec = Vec(x: real, y: real)

  /** `(cos atan2(dy, dx), sin atan2(dy, dx))` for a vector of length d:
      the unit vector along it, and (1, 0) for the zero vector. */
  function Direction(dx: real, dy: real, d: real): Vec {
    if d == 0.0 then Vec(1.0, 0.0) else Vec(dx / d, dy / d)
  }

  predicate SpringsWithin(springs: seq<Spring>, n: int) {
    forall k :: 0 <= k < |springs| ==> 0 <= springs[k].from < n && 0 <= springs[k].to < n
  }

  /** The current length of a spring: the Euclidean distance between its ends. */
  function SpringDistance(ms: seq<Vertex>, s: Spring, sqrt: real -> real): real
    requires 0 <= s.from < |ms| && 0 <= s.to < |ms|
  {
    Euclid(ms[s.from].x - ms[s.to].x, ms[s.from].y - ms[s.to].y, sqrt)
  }

  /** `Math.sqrt(dx * dx + dy * dy)`, with the square root left abstract. */
  function Euclid(dx: real, dy: real, sqrt: real -> real): real {
    sqrt(dx * dx + dy * dy)
  }

  /** The displacement one spring applies to its `from` end (its `to` end
      gets the opposite), computed from positions before the step. */
  function Push(ms: seq<Vertex>, s: Spring, deltaSeconds: real, sqrt: real -> real): Vec
    requires 0 <= s.from < |ms| && 0 <= s.to < |ms|
  {
    var from := ms[s.from];
    var to := ms[s.to];
    var distance := SpringDistance(ms, s, sqrt);
    var force := (distance - s.length) * s.strength * deltaSeconds;
    var dir := Direction(to.x - from.x, to.y - from.y, distance);
    Vec(dir.x * force, dir.y * force)
  }

  /** What one spring adds to vertex i's displacement. */
  function Share(ms: seq<Vertex>, s: Spring, i: int, deltaSeconds: real, sqrt: real -> real): Vec
    requires 0 <= s.from < |ms| && 0 <= s.to < |ms|
  {
    var p := Push(ms, s, deltaSeconds, sqrt);
    var a := if s.from == i then p else Vec(0.0, 0.0);
    var b := if s.to == i then p else Vec(0.0, 0.0);
    Vec(a.x - b.x, a.y - b.y)
  }

  /** The total displacement the springs apply to vertex i. */
  function Displacement(ms: seq<Vertex>, springs: seq<Spring>, i: int, deltaSeconds: real, sqrt: real -> real): Vec
    requires SpringsWithin(springs, |ms|)
  {
    if |springs| == 0 then Vec(0.0, 0.0)
    else
      var d := Displacement(ms, springs[..|springs| - 1], i, deltaSeconds, sqrt);
      var s := Share(ms, springs[|springs| - 1], i, deltaSeconds, sqrt);
      Vec(d.x + s.x, d.y + s.y)
  }

  /** The state after one step: every free vertex moved by its displacement,
      pinned vertices left where they are. */
  function Stepped(ms: seq<Vertex>, springs: seq<Spring>, deltaSeconds: real, sqrt: real -> real): seq<Vertex>
    requires SpringsWithin(springs, |ms|)
  {
    seq(|ms|, i requires 0 <= i < |ms| =>
      var d := Displacement(ms, springs, i, deltaSeconds, sqrt);
      if ms[i].pinned then ms[i] else Vertex(ms[i].x + d.x, ms[i].y + d.y, false))
  }

  /** The per-vertex accumulator of `stepSprings`. */
  datatype Accumulator = Accumulator(x: real, y: real, dx: real, dy: real, pinned: bool)

  /** The accumulators once the given springs have been applied: positions
      as before the step, displacements summed. */
  function Accumulated(ms: seq<Vertex>, springs: seq<Spring>, deltaSeconds: real, sqrt: real -> real): seq<Accumulator>
    requires SpringsWithin(springs, |ms|)
  {
    seq(|ms|, i requires 0 <= i < |ms| =>
      var d := Displacement(ms, springs, i, deltaSeconds, sqrt);
      Accumulator(ms[i].x, ms[i].y, d.x, d.y, ms[i].pinned))
  }

  /** Adding a spring's push to its `from` end and taking it from its `to` end. */
  function AddPush(acc: seq<Accumulator>, s: Spring, p: Vec): seq<Accumulator>
    requires 0 <= s.from < |acc| && 0 <= s.to < |acc|
  {
    var afterFrom := acc[s.from := acc[s.from].(dx := acc[s.from].dx + p.x, dy := acc[s.from].dy + p.y)];
    afterFrom[s.to := afterFrom[s.to].(dx := afterFrom[s.to].dx - p.x, dy := afterFrom[s.to].dy - p.y)]
  }

  lemma AccumulateOne(ms: seq<Vertex>, springs: seq<Spring>, s: Spring, deltaSeconds: real, sqrt: real -> real)
    requires SpringsWithin(springs, |ms|) && 0 <= s.from < |ms| && 0 <= s.to < |ms|
    ensures SpringsWithin(springs + [s], |ms|)
    ensures Accumulated(ms, springs + [s], deltaSeconds, sqrt) ==
      AddPush(Accumulated(ms, springs, deltaSeconds, sqrt), s, Push(ms, s, deltaSeconds, sqrt))
  {
    assert (springs + [s])[..|springs|] == springs;
    assert forall k :: 0 <= k < |springs| ==> (springs + [s])[k] == springs[k];
  }

  /** Accumulating leaves every vertex's position as it was, so a spring's
      push can be read off the accumulators. */
  lemma PushFromState(ms: seq<Vertex>, springs: seq<Spring>, s: Spring, deltaSeconds: real, sqrt: real -> real)
    requires SpringsWithin(springs, |ms|) && 0 <= s.from < |ms| && 0 <= s.to < |ms|
    ensures var st := Accumulated(ms, springs, deltaSeconds, sqrt);
      var from, to := st[s.from], st[s.to];
      var distance := Euclid(from.x - to.x, from.y - to.y, sqrt);
      var force := (distance - s.length) * s.strength * deltaSeconds;
      var dir := Direction(to.x - from.x, to.y - from.y, distance);
      Push(ms, s, deltaSeconds, sqrt) == Vec(dir.x * force, dir.y * force)
  {
    var st := Accumulated(ms, springs, deltaSeconds, sqrt);
    assert st[s.from].x == ms[s.from].x && st[s.from].y == ms[s.from].y;
    assert st[s.to].x == ms[s.to].x && st[s.to].y == ms[s.to].y;
  }

  /** `stepSprings`: accumulate every spring's push into the two ends, then
      move the free vertices. */
  method StepSprings(meshState: seq<Vertex>, springs: seq<Spring>, deltaSeconds: real, sqrt: real -> real)
    returns (next: seq<Vertex>)
    requires SpringsWithin(springs, |meshState|)
    ensures next == Stepped(meshState, springs, deltaSeconds, sqrt)
  {
    var n := |meshState|;
    var state := seq(n, i requires 0 <= i < n =>
      Accumulator(meshState[i].x, meshState[i].y, 0.0, 0.0, meshState[i].pinned));
    assert springs[..0] == [];
    var k := 0;
    while k < |springs|
      invariant 0 <= k <= |springs|
      invariant state == Accumulated(meshState, springs[..k], deltaSeconds, sqrt)
    {
      assert springs[..k + 1] == springs[..k] + [springs[k]];
      state := ApplySpring(meshState, springs[..k], springs[k], state, deltaSeconds, sqrt);
      k := k + 1;
    }
    assert springs[..k] == springs;
    next := seq(n, i requires 0 <= i < n =>
      Vertex(if state[i].pinned then state[i].x else state[i].x + state[i].dx,
             if state[i].pinned then state[i].y else state[i].y + state[i].dy,
             state[i].pinned));
  }

  /** One turn of the loop of `stepSprings`: the spring's force, measured on
      the positions before the step, added to one end and taken from the
      other. */
  method ApplySpring(meshState: seq<Vertex>, done: seq<Spring>, spring: Spring, state: seq<Accumulator>,
                     deltaSeconds: real, sqrt: real -> real)
    returns (next: seq<Accumulator>)
    requires SpringsWithin(done, |meshState|) && 0 <= spring.from < |meshState| && 0 <= spring.to < |meshState|
    requires state == Accumulated(meshState, done, deltaSeconds, sqrt)
    ensures SpringsWithin(done + [spring], |meshState|)
    ensures next == Accumulated(meshState, done + [spring], deltaSeconds, sqrt)
  {
    var from := state[spring.from];
    var to := state[spring.to];
    var distance := Euclid(from.x - to.x, from.y - to.y, sqrt);
    var force := (distance - spring.length) * spring.strength * deltaSeconds;
    var dir := Direction(to.x - from.x, to.y - from.y, distance);
    var dx := dir.x * force;
    var dy := dir.y * force;
    PushFromState(meshState, done, spring, deltaSeconds, sqrt);
    assert Push(meshState, spring, deltaSeconds, sqrt) == Vec(dx, dy);
    next := state[spring.from := state[spring.from].(dx := state[spring.from].dx + dx,
                                                     dy := state[spring.from].dy + dy)];
    next := next[spring.to := next[spring.to].(dx := next[spring.to].dx - dx,
                                               dy := next[spring.to].dy - dy)];
    assert next == AddPush(state, spring, Vec(dx, dy));
    AccumulateOne(meshState, done, spring, deltaSeconds, sqrt);
  }

  // Properties of a step

  /** A step keeps the number of vertices and every pinned flag, and leaves
      pinned vertices exactly where they were. */
  lemma PinnedInvariant(ms: seq<Vertex>, springs: seq<Spring>, deltaSeconds: real, sqrt: real -> real)
    requires SpringsWithin(springs, |ms|)
    ensures |Stepped(ms, springs, deltaSeconds, sqrt)| == |ms|
    ensures forall i :: 0 <= i < |ms| ==> Stepped(ms, springs, deltaSeconds, sqrt)[i].pinned == ms[i].pinned
    ensures forall i :: 0 <= i < |ms| && ms[i].pinned ==> Stepped(ms, springs, deltaSeconds, sqrt)[i] == ms[i]
  {
  }

  lemma {:induction false} NoTimeNoDisplacement(ms: seq<Vertex>, springs: seq<Spring>, i: int, sqrt: real -> real)
    requires SpringsWithin(springs, |ms|)
    ensures Displacement(ms, springs, i, 0.0, sqrt) == Vec(0.0, 0.0)
  {
    if |springs| > 0 {
      NoTimeNoDisplacement(ms, springs[..|springs| - 1], i, sqrt);
    }
  }

  /** With no time elapsed nothing moves, and with no springs nothing moves
      whatever the time step. */
  lemma ZeroDeltaIsIdentity(ms: seq<Vertex>, springs: seq<Spring>, deltaSeconds: real, sqrt: real -> real)
    requires SpringsWithin(springs, |ms|)
    ensures Stepped(ms, springs, 0.0, sqrt) == ms
    ensures Stepped(ms, [], deltaSeconds, sqrt) == ms
  {
    forall i | 0 <= i < |ms| ensures Stepped(ms, springs, 0.0, sqrt)[i] == ms[i] {
      NoTimeNoDisplacement(ms, springs, i, sqrt);
    }
  }

  /** A spring at its rest length, or with zero strength, pushes nothing. */
  lemma RestingSpringPushesNothing(ms: seq<Vertex>, s: Spring, deltaSeconds: real, sqrt: real -> real)
    requires 0 <= s.from < |ms| && 0 <= s.to < |ms|
    requires s.strength == 0.0 || SpringDistance(ms, s, sqrt) == s.length
    ensures Push(ms, s, deltaSeconds, sqrt) == Vec(0.0, 0.0)
  {
    var force := (SpringDistance(ms, s, sqrt) - s.length) * s.strength * deltaSeconds;
    assert force == 0.0;
  }

  /** A stretched spring pulls its `from` end towards its `to` end: the push
      is a positive multiple of the vector between them (a compressed one
      pushes it away, by a negative multiple). */
  lemma StretchedSpringPulls(ms: seq<Vertex>, s: Spring, deltaSeconds: real, sqrt: real -> real)
    requires 0 <= s.from < |ms| && 0 <= s.to < |ms|
    requires s.strength > 0.0 && deltaSeconds > 0.0 && SpringDistance(ms, s, sqrt) > 0.0
    ensures var distance := SpringDistance(ms, s, sqrt);
      var c := (distance - s.length) * s.strength * deltaSeconds / distance;
      Push(ms, s, deltaSeconds, sqrt) ==
        Vec(c * (ms[s.to].x - ms[s.from].x), c * (ms[s.to].y - ms[s.from].y)) &&
      (distance > s.length ==> c > 0.0) && (distance < s.length ==> c < 0.0)
  {
    var from := ms[s.from];
    var to := ms[s.to];
    var distance := SpringDistance(ms, s, sqrt);
    var force := (distance - s.length) * s.strength * deltaSeconds;
    var c := force / distance;
    assert (to.x - from.x) / distance * force == c * (to.x - from.x);
    assert (to.y - from.y) / distance * force == c * (to.y - from.y);
    if distance > s.length {
      PositiveProduct(distance - s.length, s.strength, deltaSeconds);
      assert force > 0.0;
    } else if distance < s.length {
      PositiveProduct(s.length - distance, s.strength, deltaSeconds);
      assert force < 0.0;
    }
  }

  lemma PositiveProduct(a: real, b: real, c: real)
    requires a > 0.0 && b > 0.0 && c > 0.0
    ensures a * b * c > 0.0 && (-a) * b * c < 0.0
  {
    assert a * b > 0.0;
  }

  /** Adding the springs' shares over the vertices 0..m. */
  function ShareSum(ms: seq<Vertex>, s: Spring, m: nat, deltaSeconds: real, sqrt: real -> real): Vec
    requires 0 <= s.from < |ms| && 0 <= s.to < |ms|
  {
    if m == 0 then Vec(0.0, 0.0)
    else
      var t := ShareSum(ms, s, m - 1, deltaSeconds, sqrt);
      var v := Share(ms, s, m - 1, deltaSeconds, sqrt);
      Vec(t.x + v.x, t.y + v.y)
  }

  function DisplacementSum(ms: seq<Vertex>, springs: seq<Spring>, m: nat, deltaSeconds: real, sqrt: real -> real): Vec
    requires SpringsWithin(springs, |ms|)
  {
    if m == 0 then Vec(0.0, 0.0)
    else
      var t := DisplacementSum(ms, springs, m - 1, deltaSeconds, sqrt);
      var v := Displacement(ms, springs, m - 1, deltaSeconds, sqrt);
      Vec(t.x + v.x, t.y + v.y)
  }

  lemma {:induction false} ShareSumValue(ms: seq<Vertex>, s: Spring, m: nat, deltaSeconds: real, sqrt: real -> real)
    requires 0 <= s.from < |ms| && 0 <= s.to < |ms|
    ensures var p := Push(ms, s, deltaSeconds, sqrt);
      var a := if s.from < m then p else Vec(0.0, 0.0);
      var b := if s.to < m then p else Vec(0.0, 0.0);
      ShareSum(ms, s, m, deltaSeconds, sqrt) == Vec(a.x - b.x, a.y - b.y)
  {
    if m > 0 {
      ShareSumValue(ms, s, m - 1, deltaSeconds, sqrt);
    }
  }

  lemma {:induction false} DisplacementSumSplit(ms: seq<Vertex>, springs: seq<Spring>, m: nat, deltaSeconds: real, sqrt: real -> real)
    requires SpringsWithin(springs, |ms|) && |springs| > 0
    ensures var t := DisplacementSum(ms, springs[..|springs| - 1], m, deltaSeconds, sqrt);
      var v := ShareSum(ms, springs[|springs| - 1], m, deltaSeconds, sqrt);
      DisplacementSum(ms, springs, m, deltaSeconds, sqrt) == Vec(t.x + v.x, t.y + v.y)
  {
    if m > 0 {
      DisplacementSumSplit(ms, springs, m - 1, deltaSeconds, sqrt);
    }
  }

  /** Every spring pushes its two ends equally and oppositely, so the
      displacements of all vertices add up to zero. */
  lemma {:induction false} DisplacementsCancel(ms: seq<Vertex>, springs: seq<Spring>, deltaSeconds: real, sqrt: real -> real)
    requires SpringsWithin(springs, |ms|)
    ensures DisplacementSum(ms, springs, |ms|, deltaSeconds, sqrt) == Vec(0.0, 0.0)
  {
    if |springs| == 0 {
      ZeroSprings(ms, |ms|, deltaSeconds, sqrt);
    } else {
      DisplacementsCancel(ms, springs[..|springs| - 1], deltaSeconds, sqrt);
      DisplacementSumSplit(ms, springs, |ms|, deltaSeconds, sqrt);
      ShareSumValue(ms, springs[|springs| - 1], |ms|, deltaSeconds, sqrt);
    }
  }

  lemma {:induction false} ZeroSprings(ms: seq<Vertex>, m: nat, deltaSeconds: real, sqrt: real -> real)
    ensures DisplacementSum(ms, [], m, deltaSeconds, sqrt) == Vec(0.0, 0.0)
  {
    if m > 0 {
      ZeroSprings(ms, m - 1, deltaSeconds, sqrt);
    }
  }

  /** The displacement of a vertex does not depend on where in the list a
      spring sits: moving the last spring to the front changes nothing. */
  lemma {:induction false} DisplacementRotate(ms: seq<Vertex>, springs: seq<Spring>, s: Spring, i: int, deltaSeconds: real, sqrt: real -> real)
    requires SpringsWithin(springs + [s], |ms|)
    ensures SpringsWithin([s] + springs, |ms|)
    ensures Displacement(ms, [s] + springs, i, deltaSeconds, sqrt) == Displacement(ms, springs + [s], i, deltaSeconds, sqrt)
  {
    WithinParts(springs, s, |ms|);
    if |springs| > 0 {
      var front, last := springs[..|springs| - 1], springs[|springs| - 1];
      DisplacementRotate(ms, front, s, i, deltaSeconds, sqrt);
      var d := Displacement(ms, front, i, deltaSeconds, sqrt);
      var a := Share(ms, s, i, deltaSeconds, sqrt);
      var b := Share(ms, last, i, deltaSeconds, sqrt);
      DisplacementSnoc(ms, front, last, i, deltaSeconds, sqrt);
      DisplacementSnoc(ms, springs, s, i, deltaSeconds, sqrt);
      DisplacementSnoc(ms, front, s, i, deltaSeconds, sqrt);
      DisplacementSnoc(ms, [s] + front, last, i, deltaSeconds, sqrt);
      assert [s] + front + [last] == [s] + springs;
    } else {
      assert [s] + springs == springs + [s];
    }
  }

  /** The springs of both orders stay within the vertices. */
  lemma WithinParts(springs: seq<Spring>, s: Spring, n: int)
    requires SpringsWithin(springs + [s], n)
    ensures SpringsWithin(springs, n) && SpringsWithin([s] + springs, n)
    ensures 0 <= s.from < n && 0 <= s.to < n
    ensures |springs| > 0 ==> SpringsWithin(springs[..|springs| - 1] + [s], n)
  {
    assert forall k :: 0 <= k < |springs| ==> springs[k] == (springs + [s])[k];
    assert s == (springs + [s])[|springs|];
    if |springs| > 0 {
      var front := springs[..|springs| - 1];
      assert forall k :: 0 <= k < |front| ==> (front + [s])[k] == springs[k];
    }
  }

  /** Appending a spring adds its share to the displacement. */
  lemma DisplacementSnoc(ms: seq<Vertex>, springs: seq<Spring>, s: Spring, i: int, deltaSeconds: real, sqrt: real -> real)
    requires SpringsWithin(springs, |ms|) && 0 <= s.from < |ms| && 0 <= s.to < |ms|
    ensures SpringsWithin(springs + [s], |ms|)
    ensures var d := Displacement(ms, springs, i, deltaSeconds, sqrt);
      var a := Share(ms, s, i, deltaSeconds, sqrt);
      Displacement(ms, springs + [s], i, deltaSeconds, sqrt) == Vec(d.x + a.x, d.y + a.y)
  {
    assert forall k :: 0 <= k < |springs| ==> (springs + [s])[k] == springs[k];
    assert (springs + [s])[..|springs|] == springs;
  }

  /** Springs within the vertices, on both sides of a concatenation. */
  lemma WithinConcat(a: seq<Spring>, b: seq<Spring>, n: int)
    ensures SpringsWithin(a + b, n) <==> SpringsWithin(a, n) && SpringsWithin(b, n)
  {
    assert forall k :: 0 <= k < |a| ==> (a + b)[k] == a[k];
    assert forall k :: 0 <= k < |b| ==> (a + b)[|a| + k] == b[k];
  }

  /** The displacement of two lists of springs run one after the other is
      the sum of their displacements. */
  lemma {:induction false} DisplacementConcat(ms: seq<Vertex>, a: seq<Spring>, b: seq<Spring>, i: int,
                                              deltaSeconds: real, sqrt: real -> real)
    requires SpringsWithin(a, |ms|) && SpringsWithin(b, |ms|)
    ensures SpringsWithin(a + b, |ms|)
    ensures var da := Displacement(ms, a, i, deltaSeconds, sqrt);
      var db := Displacement(ms, b, i, deltaSeconds, sqrt);
      Displacement(ms, a + b, i, deltaSeconds, sqrt) == Vec(da.x + db.x, da.y + db.y)
    decreases |b|
  {
    WithinConcat(a, b, |ms|);
    if |b| == 0 {
      assert a + b == a;
    } else {
      var front, last := b[..|b| - 1], b[|b| - 1];
      assert b == front + [last];
      WithinConcat(front, [last], |ms|);
      assert last == b[|b| - 1];
      DisplacementConcat(ms, a, front, i, deltaSeconds, sqrt);
      assert a + b == (a + front) + [last];
      DisplacementSnoc(ms, a + front, last, i, deltaSeconds, sqrt);
      DisplacementSnoc(ms, front, last, i, deltaSeconds, sqrt);
    }
  }

  /** Reordering the springs keeps them within the vertices. */
  lemma WithinPermutation(s1: seq<Spring>, s2: seq<Spring>, n: int)
    requires SpringsWithin(s1, n) && multiset(s1) == multiset(s2)
    ensures SpringsWithin(s2, n)
  {
    forall k | 0 <= k < |s2| ensures 0 <= s2[k].from < n && 0 <= s2[k].to < n {
      assert s2[k] in multiset(s2);
      assert s2[k] in s1;
    }
  }

  /** Taking one spring out of two lists holding the same springs leaves
      two lists holding the same springs. */
  lemma MultisetRemove(s1: seq<Spring>, s2: seq<Spring>, j: int)
    requires multiset(s1) == multiset(s2) && |s1| > 0 && 0 <= j < |s2| && s2[j] == s1[|s1| - 1]
    ensures multiset(s1[..|s1| - 1]) == multiset(s2[..j] + s2[j + 1..])
  {
    var front, last, a, b := s1[..|s1| - 1], s1[|s1| - 1], s2[..j], s2[j + 1..];
    assert s1 == front + [last];
    assert s2 == (a + [last]) + b;
    assert multiset(s1) == multiset(front) + multiset{last};
    assert multiset(s2) == multiset(a) + multiset{last} + multiset(b);
    assert multiset(a + b) == multiset(a) + multiset(b);
    assert (multiset(front) + multiset{last}) - multiset{last} == multiset(front);
    assert (multiset(a + b) + multiset{last}) - multiset{last} == multiset(a + b);
  }

  /** A spring in the middle of the list displaces as if it came last. */
  lemma DisplacementMiddle(ms: seq<Vertex>, a: seq<Spring>, x: Spring, b: seq<Spring>, i: int,
                           deltaSeconds: real, sqrt: real -> real)
    requires SpringsWithin(a + [x] + b, |ms|)
    ensures SpringsWithin(a + b, |ms|) && 0 <= x.from < |ms| && 0 <= x.to < |ms|
    ensures var d := Displacement(ms, a + b, i, deltaSeconds, sqrt);
      var e := Share(ms, x, i, deltaSeconds, sqrt);
      Displacement(ms, a + [x] + b, i, deltaSeconds, sqrt) == Vec(d.x + e.x, d.y + e.y)
  {
    WithinConcat(a + [x], b, |ms|);
    WithinConcat(a, [x], |ms|);
    WithinConcat(a, b, |ms|);
    assert x == [x][0];
    DisplacementConcat(ms, a + [x], b, i, deltaSeconds, sqrt);
    DisplacementSnoc(ms, a, x, i, deltaSeconds, sqrt);
    DisplacementConcat(ms, a, b, i, deltaSeconds, sqrt);
  }

  /** The displacement of a vertex does not depend on the order of the
      springs at all: any two lists holding the same springs, each as often,
      displace every vertex alike. */
  lemma {:induction false} DisplacementPermutation(ms: seq<Vertex>, s1: seq<Spring>, s2: seq<Spring>, i: int,
                                                   deltaSeconds: real, sqrt: real -> real)
    requires SpringsWithin(s1, |ms|) && multiset(s1) == multiset(s2)
    ensures SpringsWithin(s2, |ms|)
    ensures Displacement(ms, s1, i, deltaSeconds, sqrt) == Displacement(ms, s2, i, deltaSeconds, sqrt)
    decreases |s1|
  {
    WithinPermutation(s1, s2, |ms|);
    if |s1| == 0 {
      assert |s2| == |multiset(s2)| == 0;
    } else {
      var front, last := s1[..|s1| - 1], s1[|s1| - 1];
      assert last in multiset(s2);
      var j :| 0 <= j < |s2| && s2[j] == last;
      var a, b := s2[..j], s2[j + 1..];
      MultisetRemove(s1, s2, j);
      WithinConcat(front, [last], |ms|);
      assert s1 == front + [last];
      assert s2 == a + [last] + b;
      DisplacementMiddle(ms, a, last, b, i, deltaSeconds, sqrt);
      DisplacementPermutation(ms, front, a + b, i, deltaSeconds, sqrt);
      PermutationStep(ms, front, last, a, b, i, deltaSeconds, sqrt);
    }
  }

  /** The inductive step: equal displacements stay equal when the same
      spring is added to both lists, once at the end and once in the middle. */
  lemma PermutationStep(ms: seq<Vertex>, front: seq<Spring>, last: Spring, a: seq<Spring>, b: seq<Spring>, i: int,
                        deltaSeconds: real, sqrt: real -> real)
    requires SpringsWithin(front + [last], |ms|) && SpringsWithin(a + [last] + b, |ms|)
    requires SpringsWithin(front, |ms|) && SpringsWithin(a + b, |ms|)
    requires Displacement(ms, front, i, deltaSeconds, sqrt) == Displacement(ms, a + b, i, deltaSeconds, sqrt)
    ensures Displacement(ms, front + [last], i, deltaSeconds, sqrt) == Displacement(ms, a + [last] + b, i, deltaSeconds, sqrt)
  {
    WithinParts(front, last, |ms|);
    DisplacementMiddle(ms, a, last, b, i, deltaSeconds, sqrt);
    DisplacementSnoc(ms, front, last, i, deltaSeconds, sqrt);
  }

  /** So one step of the simulation is the same whatever order the springs
      come in. */
  lemma SteppedPermutation(ms: seq<Vertex>, s1: seq<Spring>, s2: seq<Spring>, deltaSeconds: real, sqrt: real -> real)
    requires SpringsWithin(s1, |ms|) && multiset(s1) == multiset(s2)
    ensures SpringsWithin(s2, |ms|)
    ensures Stepped(ms, s1, deltaSeconds, sqrt) == Stepped(ms, s2, deltaSeconds, sqrt)
  {
    WithinPermutation(s1, s2, |ms|);
    forall i | 0 <= i < |ms|
      ensures Stepped(ms, s1, deltaSeconds, sqrt)[i] == Stepped(ms, s2, deltaSeconds, sqrt)[i]
    {
      DisplacementPermutation(ms, s1, s2, i, deltaSeconds, sqrt);
    }
  }
}
