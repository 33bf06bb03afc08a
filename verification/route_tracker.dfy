/**
 * The route tracker: a bounded buffer of GPS fixes saved to local storage
 * every tenth fix, the travelled distance, the same-day restore check, the
 * route link with sampled waypoints, and the low-battery emergency
 * notification with its five-minute rate limit.
 */
module RouteTracker {
  import opened Wrappers
  import opened Geo
  import Text
  import PersonalInfo
  import Seqs

  /** One GPS fix; `timestamp` is in epoch milliseconds, `accuracy` in metres. */
  datatype LocationPoint = LocationPoint(pos: Coord, timestamp: int, accuracy: real)

  /** The snapshot kept under `userRouteData`. */
  datatype RouteData = RouteData(startTime: int, endTime: int, points: seq<LocationPoint>, totalDistance: real)

  datatype StoredRoute = NoRoute | Unparsable | SavedRoute(data: RouteData)

  const MaxRoutePoints: nat := 500
  const MinNotificationInterval: int := 300000

  /** Fixes between two saves of the route. */
  const SaveEvery: nat := 10

  /**
   * The watch callback's buffer update: the fix is appended, and when that
   * makes the buffer longer than 500 the oldest fix is dropped. The second
   * result says whether the route is saved, which happens exactly when the new
   * length is a multiple of 10.
   */
  function AppendPoint(points: seq<LocationPoint>, p: LocationPoint): (r: (seq<LocationPoint>, bool))
    ensures |points| < MaxRoutePoints ==> r.0 == points + [p]
    ensures |points| >= MaxRoutePoints ==> r.0 == points[1..] + [p]
    ensures |points| <= MaxRoutePoints ==> |r.0| <= MaxRoutePoints
    ensures r.1 <==> |r.0| % SaveEvery == 0
  {
    var grown := points + [p];
    var kept := if |grown| > MaxRoutePoints then grown[1..] else grown;
    assert |grown| > MaxRoutePoints ==> kept == points[1..] + [p];
    (kept, |kept| % SaveEvery == 0)
  }

  /** Feeding fixes one by one keeps the newest ones in arrival order, never more than 500. */
  lemma {:induction false} AppendKeepsNewest(points: seq<LocationPoint>, fixes: seq<LocationPoint>)
    requires |points| <= MaxRoutePoints
    ensures var r := AppendAll(points, fixes);
            |r| <= MaxRoutePoints && |r| == Seqs.Min(MaxRoutePoints, |points| + |fixes|) &&
            r == (points + fixes)[|points| + |fixes| - |r|..]
    decreases |fixes|
  {
    if |fixes| > 0 {
      var next := AppendPoint(points, fixes[0]).0;
      AppendKeepsNewest(next, fixes[1..]);
      Seqs.AppendCappedStep(points, next, fixes, AppendAll(next, fixes[1..]), MaxRoutePoints);
    }
  }

  /** The buffer after a run of fixes. */
  function AppendAll(points: seq<LocationPoint>, fixes: seq<LocationPoint>): seq<LocationPoint>
    decreases |fixes|
  {
    if |fixes| == 0 then points else AppendAll(AppendPoint(points, fixes[0]).0, fixes[1..])
  }

  /** The length of the path through the points, segment by segment. */
  function PathLength(points: seq<LocationPoint>, dist: Metric): real
    decreases |points|
  {
    if |points| < 2 then 0.0 else dist(points[0].pos, points[1].pos) + PathLength(points[1..], dist)
  }

  /** Adding a point at the end adds the last segment. */
  lemma {:induction false} PathLengthSnoc(points: seq<LocationPoint>, p: LocationPoint, dist: Metric)
    requires |points| >= 1
    ensures PathLength(points + [p], dist) == PathLength(points, dist) + dist(points[|points| - 1].pos, p.pos)
    decreases |points|
  {
    if |points| >= 2 {
      PathLengthSnoc(points[1..], p, dist);
      assert (points + [p])[1..] == points[1..] + [p];
    } else {
      assert points + [p] == [points[0], p];
    }
  }

  /**
   * `getTotalDistance`: 0 for fewer than two points, otherwise the distances
   * between consecutive points summed from the first pair on.
   */
  method GetTotalDistance(points: seq<LocationPoint>, dist: Metric) returns (total: real)
    ensures |points| < 2 ==> total == 0.0
    ensures total == PathLength(points, dist)
  {
    if |points| < 2 {
      return 0.0;
    }
    total := 0.0;
    var i := 1;
    assert points[..1] == [points[0]];
    while i < |points|
      invariant 1 <= i <= |points|
      invariant total == PathLength(points[..i], dist)
    {
      PathLengthSnoc(points[..i], points[i], dist);
      assert points[..i + 1] == points[..i] + [points[i]];
      total := total + dist(points[i - 1].pos, points[i].pos);
      i := i + 1;
    }
    assert points[..i] == points;
  }

  /** `saveRouteToStorage`/`getRouteData`: the route stamped with its first fix's time (or now when empty) and now. */
  function Snapshot(points: seq<LocationPoint>, now: int, dist: Metric): (r: RouteData)
    ensures r.points == points && r.endTime == now && r.totalDistance == PathLength(points, dist)
    ensures r.startTime == if |points| > 0 then points[0].timestamp else now
  {
    RouteData(if |points| > 0 then points[0].timestamp else now, now, points, PathLength(points, dist))
  }

  /**
   * `loadRouteFromStorage` at construction, with today's local midnight as a
   * parameter: a route started today is restored; an older one is removed from
   * storage and the buffer stays empty; an unreadable one is left alone.
   */
  function LoadRoute(stored: StoredRoute, todayMidnight: int): (r: (seq<LocationPoint>, StoredRoute))
    ensures stored.SavedRoute? && stored.data.startTime >= todayMidnight ==> r == (stored.data.points, stored)
    ensures stored.SavedRoute? && stored.data.startTime < todayMidnight ==> r == ([], NoRoute)
    ensures !stored.SavedRoute? ==> r == ([], stored)
  {
    match stored
    case SavedRoute(data) => if data.startTime >= todayMidnight then (data.points, stored) else ([], NoRoute)
    case _ => ([], stored)
  }

  /** A route saved at any time today is restored after a reload the same day. */
  lemma SavedTodayRestores(points: seq<LocationPoint>, now: int, dist: Metric, todayMidnight: int)
    requires |points| > 0 ==> points[0].timestamp >= todayMidnight
    requires now >= todayMidnight
    ensures LoadRoute(SavedRoute(Snapshot(points, now, dist)), todayMidnight).0 == points
  {
  }

  // ----- Route link -----

  /** The points of the route link: origin, waypoints and destination. */
  datatype Stops = Stops(origin: LocationPoint, waypoints: seq<LocationPoint>, destination: LocationPoint)

  /** The indices below `n`, from `i` on, that are multiples of `step`, ascending. */
  function Multiples(i: nat, n: nat, step: nat): (r: seq<nat>)
    requires step >= 1
    ensures forall k :: 0 <= k < |r| ==> i <= r[k] < n && r[k] % step == 0
    decreases n - i
  {
    if i >= n then [] else (if i % step == 0 then [i] else []) + Multiples(i + 1, n, step)
  }

  lemma {:induction false} MulAtLeast(step: int, d: int)
    requires step >= 1 && d >= 1
    ensures step * d >= step
    decreases d
  {
    if d > 1 {
      MulAtLeast(step, d - 1);
      assert step * d == step * (d - 1) + step;
    }
  }

  lemma MulMonotone(a: nat, b: nat, step: nat)
    requires a <= b
    ensures a * step <= b * step
  {
    assert b * step == a * step + (b - a) * step;
  }

  lemma ProductInRange(step: int, d: int)
    requires step >= 1 && 0 <= step * d < step
    ensures d == 0
  {
    if d >= 1 {
      MulAtLeast(step, d);
    } else if d <= -1 {
      MulAtLeast(step, -d);
    }
  }

  lemma MulMod(k: int, step: int)
    requires step >= 1
    ensures (k * step) % step == 0
  {
    var q, r := (k * step) / step, (k * step) % step;
    assert k * step == step * q + r;
    assert step * (k - q) == r;
    ProductInRange(step, k - q);
  }

  lemma NoMultipleBetween(k: int, step: int, x: int)
    requires step >= 1 && k * step < x < (k + 1) * step
    ensures x % step != 0
  {
    var q, r := x / step, x % step;
    assert x == step * q + r;
    if r == 0 {
      assert step * (q - k) > 0;
      assert step * (q - k) < step;
      ProductInRange(step, q - k);
    }
  }

  lemma {:induction false} SkipGap(i: nat, j: nat, n: nat, step: nat)
    requires step >= 1 && i <= j <= n
    requires forall x :: i <= x < j ==> x % step != 0
    ensures Multiples(i, n, step) == Multiples(j, n, step)
    decreases j - i
  {
    if i < j {
      SkipGap(i + 1, j, n, step);
    }
  }

  /** The multiples from `k * step` on are `k * step` followed by those from `(k + 1) * step` on. */
  lemma MultiplesStep(k: nat, n: nat, step: nat)
    requires step >= 1 && (k + 1) * step <= n
    ensures Multiples(k * step, n, step) == [k * step] + Multiples((k + 1) * step, n, step)
  {
    var i, next := k * step, (k + 1) * step;
    assert next == i + step;
    MulMod(k, step);
    forall x | i + 1 <= x < next ensures x % step != 0 {
      NoMultipleBetween(k, step, x);
    }
    SkipGap(i + 1, next, n, step);
  }

  /** Below `n`, the multiples of `step` from `k * step` on start `k * step, (k + 1) * step, ...`. */
  lemma {:induction false} MultiplesFrom(k: nat, m: nat, n: nat, step: nat)
    requires step >= 1 && (k + m) * step <= n
    ensures |Multiples(k * step, n, step)| >= m
    ensures forall j :: 0 <= j < m ==> Multiples(k * step, n, step)[j] == (k + j) * step
    decreases m
  {
    if m > 0 {
      var i := k * step;
      var next := (k + 1) * step;
      MulMonotone(k + 1, k + m, step);
      MultiplesStep(k, n, step);
      assert k + 1 + (m - 1) == k + m;
      MultiplesFrom(k + 1, m - 1, n, step);
      PrependMultiple(Multiples(next, n, step), k, m, step);
    }
  }

  /** Putting `k * step` in front of `(k + 1) * step, (k + 2) * step, ...` gives `k * step, (k + 1) * step, ...`. */
  lemma PrependMultiple(rest: seq<nat>, k: nat, m: nat, step: nat)
    requires m > 0 && |rest| >= m - 1
    requires forall j :: 0 <= j < m - 1 ==> rest[j] == (k + 1 + j) * step
    ensures forall j :: 0 <= j < m ==> ([k * step] + rest)[j] == (k + j) * step
  {
    forall j | 0 <= j < m
      ensures ([k * step] + rest)[j] == (k + j) * step
    {
      if j > 0 {
        assert ([k * step] + rest)[j] == rest[j - 1];
        assert k + 1 + (j - 1) == k + j;
      }
    }
  }

  /** The number of sampled waypoints of a long route. */
  const SampledWaypoints: nat := 8

  /** For a route of more than 10 points the first 8 multiples of floor(n/8) below n are 0, step, ..., 7 * step. */
  lemma SampleIndices(n: nat)
    requires n > 10
    ensures |Multiples(0, n, n / 8)| >= SampledWaypoints
    ensures forall k :: 0 <= k < SampledWaypoints ==> Multiples(0, n, n / 8)[k] == k * (n / 8) < n
  {
    var step := n / 8;
    assert 8 * step <= n && 0 * step == 0;
    MultiplesFrom(0, SampledWaypoints, n, step);
    var ms := Multiples(0, n, step);
    forall j | 0 <= j < SampledWaypoints ensures ms[j] == j * step < n {
      assert ms[j] == (0 + j) * step;
      StrideBelow(j, step, n);
    }
  }

  lemma StrideBelow(j: nat, step: nat, n: nat)
    requires j < 8 && step >= 1 && 8 * step <= n
    ensures j * step < n
  {
    MulAtLeast(step, 8 - j);
    assert j * step + (8 - j) * step == 8 * step;
  }

  /** The points at the first 8 indices that are multiples of floor(n/8). */
  function Sampled(points: seq<LocationPoint>): (r: seq<LocationPoint>)
    requires |points| > 10
    ensures |r| == SampledWaypoints
  {
    var indices := Multiples(0, |points|, |points| / 8);
    SampleIndices(|points|);
    seq(SampledWaypoints, k requires 0 <= k < SampledWaypoints => points[indices[k]])
  }

  /** The sampled points are those at 0, step, 2 * step, ..., 7 * step, with step = floor(n/8). */
  lemma SampledAt(points: seq<LocationPoint>)
    requires |points| > 10
    ensures forall k :: 0 <= k < SampledWaypoints ==> k * (|points| / 8) < |points|
    ensures forall k :: 0 <= k < SampledWaypoints ==> Sampled(points)[k] == points[k * (|points| / 8)]
  {
    SampleIndices(|points|);
  }

  /**
   * `generateRouteUrl`'s choice of points: none for an empty route, all of a
   * route of at most 10 points, and otherwise the first point, the points at
   * the first 8 indices that are multiples of floor(n/8), and the last point.
   */
  function PointsToShow(points: seq<LocationPoint>): (r: seq<LocationPoint>)
    ensures |points| <= 10 ==> r == points
    ensures |points| > 10 ==> |r| == 10 && r[0] == points[0] && r[9] == points[|points| - 1]
    ensures |points| > 10 ==> r[1..9] == Sampled(points)
  {
    if |points| <= 10 then points
    else [points[0]] + Sampled(points) + [points[|points| - 1]]
  }

  /**
   * The stops of the route link: the first shown point is the origin, the last
   * the destination, and the ones between are the waypoints.
   */
  function RouteStops(points: seq<LocationPoint>): (r: Option<Stops>)
    ensures r.None? <==> |points| == 0
    ensures r.Some? ==> r.value.origin == points[0] && r.value.destination == points[|points| - 1]
    ensures r.Some? ==> |r.value.waypoints| <= SampledWaypoints
    ensures r.Some? && |points| <= 10 ==> r.value.waypoints == (if |points| < 2 then [] else points[1..|points| - 1])
    ensures r.Some? && |points| > 10 ==> r.value.waypoints == Sampled(points)
  {
    if |points| == 0 then None
    else
      var shown := PointsToShow(points);
      Some(Stops(shown[0], if |shown| < 2 then [] else shown[1..|shown| - 1], shown[|shown| - 1]))
  }

  /** On a long route the first waypoint repeats the origin, because index 0 is a multiple of any step. */
  lemma LongRouteRepeatsOrigin(points: seq<LocationPoint>)
    requires |points| > 10
    ensures RouteStops(points).value.waypoints[0] == RouteStops(points).value.origin
  {
    var shown := PointsToShow(points);
    SampledAt(points);
    assert shown[1] == Sampled(points)[0] == points[0 * (|points| / 8)];
  }

  /** A coordinate as the link writes it, `lat,lng`, given how numbers are printed. */
  function CoordText(p: LocationPoint, num: real -> string): (r: string)
    ensures Text.Contains(r, ",")
  {
    var r := num(p.pos.lat) + "," + num(p.pos.lng);
    assert Text.OccursAt(r, ",", |num(p.pos.lat)|);
    Text.ContainsIff(r, ",");
    r
  }

  function CoordTexts(ps: seq<LocationPoint>, num: real -> string): (r: seq<string>)
    ensures |r| == |ps|
    ensures forall k :: 0 <= k < |r| ==> r[k] == CoordText(ps[k], num)
  {
    if |ps| == 0 then [] else [CoordText(ps[0], num)] + CoordTexts(ps[1..], num)
  }

  const DirectionsBase: string := "https://www.google.com/maps/dir/?api=1&origin="

  /**
   * `generateRouteUrl`: empty for an empty route; otherwise the directions
   * link with origin, destination and, when the joined waypoint list is not
   * empty, the waypoints separated by `|`. `num` is JavaScript's number printing.
   */
  function GenerateRouteUrl(points: seq<LocationPoint>, num: real -> string): (url: string)
    ensures |points| == 0 <==> url == ""
    ensures |points| > 0 ==> Text.StartsWith(url, DirectionsBase + CoordText(points[0], num) + "&destination=" + CoordText(points[|points| - 1], num))
    ensures |points| > 0 ==>
              var joined := Text.Join(CoordTexts(RouteStops(points).value.waypoints, num), "|");
              url == DirectionsBase + CoordText(points[0], num) + "&destination=" + CoordText(points[|points| - 1], num)
                     + (if joined != "" then "&waypoints=" + joined else "")
  {
    match RouteStops(points)
    case None => ""
    case Some(stops) =>
      var head := DirectionsBase + CoordText(stops.origin, num) + "&destination=" + CoordText(stops.destination, num);
      var joined := Text.Join(CoordTexts(stops.waypoints, num), "|");
      var url := head + (if joined != "" then "&waypoints=" + joined else "");
      assert url[..|head|] == head;
      url
  }

  /** The link names waypoints exactly when the route has more than two points. */
  lemma RouteUrlHasWaypointsIff(points: seq<LocationPoint>, num: real -> string)
    requires |points| > 0
    ensures var stops := RouteStops(points).value;
            var joined := Text.Join(CoordTexts(stops.waypoints, num), "|");
            (joined != "" <==> |points| > 2)
  {
    var stops := RouteStops(points).value;
    var texts := CoordTexts(stops.waypoints, num);
    if |texts| > 0 {
      Text.JoinEnds(texts, "|");
      var first := CoordText(stops.waypoints[0], num);
      Text.ContainsIff(first, ",");
      assert |first| > 0;
    }
  }

  // ----- Emergency notification -----

  /** A contact as the notification lists it; name and relation may be absent from the saved profile. */
  datatype Contact = Contact(name: Option<string>, phone: string, relation: Option<string>)

  /** What an emergency-notification attempt did. */
  datatype Notification =
    | TooSoon                           // within five minutes of the last attempt
    | NoProfile                         // no saved profile to take contacts from
    | ProfileUnreadable                 // the saved profile did not parse
    | Notified(contacts: seq<Contact>)  // the low-battery alert naming these contacts was shown on this device

  function Lookup(p: PersonalInfo.SavedProfile, k: PersonalInfo.Field): Option<string> {
    if k in p.text then Some(p.text[k]) else None
  }

  /** A phone number is present when the saved profile has a non-empty one. */
  predicate HasPhone(p: PersonalInfo.SavedProfile, k: PersonalInfo.Field) {
    k in p.text && p.text[k] != ""
  }

  /** Emergency contact 1 and then 2, each included only when its phone number is present. */
  function EmergencyContacts(p: PersonalInfo.SavedProfile): (r: seq<Contact>)
    ensures |r| == (if HasPhone(p, PersonalInfo.EmergencyContact1Phone) then 1 else 0)
                 + (if HasPhone(p, PersonalInfo.EmergencyContact2Phone) then 1 else 0)
    ensures HasPhone(p, PersonalInfo.EmergencyContact1Phone) ==>
      r[0] == Contact(Lookup(p, PersonalInfo.EmergencyContact1), p.text[PersonalInfo.EmergencyContact1Phone], Lookup(p, PersonalInfo.EmergencyContact1Relation))
    ensures HasPhone(p, PersonalInfo.EmergencyContact2Phone) ==>
      r[|r| - 1] == Contact(Lookup(p, PersonalInfo.EmergencyContact2), p.text[PersonalInfo.EmergencyContact2Phone], Lookup(p, PersonalInfo.EmergencyContact2Relation))
  {
    var first := if HasPhone(p, PersonalInfo.EmergencyContact1Phone)
      then [Contact(Lookup(p, PersonalInfo.EmergencyContact1), p.text[PersonalInfo.EmergencyContact1Phone], Lookup(p, PersonalInfo.EmergencyContact1Relation))]
      else [];
    var second := if HasPhone(p, PersonalInfo.EmergencyContact2Phone)
      then [Contact(Lookup(p, PersonalInfo.EmergencyContact2), p.text[PersonalInfo.EmergencyContact2Phone], Lookup(p, PersonalInfo.EmergencyContact2Relation))]
      else [];
    first + second
  }

  /**
   * `sendEmergencyNotification`: an attempt within five minutes of the last
   * one is skipped; otherwise the attempt time is recorded first, so even an
   * attempt that then finds no profile uses up the window. Returns the new
   * last-attempt time and what happened. The alert is only logged and shown
   * on this device (a system notification and `alert`); nothing is sent to
   * the contacts it names.
   */
  function SendEmergencyNotification(lastNotification: int, now: int, profile: PersonalInfo.StoredProfile): (r: (int, Notification))
    ensures now - lastNotification < MinNotificationInterval ==> r == (lastNotification, TooSoon)
    ensures now - lastNotification >= MinNotificationInterval ==> r.0 == now && !r.1.TooSoon?
    ensures r.1.Notified? <==> now - lastNotification >= MinNotificationInterval && profile.Saved?
    ensures r.1.Notified? ==> r.1.contacts == EmergencyContacts(profile.profile)
  {
    if now - lastNotification < MinNotificationInterval then (lastNotification, TooSoon)
    else
      match profile
      case NoProfile => (now, NoProfile)
      case Unparsable => (now, ProfileUnreadable)
      case Saved(p) => (now, Notified(EmergencyContacts(p)))
  }

  /** Two attempts less than five minutes apart notify at most once. */
  lemma RateLimited(last: int, t1: int, t2: int, p1: PersonalInfo.StoredProfile, p2: PersonalInfo.StoredProfile)
    requires t1 <= t2 < t1 + MinNotificationInterval
    ensures var (last1, n1) := SendEmergencyNotification(last, t1, p1);
            var (_, n2) := SendEmergencyNotification(last1, t2, p2);
            !(n1.Notified? && n2.Notified?)
  {
  }

  /** What the battery `levelchange` handler does at a given level (in percent). */
  datatype BatteryAction = SendEmergency | WarnLow | NoAction

  function BatteryCheck(level: real, charging: bool): (a: BatteryAction)
    ensures a == SendEmergency <==> level <= 5.0 && !charging
    ensures a == WarnLow <==> 5.0 < level <= 10.0 && !charging
  {
    if level <= 5.0 && !charging then SendEmergency
    else if level <= 10.0 && !charging then WarnLow
    else NoAction
  }

  // ----- Tracking state -----

  datatype Tracker = Tracker(points: seq<LocationPoint>, tracking: bool, lastNotification: int, stored: StoredRoute)

  /**
   * `startTracking`: nothing happens when tracking is already on or the
   * device has no geolocation; otherwise tracking is switched on.
   */
  function StartTracking(t: Tracker, hasGeolocation: bool): (r: Tracker)
    ensures t.tracking || !hasGeolocation ==> r == t
    ensures !t.tracking && hasGeolocation ==> r == t.(tracking := true)
  {
    if t.tracking || !hasGeolocation then t else t.(tracking := true)
  }

  /** A fix from the watch: appended to the buffer, and the route saved on every tenth point. */
  function OnFix(t: Tracker, p: LocationPoint, now: int, dist: Metric): (r: Tracker)
    ensures r.points == AppendPoint(t.points, p).0
    ensures |t.points| <= MaxRoutePoints ==> |r.points| <= MaxRoutePoints
    ensures r.stored == if |r.points| % SaveEvery == 0 then SavedRoute(Snapshot(r.points, now, dist)) else t.stored
    ensures r.tracking == t.tracking && r.lastNotification == t.lastNotification
  {
    var (points, save) := AppendPoint(t.points, p);
    t.(points := points, stored := if save then SavedRoute(Snapshot(points, now, dist)) else t.stored)
  }

  /** `stopTracking`: the route is saved and tracking switched off. */
  function StopTracking(t: Tracker, now: int, dist: Metric): (r: Tracker)
    ensures !r.tracking && r.points == t.points
    ensures r.stored == SavedRoute(Snapshot(t.points, now, dist))
  {
    t.(tracking := false, stored := SavedRoute(Snapshot(t.points, now, dist)))
  }

  /** `clearRoute`: the buffer and the stored route are emptied; tracking goes on. */
  function ClearRoute(t: Tracker): (r: Tracker)
    ensures r.points == [] && r.stored == NoRoute
    ensures r.tracking == t.tracking && r.lastNotification == t.lastNotification
  {
    t.(points := [], stored := NoRoute)
  }
}
