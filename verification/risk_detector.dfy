/**
 * The offline risk-zone detector: a cache of hazard zones loaded from local
 * storage (or replaced wholesale after a download), proximity filtering against
 * the current position, alert suppression per zone location, a bounded
 * newest-first alert log, a time-of-day risk tier and route analysis.
 * Distance is the `Geo.Metric` parameter throughout.
 */
module RiskDetector {
  import opened Wrappers
  import opened Geo
  import Seqs

  datatype RiskLevel = High | Medium | Low

  /** A circular hazard zone; `radius` is in metres, `lastUpdated` in epoch milliseconds. */
  datatype RiskZone = RiskZone(center: Coord, radius: real, level: RiskLevel, kind: string, lastUpdated: int)

  /** What a download leaves in local storage under `cachedRiskZones`. */
  datatype CachedRiskData = CachedRiskData(zones: seq<RiskZone>, center: Coord, radiusKm: real, cachedAt: int)

  /** The stored cache as the loader finds it: absent, not parseable, or a snapshot. */
  datatype StoredCache = Missing | Unreadable | Stored(data: CachedRiskData)

  /** Seven days in milliseconds: a snapshot at least this old is stale. */
  const MaxCacheAge: int := 7 * 24 * 60 * 60 * 1000

  /** The radius `findNearbyRiskZones` uses when none is given, in metres. */
  const DefaultSearchRadius: real := 1000.0

  /** The built-in zones, stamped with the time the detector was created. */
  function DefaultZones(createdAt: int): (r: seq<RiskZone>)
    ensures |r| == 2
  {
    [ RiskZone(Coord(28.6139, 77.2090), 500.0, High, "crime_hotspot", createdAt),
      RiskZone(Coord(28.6500, 77.2300), 300.0, Medium, "poorly_lit", createdAt) ]
  }

  /**
   * `loadCachedRiskZones`: a snapshot younger than seven days supplies the zone
   * list as it is (even when that list is empty); a stale, missing or unreadable
   * one gives the built-in defaults.
   */
  function LoadCachedRiskZones(stored: StoredCache, now: int, createdAt: int): (r: seq<RiskZone>)
    ensures stored.Stored? && now - stored.data.cachedAt < MaxCacheAge ==> r == stored.data.zones
    ensures !(stored.Stored? && now - stored.data.cachedAt < MaxCacheAge) ==> r == DefaultZones(createdAt) && |r| > 0
  {
    match stored
    case Stored(data) => if now - data.cachedAt < MaxCacheAge then data.zones else DefaultZones(createdAt)
    case _ => DefaultZones(createdAt)
  }

  /** `cacheRiskZones`: the snapshot written to storage, stamped with `now`. */
  function CacheRiskZones(zones: seq<RiskZone>, center: Coord, radiusKm: real, now: int): (r: StoredCache)
    ensures r.Stored? && r.data.zones == zones && r.data.cachedAt == now
  {
    Stored(CachedRiskData(zones, center, radiusKm, now))
  }

  /**
   * A snapshot written at `now` is read back unchanged for just under seven
   * days, and replaced by the defaults from then on.
   */
  lemma CacheRoundTrip(zones: seq<RiskZone>, center: Coord, radiusKm: real, now: int, later: int, createdAt: int)
    ensures later < now + MaxCacheAge ==> LoadCachedRiskZones(CacheRiskZones(zones, center, radiusKm, now), later, createdAt) == zones
    ensures later >= now + MaxCacheAge ==> LoadCachedRiskZones(CacheRiskZones(zones, center, radiusKm, now), later, createdAt) == DefaultZones(createdAt)
  {
  }

  /** `findNearbyRiskZones`: the zones within `radius` of `pos`, in cache order. */
  function FindNearby(zones: seq<RiskZone>, pos: Coord, radius: real, dist: Metric): (r: seq<RiskZone>)
    ensures forall z :: z in r <==> z in zones && dist(pos, z.center) <= radius
    ensures Seqs.IsSubseq(r, zones)
    ensures |r| <= |zones|
  {
    Seqs.Filter(zones, (z: RiskZone) => dist(pos, z.center) <= radius)
  }

  // ----- Proximity alerts -----

  /**
   * An entry of the alert history. The ISO timestamp is kept as the epoch
   * milliseconds it is formatted from.
   */
  datatype AlertEntry = AlertEntry(at: int, level: RiskLevel, kind: string, distance: int, location: Coord, offline: bool)

  /** Entries the alert history keeps. */
  const MaxAlerts: nat := 50

  /**
   * `logRiskAlert`'s list update: the new entry goes first, and when that makes
   * the list longer than 50 its last (oldest) entry is dropped.
   */
  function LogRiskAlert(log: seq<AlertEntry>, entry: AlertEntry): (r: seq<AlertEntry>)
    ensures |r| > 0 && r[0] == entry
    ensures |log| < MaxAlerts ==> r[1..] == log
    ensures |log| >= MaxAlerts ==> |r| == |log| && r[1..] == log[..|log| - 1]
    ensures |log| <= MaxAlerts ==> r == Seqs.PushCapped(log, entry, MaxAlerts)
  {
    var grown := [entry] + log;
    if |grown| > MaxAlerts then grown[..|grown| - 1] else grown
  }

  /** A history of at most 50 entries stays at most 50 entries long. */
  lemma LogRiskAlertBounded(log: seq<AlertEntry>, entry: AlertEntry)
    requires |log| <= MaxAlerts
    ensures |LogRiskAlert(log, entry)| <= MaxAlerts
  {
  }

  /** The detector's state: the active zone list, the last GPS fix, the suppressed locations and the alert history. */
  datatype Detector = Detector(zones: seq<RiskZone>, position: Option<Coord>, suppressed: set<Coord>, alerts: seq<AlertEntry>)

  /** The locations of the given zones: the suppression key `lat_lng` is the zone's centre, whatever its type. */
  function Centers(zs: seq<RiskZone>): set<Coord> {
    set z | z in zs :: z.center
  }

  predicate CentersDistinct(zs: seq<RiskZone>) {
    forall i, j :: 0 <= i < j < |zs| ==> zs[i].center != zs[j].center
  }

  /** The zones of `zs` whose radius covers `pos`, in cache order. */
  function Covering(pos: Coord, zs: seq<RiskZone>, dist: Metric): (r: seq<RiskZone>)
    ensures forall z :: z in r <==> z in zs && dist(pos, z.center) <= z.radius
  {
    if |zs| == 0 then []
    else if dist(pos, zs[0].center) <= zs[0].radius then [zs[0]] + Covering(pos, zs[1..], dist)
    else Covering(pos, zs[1..], dist)
  }

  /**
   * The alert loop of `checkNearbyRisks` over the candidate zones `zs`: a zone
   * fires when its location is not suppressed and `pos` lies within its radius;
   * its location is suppressed as soon as it fires, so a later zone at the same
   * location stays silent. Returns the zones that fired and the new suppressed set.
   */
  function FireAlerts(pos: Coord, zs: seq<RiskZone>, dist: Metric, suppressed: set<Coord>): (r: (seq<RiskZone>, set<Coord>))
    ensures forall z :: z in r.0 ==> z in zs && dist(pos, z.center) <= z.radius && z.center !in suppressed
    ensures r.1 == suppressed + Centers(r.0)
    ensures CentersDistinct(r.0)
    ensures forall z :: z in zs && dist(pos, z.center) <= z.radius ==> z.center in r.1
    ensures Seqs.IsSubseq(r.0, zs)
  {
    if |zs| == 0 then
      ([], suppressed)
    else
      var z := zs[0];
      if z.center in suppressed || dist(pos, z.center) > z.radius then
        FireAlerts(pos, zs[1..], dist, suppressed)
      else
        var rest := FireAlerts(pos, zs[1..], dist, suppressed + {z.center});
        var fired := [z] + rest.0;
        assert fired[1..] == rest.0;
        assert Centers(fired) == {z.center} + Centers(rest.0) by {
          forall c | c in Centers(fired) ensures c in {z.center} + Centers(rest.0) {
            var y :| y in fired && y.center == c;
            if y != z { assert y in rest.0; }
          }
        }
        (fired, rest.1)
  }

  /** Each zone of `fired` is the first zone of `zs`, in order, that covers `pos` at its location. */
  predicate FirstCovering(pos: Coord, zs: seq<RiskZone>, dist: Metric, fired: seq<RiskZone>) {
    forall k :: 0 <= k < |fired| ==> FirstAt(Covering(pos, zs, dist), fired[k].center) == Some(fired[k])
  }

  /**
   * The zone that fires at a location is the first zone, in cache order, that
   * covers the position there: earlier ones at that location are out of range.
   */
  lemma {:induction false} FiredAreFirstCovering(pos: Coord, zs: seq<RiskZone>, dist: Metric, suppressed: set<Coord>)
    ensures FirstCovering(pos, zs, dist, FireAlerts(pos, zs, dist, suppressed).0)
    decreases |zs|
  {
    if |zs| > 0 {
      var z := zs[0];
      var fired := FireAlerts(pos, zs, dist, suppressed).0;
      if z.center in suppressed || dist(pos, z.center) > z.radius {
        FiredAreFirstCovering(pos, zs[1..], dist, suppressed);
        assert fired == FireAlerts(pos, zs[1..], dist, suppressed).0;
        forall k | 0 <= k < |fired| ensures FirstAt(Covering(pos, zs, dist), fired[k].center) == Some(fired[k]) {
          assert fired[k] in fired;
          CoveringStep(pos, zs, dist, fired[k].center);
        }
      } else {
        var more := suppressed + {z.center};
        var rest := FireAlerts(pos, zs[1..], dist, more).0;
        FiredAreFirstCovering(pos, zs[1..], dist, more);
        assert FirstCovering(pos, zs[1..], dist, rest);
        assert fired == [z] + rest;
        CoveringStep(pos, zs, dist, z.center);
        forall k | 0 < k < |fired| ensures FirstAt(Covering(pos, zs, dist), fired[k].center) == Some(fired[k]) {
          assert fired[k] == rest[k - 1] && rest[k - 1] in rest;
          CoveringStep(pos, zs, dist, fired[k].center);
        }
      }
    }
  }

  /**
   * A first zone that covers the position is the first covering zone at its
   * location; a first zone at another location `c`, or one not covering the
   * position, does not change which covering zone is first at `c`.
   */
  lemma CoveringStep(pos: Coord, zs: seq<RiskZone>, dist: Metric, c: Coord)
    requires |zs| > 0
    ensures dist(pos, zs[0].center) <= zs[0].radius ==> FirstAt(Covering(pos, zs, dist), zs[0].center) == Some(zs[0])
    ensures zs[0].center != c || dist(pos, zs[0].center) > zs[0].radius ==>
              FirstAt(Covering(pos, zs, dist), c) == FirstAt(Covering(pos, zs[1..], dist), c)
  {
    var cover := Covering(pos, zs, dist);
    if dist(pos, zs[0].center) <= zs[0].radius {
      assert cover[0] == zs[0] && cover[1..] == Covering(pos, zs[1..], dist);
    }
  }

  /** The entry logged for a zone that fired while the user stood at `pos`. */
  function AlertFor(pos: Coord, z: RiskZone, dist: Metric, now: int, offline: bool): AlertEntry {
    AlertEntry(now, z.level, z.kind, Round(dist(pos, z.center)), pos, offline)
  }

  /** The entries of the fired zones, in firing order. */
  function AlertsFor(pos: Coord, fired: seq<RiskZone>, dist: Metric, now: int, offline: bool): (r: seq<AlertEntry>)
    ensures |r| == |fired|
    ensures forall k :: 0 <= k < |fired| ==> r[k] == AlertFor(pos, fired[k], dist, now, offline)
  {
    seq(|fired|, k requires 0 <= k < |fired| => AlertFor(pos, fired[k], dist, now, offline))
  }

  /**
   * Logs one entry per fired zone, in firing order, each with its rounded
   * distance: the history becomes the new entries newest first, then the old
   * history, cut to 50.
   */
  function LogAlerts(log: seq<AlertEntry>, pos: Coord, fired: seq<RiskZone>, dist: Metric, now: int, offline: bool): (r: seq<AlertEntry>)
    ensures |log| <= MaxAlerts ==> |r| <= MaxAlerts
    ensures |fired| == 0 ==> r == log
    ensures |fired| > 0 ==> |r| > 0 && r[0].kind == fired[|fired| - 1].kind && r[0].level == fired[|fired| - 1].level
    ensures |log| <= MaxAlerts ==>
              r == (Seqs.Reversed(AlertsFor(pos, fired, dist, now, offline)) + log)[..Seqs.Min(MaxAlerts, |fired| + |log|)]
    decreases |fired|
  {
    if |fired| == 0 then log
    else
      var entry := AlertFor(pos, fired[0], dist, now, offline);
      var r := LogAlerts(LogRiskAlert(log, entry), pos, fired[1..], dist, now, offline);
      LogAlertsStep(log, pos, fired, dist, now, offline);
      r
  }

  /** The step of `LogAlerts`: the first entry pushed, then the rest, is all the entries at once. */
  lemma LogAlertsStep(log: seq<AlertEntry>, pos: Coord, fired: seq<RiskZone>, dist: Metric, now: int, offline: bool)
    requires |fired| > 0
    ensures |log| <= MaxAlerts ==>
              var pushed := LogRiskAlert(log, AlertFor(pos, fired[0], dist, now, offline));
              var rest := AlertsFor(pos, fired[1..], dist, now, offline);
              (Seqs.Reversed(rest) + pushed)[..Seqs.Min(MaxAlerts, |rest| + |pushed|)]
              == (Seqs.Reversed(AlertsFor(pos, fired, dist, now, offline)) + log)[..Seqs.Min(MaxAlerts, |fired| + |log|)]
  {
    if |log| <= MaxAlerts {
      var entry := AlertFor(pos, fired[0], dist, now, offline);
      var rest := AlertsFor(pos, fired[1..], dist, now, offline);
      Seqs.PushCappedStep(log, entry, rest, MaxAlerts);
      assert [entry] + rest == AlertsFor(pos, fired, dist, now, offline);
    }
  }

  /**
   * `checkNearbyRisks`: without a fix nothing changes. Otherwise the zones
   * within the default search radius are checked in cache order; each zone
   * that fires is logged and its location suppressed. Returns the new state and
   * the zones that fired (each one an alert shown to the user).
   */
  function CheckNearbyRisks(d: Detector, dist: Metric, now: int, offline: bool): (r: (Detector, seq<RiskZone>))
    ensures d.position.None? ==> r == (d, [])
    ensures r.0.zones == d.zones && r.0.position == d.position
    ensures d.position.Some? ==> forall z :: z in r.1 ==>
      z in d.zones && dist(d.position.value, z.center) <= DefaultSearchRadius &&
      dist(d.position.value, z.center) <= z.radius && z.center !in d.suppressed
    ensures d.position.Some? ==> forall z ::
      (z in d.zones && dist(d.position.value, z.center) <= DefaultSearchRadius && dist(d.position.value, z.center) <= z.radius) ==>
      z.center in r.0.suppressed
    ensures r.0.suppressed == d.suppressed + Centers(r.1)
    ensures CentersDistinct(r.1)
    ensures |d.alerts| <= MaxAlerts ==> |r.0.alerts| <= MaxAlerts
    ensures d.position.Some? ==> FirstCovering(d.position.value, FindNearby(d.zones, d.position.value, DefaultSearchRadius, dist), dist, r.1)
    ensures d.position.Some? && |d.alerts| <= MaxAlerts ==>
              r.0.alerts == (Seqs.Reversed(AlertsFor(d.position.value, r.1, dist, now, offline)) + d.alerts)[..Seqs.Min(MaxAlerts, |r.1| + |d.alerts|)]
  {
    match d.position
    case None => (d, [])
    case Some(pos) =>
      var nearby := FindNearby(d.zones, pos, DefaultSearchRadius, dist);
      var (fired, suppressed) := FireAlerts(pos, nearby, dist, d.suppressed);
      FiredAreFirstCovering(pos, nearby, dist, d.suppressed);
      var alerts := LogAlerts(d.alerts, pos, fired, dist, now, offline);
      (d.(suppressed := suppressed, alerts := alerts), fired)
  }

  /** The 30-minute timer set when a zone fired: its location may alert again. */
  function ExpireSuppression(d: Detector, key: Coord): (r: Detector)
    ensures key !in r.suppressed
    ensures r.suppressed + {key} == d.suppressed + {key}
    ensures r.zones == d.zones && r.position == d.position && r.alerts == d.alerts
  {
    d.(suppressed := d.suppressed - {key})
  }

  /** The GPS watch callback records the latest fix. */
  function UpdatePosition(d: Detector, fix: Coord): (r: Detector)
    ensures r.position == Some(fix)
    ensures r.zones == d.zones && r.suppressed == d.suppressed && r.alerts == d.alerts
  {
    d.(position := Some(fix))
  }

  /**
   * Two zones at the same location never both alert in one check, whatever their
   * types; and a location that fired stays silent on every later check, wherever
   * the user is, until its suppression expires.
   */
  lemma {:induction false} FiredLocationStaysSilent(d: Detector, dist: Metric, now1: int, off1: bool, fix: Coord, now2: int, off2: bool)
    ensures var fired1 := CheckNearbyRisks(d, dist, now1, off1).1;
            forall i, j :: 0 <= i < j < |fired1| ==> fired1[i].center != fired1[j].center
    ensures var (d1, fired1) := CheckNearbyRisks(d, dist, now1, off1);
            var (_, fired2) := CheckNearbyRisks(UpdatePosition(d1, fix), dist, now2, off2);
            forall z :: z in fired2 ==> z.center !in Centers(fired1)
  {
    var (d1, fired1) := CheckNearbyRisks(d, dist, now1, off1);
    var (_, fired2) := CheckNearbyRisks(UpdatePosition(d1, fix), dist, now2, off2);
    forall z | z in fired2 ensures z.center !in Centers(fired1) {
      assert z.center !in d1.suppressed;
    }
  }

  // ----- Predictive risk -----

  /** Night is 22:00 to 06:59 local time. */
  predicate IsNight(hour: int): (b: bool)
    ensures 0 <= hour < 24 ==> (b <==> !(7 <= hour < 22))
  {
    hour >= 22 || hour <= 6
  }

  /** The radius `getPredictiveRisk` looks within, in metres. */
  const PredictiveRadius: real := 500.0

  /**
   * `getPredictiveRisk`, with the local hour as a parameter: a HIGH zone within
   * 500 m, or any zone within 500 m at night, is HIGH; else a MEDIUM zone or
   * night is MEDIUM; else LOW.
   */
  function GetPredictiveRisk(zones: seq<RiskZone>, pos: Coord, hour: int, dist: Metric): (r: RiskLevel)
    ensures r == High <==>
      (exists z :: z in zones && dist(pos, z.center) <= PredictiveRadius && z.level == High) ||
      (IsNight(hour) && exists z :: z in zones && dist(pos, z.center) <= PredictiveRadius)
    ensures r == Low <==>
      !IsNight(hour) && forall z :: z in zones && dist(pos, z.center) <= PredictiveRadius ==> z.level == Low
  {
    var nearby := FindNearby(zones, pos, PredictiveRadius, dist);
    if exists z :: z in nearby && z.level == High then High
    else if IsNight(hour) && |nearby| > 0 then
      assert nearby[0] in nearby;
      High
    else if (exists z :: z in nearby && z.level == Medium) || IsNight(hour) then Medium
    else Low
  }

  /** With no zone within 500 m, the tier depends on the hour alone. */
  lemma PredictiveRiskAwayFromZones(zones: seq<RiskZone>, pos: Coord, hour: int, dist: Metric)
    requires forall z :: z in zones ==> dist(pos, z.center) > PredictiveRadius
    ensures GetPredictiveRisk(zones, pos, hour, dist) == if IsNight(hour) then Medium else Low
  {
  }

  // ----- Route analysis -----

  /** The radius around each waypoint `analyzeRoute` looks within, in metres. */
  const RouteRadius: real := 200.0

  /** Some waypoint lies within 200 m of `c`. */
  predicate NearRoute(waypoints: seq<Coord>, c: Coord, dist: Metric) {
    exists k :: 0 <= k < |waypoints| && dist(waypoints[k], c) <= RouteRadius
  }

  /** The zones near each waypoint, concatenated in waypoint order (duplicates kept). */
  function RisksAlong(zones: seq<RiskZone>, waypoints: seq<Coord>, dist: Metric): (r: seq<RiskZone>)
    ensures forall z :: z in r <==> z in zones && NearRoute(waypoints, z.center, dist)
  {
    if |waypoints| == 0 then []
    else
      var here := FindNearby(zones, waypoints[0], RouteRadius, dist);
      var rest := RisksAlong(zones, waypoints[1..], dist);
      forall c: Coord ensures NearRoute(waypoints, c, dist) <==> dist(waypoints[0], c) <= RouteRadius || NearRoute(waypoints[1..], c, dist) {
        if k :| 1 <= k < |waypoints| && dist(waypoints[k], c) <= RouteRadius {
          assert waypoints[1..][k - 1] == waypoints[k];
        }
        if NearRoute(waypoints[1..], c, dist) {
          var k :| 0 <= k < |waypoints[1..]| && dist(waypoints[1..][k], c) <= RouteRadius;
          assert waypoints[k + 1] == waypoints[1..][k];
        }
      }
      here + rest
  }

  /** The first zone of `s` at location `c`, as `Array.prototype.find` returns it. */
  function FirstAt(s: seq<RiskZone>, c: Coord): (r: Option<RiskZone>)
    ensures r.Some? ==> r.value in s && r.value.center == c
    ensures r.None? ==> c !in Centers(s)
  {
    if |s| == 0 then None
    else if s[0].center == c then Some(s[0])
    else
      FirstAt(s[1..], c)
  }

  /** The locations of a non-empty list: the first zone's and those of the rest. */
  lemma CentersCons(s: seq<RiskZone>)
    requires |s| > 0
    ensures Centers(s) == {s[0].center} + Centers(s[1..])
  {
    forall c | c in Centers(s) ensures c in {s[0].center} + Centers(s[1..]) {
      var y :| y in s && y.center == c;
      if y != s[0] { assert y in s[1..]; }
    }
  }

  /** The head of `s` in front of first zones of the tail at other locations: each is still the first at its location. */
  lemma FirstInFront(s: seq<RiskZone>, rest: seq<RiskZone>)
    requires |s| > 0
    requires forall z :: z in rest ==> z.center != s[0].center
    requires forall k :: 0 <= k < |rest| ==> FirstAt(s[1..], rest[k].center) == Some(rest[k])
    requires CentersDistinct(rest)
    ensures forall k :: 0 <= k < |rest| + 1 ==> FirstAt(s, ([s[0]] + rest)[k].center) == Some(([s[0]] + rest)[k])
    ensures CentersDistinct([s[0]] + rest)
  {
    var r := [s[0]] + rest;
    forall k | 0 <= k < |r| ensures FirstAt(s, r[k].center) == Some(r[k]) {
      if k > 0 {
        assert r[k] == rest[k - 1] && rest[k - 1] in rest;
      }
    }
    forall i, j | 0 <= i < j < |r| ensures r[i].center != r[j].center {
      assert r[j] == rest[j - 1] && rest[j - 1] in rest;
      if i > 0 { assert r[i] == rest[i - 1]; }
    }
  }

  /**
   * The de-duplication step: one zone per location not in `seen`, namely the
   * first zone of `s` at that location, in the order the locations first appear.
   */
  function DedupByLocation(s: seq<RiskZone>, seen: set<Coord>): (r: seq<RiskZone>)
    ensures forall z :: z in r ==> z in s && z.center !in seen
    ensures Centers(r) == Centers(s) - seen
    ensures CentersDistinct(r)
    ensures forall k :: 0 <= k < |r| ==> FirstAt(s, r[k].center) == Some(r[k])
    ensures Seqs.IsSubseq(r, s)
  {
    if |s| == 0 then []
    else
      var z := s[0];
      CentersCons(s);
      if z.center in seen then
        var rest := DedupByLocation(s[1..], seen);
        forall k | 0 <= k < |rest| ensures FirstAt(s, rest[k].center) == Some(rest[k]) {
          assert rest[k] in rest;
        }
        rest
      else
        var rest := DedupByLocation(s[1..], seen + {z.center});
        var r := [z] + rest;
        assert r[0] == z && r[1..] == rest;
        CentersCons(r);
        FirstInFront(s, rest);
        r
  }

  /** The recommendation tier of `analyzeRoute`, with the count its text quotes. */
  datatype Recommendation = AvoidHighRisk(highCount: nat) | StayAlert(zoneCount: nat) | AppearsSafe

  datatype RouteAnalysis = RouteAnalysis(hasRisks: bool, zones: seq<RiskZone>, recommendation: Recommendation)

  function CountHigh(zs: seq<RiskZone>): (n: nat)
    ensures n > 0 <==> exists z :: z in zs && z.level == High
  {
    |Seqs.Filter(zs, (z: RiskZone) => z.level == High)|
  }

  /**
   * `analyzeRoute`: the zones within 200 m of some waypoint, one per location;
   * `hasRisks` says whether there are any, and the recommendation asks to avoid
   * the route when one of them is HIGH, to stay alert when any remain, and
   * otherwise calls the route safe.
   */
  function AnalyzeRoute(zones: seq<RiskZone>, waypoints: seq<Coord>, dist: Metric): (r: RouteAnalysis)
    ensures forall z :: z in r.zones ==> z in zones && NearRoute(waypoints, z.center, dist)
    ensures forall z :: z in zones && NearRoute(waypoints, z.center, dist) ==> z.center in Centers(r.zones)
    ensures CentersDistinct(r.zones)
    ensures r.hasRisks <==> |r.zones| > 0
    ensures r.recommendation.AvoidHighRisk? <==> exists z :: z in r.zones && z.level == High
    ensures r.recommendation.AppearsSafe? <==> !r.hasRisks
    ensures r.recommendation.StayAlert? ==> r.recommendation.zoneCount == |r.zones|
    ensures r.recommendation.AvoidHighRisk? ==> r.recommendation.highCount == CountHigh(r.zones)
    ensures forall k :: 0 <= k < |r.zones| ==> FirstAt(RisksAlong(zones, waypoints, dist), r.zones[k].center) == Some(r.zones[k])
    ensures Seqs.IsSubseq(r.zones, RisksAlong(zones, waypoints, dist))
  {
    var along := RisksAlong(zones, waypoints, dist);
    var unique := DedupByLocation(along, {});
    assert Centers(unique) == Centers(along);
    var high := CountHigh(unique);
    var recommendation :=
      if high > 0 then AvoidHighRisk(high)
      else if |unique| > 0 then StayAlert(|unique|)
      else AppearsSafe;
    RouteAnalysis(|unique| > 0, unique, recommendation)
  }

  /** A route that passes within 200 m of some zone is reported as risky. */
  lemma RouteNearZoneHasRisks(zones: seq<RiskZone>, waypoints: seq<Coord>, dist: Metric, k: int, z: RiskZone)
    requires 0 <= k < |waypoints| && z in zones && dist(waypoints[k], z.center) <= RouteRadius
    ensures AnalyzeRoute(zones, waypoints, dist).hasRisks
  {
    var r := AnalyzeRoute(zones, waypoints, dist);
    assert NearRoute(waypoints, z.center, dist);
    assert z.center in Centers(r.zones);
  }
}
