/**
 * The server's safety analysis routes: the score and risk tier of a zone,
 * the zone survey around a centre, the suggested route between two points
 * with its six evenly spaced waypoints and its recommendation, and the
 * in-memory log of reported incidents, capped at the newest 1000.
 *
 * The weighted zone score (crime records, lighting, crowd density, nearby
 * reports) is floating-point arithmetic over mock tables; it enters as the
 * parameter `raw`, and everything here holds for any such function. The
 * `toFixed(4)` rendering of a coordinate is the parameter `fixed4`.
 */
module SafetyAnalysis {
  import opened Wrappers
  import Geo
  import Seqs
  import Sorting

  datatype RiskLevel = Low | Medium | High

  /** Scores from here on are LOW risk. */
  const LowFrom: real := 70.0
  /** Scores from here on, below `LowFrom`, are MEDIUM risk. */
  const MediumFrom: real := 40.0

  /** `Math.max(0, Math.min(100, score))`. */
  function Clamp(x: real): (r: real)
    ensures 0.0 <= r <= 100.0
    ensures 0.0 <= x <= 100.0 ==> r == x
    ensures x < 0.0 ==> r == 0.0
    ensures x > 100.0 ==> r == 100.0
  {
    if x < 0.0 then 0.0 else if x > 100.0 then 100.0 else x
  }

  /** The risk tier of a score. */
  function Level(score: real): (r: RiskLevel)
    ensures r == Low <==> score >= LowFrom
    ensures r == Medium <==> MediumFrom <= score < LowFrom
    ensures r == High <==> score < MediumFrom
  {
    if score >= LowFrom then Low else if score >= MediumFrom then Medium else High
  }

  /** How risky a tier is: LOW 0, MEDIUM 1, HIGH 2. */
  function Rank(l: RiskLevel): nat {
    match l
    case Low => 0
    case Medium => 1
    case High => 2
  }

  /** A higher score never lands in a riskier tier. */
  lemma LevelMonotone(a: real, b: real)
    requires a <= b
    ensures Rank(Level(b)) <= Rank(Level(a))
  {
  }

  datatype Zone = Zone(id: string, at: Geo.Coord, score: real, level: RiskLevel)

  /** What `analyzeZone` guarantees of every zone it returns. */
  predicate ZoneOk(z: Zone) {
    0.0 <= z.score <= 100.0 && z.level == Level(z.score)
  }

  /** The zone id: both coordinates with four decimals, comma-separated. */
  function ZoneKey(at: Geo.Coord, fixed4: real -> string): string {
    fixed4(at.lat) + "," + fixed4(at.lng)
  }

  /**
   * `analyzeZone`: the raw score of the position clamped to [0, 100], its
   * tier, and the position's key as id.
   */
  function AnalyzeZone(at: Geo.Coord, radius: real, raw: (Geo.Coord, real) -> real, fixed4: real -> string): (z: Zone)
    ensures ZoneOk(z)
    ensures z.at == at && z.id == ZoneKey(at, fixed4)
    ensures 0.0 <= raw(at, radius) <= 100.0 ==> z.score == raw(at, radius)
  {
    var score := Clamp(raw(at, radius));
    Zone(ZoneKey(at, fixed4), at, score, Level(score))
  }

  /**
   * `normalizeValue` as written: `(value - min) / (max - min)` clamped to
   * [0, 1]. With `max == min` the division is by zero: a positive numerator
   * gives +Infinity (clamped to 1), a negative one -Infinity (clamped to 0),
   * and a zero one NaN, which both clamps pass through; `None` is that NaN.
   */
  function NormalizeValueAsWritten(value: real, min: real, max: real): (r: Option<real>)
    ensures r.None? <==> value == min && max == min
    ensures r.Some? ==> 0.0 <= r.value <= 1.0
    ensures min < max && min <= value <= max ==> r == Some((value - min) / (max - min))
  {
    if max != min then
      var q := (value - min) / (max - min);
      Some(if q < 0.0 then 0.0 else if q > 1.0 then 1.0 else q)
    else if value > min then Some(1.0)
    else if value < min then Some(0.0)
    else None
  }

  /** The degenerate range with the value on it is the input that yields NaN. */
  lemma NormalizeDegenerateRange()
    ensures NormalizeValueAsWritten(5.0, 5.0, 5.0).None?
  {
  }

  /**
   * `normalizeValue` with the degenerate range guarded: the same value as
   * written wherever that is a number, and 0 where it is NaN.
   */
  function NormalizeValue(value: real, min: real, max: real): (r: real)
    ensures 0.0 <= r <= 1.0
    ensures NormalizeValueAsWritten(value, min, max).Some? ==> r == NormalizeValueAsWritten(value, min, max).value
    ensures value == min && max == min ==> r == 0.0
  {
    match NormalizeValueAsWritten(value, min, max)
    case Some(v) => v
    case None => 0.0
  }

  /** A request number JavaScript treats as true: present and not zero. */
  predicate Truthy(v: Option<real>) {
    v.Some? && v.value != 0.0
  }

  /** A request string JavaScript treats as true: present and not empty. */
  predicate Given(v: Option<string>) {
    v.Some? && v.value != ""
  }

  // ---------------------------------------------------------------------
  // Zone survey
  // ---------------------------------------------------------------------

  /** Highest score first: the key of `sort((a, b) => b.score - a.score)`. */
  function SafestFirst(z: Zone): real {
    -z.score
  }

  function IsLow(z: Zone): bool {
    z.level == Low
  }

  function IsHigh(z: Zone): bool {
    z.level == High
  }

  /** The sum of the zones' scores. */
  function ScoreSum(zs: seq<Zone>): real
    decreases |zs|
  {
    if |zs| == 0 then 0.0 else zs[0].score + ScoreSum(zs[1..])
  }

  /** Scores that all lie in [lo, hi] sum to between |zs|·lo and |zs|·hi. */
  lemma {:induction false} SumBounds(zs: seq<Zone>, lo: real, hi: real)
    requires forall i :: 0 <= i < |zs| ==> lo <= zs[i].score <= hi
    ensures |zs| as real * lo <= ScoreSum(zs) <= |zs| as real * hi
    decreases |zs|
  {
    if |zs| > 0 {
      SumBounds(zs[1..], lo, hi);
    }
  }

  /** Every zone of a sequence is well formed. */
  predicate AllOk(zs: seq<Zone>) {
    forall i :: 0 <= i < |zs| ==> ZoneOk(zs[i])
  }

  /** The mean score of well-formed zones lies in [0, 100]. */
  lemma AverageInRange(zs: seq<Zone>)
    ensures AllOk(zs) && |zs| > 0 ==> 0.0 <= ScoreSum(zs) / |zs| as real <= 100.0
  {
    if AllOk(zs) {
      SumBounds(zs, 0.0, 100.0);
    }
  }

  datatype Survey = Survey(zones: seq<Zone>, safeZones: seq<Zone>, unsafeZones: seq<Zone>,
                           averageScore: Option<real>, totalZones: nat)

  datatype SurveyReply = CentreRequired | Surveyed(survey: Survey)

  /**
   * `POST /analyze-zones`: 400 unless both centre coordinates are truthy;
   * otherwise the analysed grid zones highest score first, the LOW and the
   * HIGH ones among them in that order, the mean score (NaN, here `None`,
   * without zones) and the count.
   */
  function AnalyzeZones(centerLat: Option<real>, centerLng: Option<real>, zones: seq<Zone>): (r: SurveyReply)
    ensures r.CentreRequired? <==> !(Truthy(centerLat) && Truthy(centerLng))
    ensures r.Surveyed? ==>
              var v := r.survey;
              && multiset(v.zones) == multiset(zones)
              && (forall i, j :: 0 <= i < j < |v.zones| ==> v.zones[i].score >= v.zones[j].score)
              && (forall z :: z in v.safeZones <==> z in zones && z.level == Low)
              && (forall z :: z in v.unsafeZones <==> z in zones && z.level == High)
              && Seqs.IsSubseq(v.safeZones, v.zones) && Seqs.IsSubseq(v.unsafeZones, v.zones)
              && v.totalZones == |zones|
              && (v.averageScore.None? <==> |zones| == 0)
    ensures r.Surveyed? && AllOk(zones) && |zones| > 0 ==> 0.0 <= r.survey.averageScore.value <= 100.0
  {
    if !(Truthy(centerLat) && Truthy(centerLng)) then CentreRequired
    else
      var sorted := Sorting.SortBy(zones, SafestFirst);
      SortedSafestFirst(sorted);
      Sorting.SameMembers(zones, sorted);
      var avg := if |zones| == 0 then None else Some(ScoreSum(zones) / |zones| as real);
      AverageInRange(zones);
      Surveyed(Survey(sorted, Seqs.Filter(sorted, IsLow), Seqs.Filter(sorted, IsHigh), avg, |zones|))
  }

  lemma SortedSafestFirst(sorted: seq<Zone>)
    requires Sorting.SortedBy(sorted, SafestFirst)
    ensures forall i, j :: 0 <= i < j < |sorted| ==> sorted[i].score >= sorted[j].score
  {
    forall i, j | 0 <= i < j < |sorted| ensures sorted[i].score >= sorted[j].score {
      assert SafestFirst(sorted[i]) <= SafestFirst(sorted[j]);
    }
  }

  /** No zone is both among the safe and among the unsafe ones. */
  lemma SafeAndUnsafeDisjoint(centerLat: Option<real>, centerLng: Option<real>, zones: seq<Zone>)
    requires AnalyzeZones(centerLat, centerLng, zones).Surveyed?
    ensures var v := AnalyzeZones(centerLat, centerLng, zones).survey;
            forall z :: z in v.safeZones ==> z !in v.unsafeZones
  {
  }

  // ---------------------------------------------------------------------
  // Suggested route
  // ---------------------------------------------------------------------

  /** The number of legs the straight line is cut into. */
  const Steps: nat := 5

  /** The point a fraction `t` of the way from `a` to `b`. */
  function Lerp(a: Geo.Coord, b: Geo.Coord, t: real): Geo.Coord {
    Geo.Coord(a.lat + t * (b.lat - a.lat), a.lng + t * (b.lng - a.lng))
  }

  /**
   * The route's waypoints: the start, the points at 1/5, 2/5, 3/5 and 4/5 of
   * the way, and the end, so that every waypoint `i` lies at `i/5`.
   */
  method Waypoints(start: Geo.Coord, end: Geo.Coord) returns (wps: seq<Geo.Coord>)
    ensures |wps| == Steps + 1
    ensures wps[0] == start && wps[Steps] == end
    ensures forall i :: 0 <= i <= Steps ==> wps[i] == Lerp(start, end, i as real / Steps as real)
  {
    wps := [start];
    var i := 1;
    while i < Steps
      invariant 1 <= i <= Steps
      invariant |wps| == i
      invariant wps[0] == start
      invariant forall k :: 0 <= k < i ==> wps[k] == Lerp(start, end, k as real / Steps as real)
    {
      var t := i as real / Steps as real;
      wps := wps + [Geo.Coord(start.lat + t * (end.lat - start.lat), start.lng + t * (end.lng - start.lng))];
      i := i + 1;
    }
    wps := wps + [end];
  }

  /** The radius each waypoint is analysed within, in kilometres. */
  const WaypointRadius: real := 0.3

  /** The analysed zone of every waypoint, in route order. */
  function RouteZones(wps: seq<Geo.Coord>, raw: (Geo.Coord, real) -> real, fixed4: real -> string): (zs: seq<Zone>)
    ensures |zs| == |wps| && AllOk(zs)
    ensures forall i :: 0 <= i < |zs| ==> zs[i].at == wps[i]
  {
    seq(|wps|, i requires 0 <= i < |wps| => AnalyzeZone(wps[i], WaypointRadius, raw, fixed4))
  }

  /** How many of the zones are in tier `l`. */
  function CountLevel(zs: seq<Zone>, l: RiskLevel): nat
    decreases |zs|
  {
    if |zs| == 0 then 0 else (if zs[0].level == l then 1 else 0) + CountLevel(zs[1..], l)
  }

  const RiskPrefix: string := "High-risk zone near "

  /** The warning text for each HIGH zone among `zs`. */
  function HighTexts(zs: seq<Zone>): set<string> {
    set i | 0 <= i < |zs| && zs[i].level == High :: RiskPrefix + zs[i].id
  }

  /** One warning per HIGH zone, in route order, naming the zone. */
  function Risks(zs: seq<Zone>): (r: seq<string>)
    ensures |r| == CountLevel(zs, High)
    ensures forall x :: x in r <==> x in HighTexts(zs)
    decreases |zs|
  {
    if |zs| == 0 then []
    else
      var rest := Risks(zs[1..]);
      var head := if zs[0].level == High then [RiskPrefix + zs[0].id] else [];
      HighTextsStep(zs);
      head + rest
  }

  /** The warning texts of a route are those of its first zone and those of the rest. */
  lemma HighTextsStep(zs: seq<Zone>)
    requires |zs| > 0
    ensures HighTexts(zs) == (if zs[0].level == High then {RiskPrefix + zs[0].id} else {}) + HighTexts(zs[1..])
  {
    var tail := zs[1..];
    forall x | x in HighTexts(zs) && x !in HighTexts(tail) ensures zs[0].level == High && x == RiskPrefix + zs[0].id {
      var i :| 0 <= i < |zs| && zs[i].level == High && x == RiskPrefix + zs[i].id;
    }
    forall x | x in HighTexts(tail) ensures x in HighTexts(zs) {
      var i :| 0 <= i < |tail| && tail[i].level == High && x == RiskPrefix + tail[i].id;
      assert tail[i] == zs[i + 1];
    }
  }

  const SafeRoute: string := "\U{2705} This is a generally safe route"
  const CautionRoute: string := "\U{26A0}\U{FE0F} Route has some unsafe zones. Consider alternatives or travel with others."
  const UnsafeRoute: string := "\U{274C} This route is unsafe. Use alternative route and notify authorities."

  /** The recommendation for a mean score: safe from 70, caution from 40, unsafe below. */
  function Recommendation(average: real): (r: string)
    ensures r == SafeRoute <==> average >= LowFrom
    ensures r == CautionRoute <==> MediumFrom <= average < LowFrom
    ensures r == UnsafeRoute <==> average < MediumFrom
  {
    if average >= LowFrom then SafeRoute else if average >= MediumFrom then CautionRoute else UnsafeRoute
  }

  /** The recommendation follows the same tiers as a zone's risk level. */
  lemma RecommendationFollowsTiers(average: real)
    ensures Recommendation(average) == (match Level(average)
                                        case Low => SafeRoute
                                        case Medium => CautionRoute
                                        case High => UnsafeRoute)
  {
  }

  /** Minutes per kilometre assumed for the estimate. */
  const MinutesPerKm: real := 12.0
  /** The detour factor applied to the straight-line distance. */
  const Detour: real := 1.1

  datatype Route = Route(waypoints: seq<Geo.Coord>, score: int, distance: real, estimatedTime: int,
                         risks: seq<string>, recommendation: string)

  datatype RouteReply = EndpointsRequired | Suggested(route: Route, alternativeAvailable: bool)

  /** The mean score of the route's zones. */
  function MeanScore(zs: seq<Zone>): real
    requires |zs| > 0
  {
    ScoreSum(zs) / |zs| as real
  }

  /** The route assessment for given waypoints and straight-line distance. */
  function Assess(wps: seq<Geo.Coord>, direct: real, raw: (Geo.Coord, real) -> real, fixed4: real -> string): (r: RouteReply)
    requires |wps| > 0
    ensures r.Suggested?
    ensures var zs := RouteZones(wps, raw, fixed4);
            var avg := MeanScore(zs);
            && r.route.waypoints == wps
            && 0 <= r.route.score <= 100
            && r.route.score == Geo.Round(avg)
            && (r.alternativeAvailable <==> avg < LowFrom)
            && r.route.recommendation == Recommendation(avg)
            && r.route.risks == Risks(zs)
            && r.route.distance == direct * Detour
            && r.route.estimatedTime == Geo.Round(direct * Detour * MinutesPerKm)
  {
    var zs := RouteZones(wps, raw, fixed4);
    var avg := MeanScore(zs);
    AverageInRange(zs);
    var route := Route(wps, Geo.Round(avg), direct * Detour, Geo.Round(direct * Detour * MinutesPerKm), Risks(zs), Recommendation(avg));
    Suggested(route, avg < LowFrom)
  }

  /**
   * `POST /suggest-route`: 400 unless all four coordinates are truthy;
   * otherwise the six waypoints, the rounded mean score in [0, 100], one risk
   * per HIGH waypoint, the tiered recommendation, and an alternative offered
   * exactly when the mean is below 70.
   */
  method SuggestRoute(startLat: Option<real>, startLng: Option<real>, endLat: Option<real>, endLng: Option<real>,
                      dist: Geo.Metric, raw: (Geo.Coord, real) -> real, fixed4: real -> string)
    returns (r: RouteReply)
    ensures r.EndpointsRequired? <==> !(Truthy(startLat) && Truthy(startLng) && Truthy(endLat) && Truthy(endLng))
    ensures r.Suggested? ==>
              var start := Geo.Coord(startLat.value, startLng.value);
              var end := Geo.Coord(endLat.value, endLng.value);
              var wps := r.route.waypoints;
              && |wps| == Steps + 1
              && (forall i :: 0 <= i <= Steps ==> wps[i] == Lerp(start, end, i as real / Steps as real))
              && r == Assess(wps, dist(start, end), raw, fixed4)
              && |r.route.risks| == CountLevel(RouteZones(wps, raw, fixed4), High)
              && 0 <= r.route.score <= 100
              && (r.alternativeAvailable <==> r.route.recommendation != SafeRoute)
  {
    if !(Truthy(startLat) && Truthy(startLng) && Truthy(endLat) && Truthy(endLng)) {
      return EndpointsRequired;
    }
    var start := Geo.Coord(startLat.value, startLng.value);
    var end := Geo.Coord(endLat.value, endLng.value);
    var wps := Waypoints(start, end);
    r := Assess(wps, dist(start, end), raw, fixed4);
  }

  /** A route whose waypoints are all LOW risk is recommended as safe, with no risks and no alternative. */
  lemma AllLowIsSafe(wps: seq<Geo.Coord>, direct: real, raw: (Geo.Coord, real) -> real, fixed4: real -> string)
    requires |wps| > 0
    requires forall i :: 0 <= i < |wps| ==> AnalyzeZone(wps[i], WaypointRadius, raw, fixed4).level == Low
    ensures var r := Assess(wps, direct, raw, fixed4);
            r.route.recommendation == SafeRoute && r.route.risks == [] && !r.alternativeAvailable
  {
    var zs := RouteZones(wps, raw, fixed4);
    assert forall i :: 0 <= i < |zs| ==> zs[i] == AnalyzeZone(wps[i], WaypointRadius, raw, fixed4);
    SumBounds(zs, LowFrom, 100.0);
    MeanBelow(ScoreSum(zs), |zs|, LowFrom);
    CountUniform(zs, High);
  }

  /** A route whose waypoints are all HIGH risk is unsafe and lists every waypoint as a risk. */
  lemma AllHighIsUnsafe(wps: seq<Geo.Coord>, direct: real, raw: (Geo.Coord, real) -> real, fixed4: real -> string)
    requires |wps| > 0
    requires forall i :: 0 <= i < |wps| ==> AnalyzeZone(wps[i], WaypointRadius, raw, fixed4).level == High
    ensures var r := Assess(wps, direct, raw, fixed4);
            r.route.recommendation == UnsafeRoute && |r.route.risks| == |wps| && r.alternativeAvailable
  {
    var zs := RouteZones(wps, raw, fixed4);
    assert forall i :: 0 <= i < |zs| ==> zs[i] == AnalyzeZone(wps[i], WaypointRadius, raw, fixed4);
    StrictSumBound(zs, MediumFrom);
    MeanBelow(ScoreSum(zs), |zs|, MediumFrom);
    assert MeanScore(zs) < MediumFrom;
    CountUniform(zs, High);
  }

  /** A sum compares with `n` times a bound as its mean compares with the bound. */
  lemma MeanBelow(sum: real, n: nat, c: real)
    requires n > 0
    ensures sum < n as real * c <==> sum / n as real < c
  {
    var m := sum / n as real;
    assert sum == m * n as real;
    if m < c {
      assert m * n as real < c * n as real;
    } else {
      assert m * n as real >= c * n as real;
    }
  }

  /** Scores all strictly below `hi` sum to strictly less than |zs|·hi, for a non-empty sequence. */
  lemma {:induction false} StrictSumBound(zs: seq<Zone>, hi: real)
    requires |zs| > 0
    requires forall i :: 0 <= i < |zs| ==> zs[i].score < hi
    ensures ScoreSum(zs) < |zs| as real * hi
    decreases |zs|
  {
    if |zs| > 1 {
      StrictSumBound(zs[1..], hi);
    }
  }

  /** When no zone is in tier `l`, none is counted; when every zone is, all of them are. */
  lemma {:induction false} CountUniform(zs: seq<Zone>, l: RiskLevel)
    ensures (forall i :: 0 <= i < |zs| ==> zs[i].level != l) ==> CountLevel(zs, l) == 0
    ensures (forall i :: 0 <= i < |zs| ==> zs[i].level == l) ==> CountLevel(zs, l) == |zs|
    decreases |zs|
  {
    if |zs| > 0 {
      CountUniform(zs[1..], l);
      assert forall i :: 1 <= i < |zs| ==> zs[1..][i - 1] == zs[i];
    }
  }

  // ---------------------------------------------------------------------
  // Incident reports
  // ---------------------------------------------------------------------

  /** The reports kept in memory. */
  const MaxReports: nat := 1000
  /** The radius, in kilometres, that counts as "in the area" of a report. */
  const AreaRadius: real := 0.5
  const DefaultSeverity: string := "MEDIUM"

  datatype Report = Report(at: Geo.Coord, timestamp: int, severity: string)

  datatype IncidentReply = LocationRequired | Reported(reportsInArea: nat)

  /** The log update: the report is appended, and only the newest 1000 are kept. */
  function Keep(log: seq<Report>, rep: Report): (r: seq<Report>)
    ensures 0 < |r| <= |log| + 1 && r[|r| - 1] == rep
    ensures |log| < MaxReports ==> r == log + [rep]
    ensures |log| >= MaxReports ==> |r| == MaxReports && r == (log + [rep])[|log| + 1 - MaxReports..]
  {
    var grown := log + [rep];
    if |grown| > MaxReports then grown[|grown| - MaxReports..] else grown
  }

  /** How many reports lie within `AreaRadius` of `here`. */
  function CountNear(log: seq<Report>, here: Geo.Coord, dist: Geo.Metric): (n: nat)
    ensures n <= |log|
    decreases |log|
  {
    if |log| == 0 then 0
    else (if dist(here, log[0].at) <= AreaRadius then 1 else 0) + CountNear(log[1..], here, dist)
  }

  /**
   * `POST /report-incident`: 400 (and no change) unless both coordinates are
   * truthy; otherwise the report, stamped now and with severity `MEDIUM` when
   * none is given, joins the log, the log keeps its newest 1000, and the reply
   * counts the kept reports within half a kilometre of the reported point.
   */
  function ReportIncident(log: seq<Report>, lat: Option<real>, lng: Option<real>, severity: Option<string>,
                          now: int, dist: Geo.Metric): (r: (seq<Report>, IncidentReply))
    ensures r.1 == LocationRequired <==> !(Truthy(lat) && Truthy(lng))
    ensures r.1 == LocationRequired ==> r.0 == log
    ensures r.1.Reported? ==>
              var rep := Report(Geo.Coord(lat.value, lng.value), now, if Given(severity) then severity.value else DefaultSeverity);
              && 0 < |r.0| <= |log| + 1 && r.0[|r.0| - 1] == rep
              && r.0 == (log + [rep])[|log| + 1 - |r.0|..]
              && r.1.reportsInArea <= |r.0|
              && r.1.reportsInArea == CountNear(r.0, rep.at, dist)
    ensures |log| <= MaxReports ==> |r.0| <= MaxReports
  {
    if !(Truthy(lat) && Truthy(lng)) then (log, LocationRequired)
    else
      var rep := Report(Geo.Coord(lat.value, lng.value), now, if Given(severity) then severity.value else DefaultSeverity);
      var kept := Keep(log, rep);
      (kept, Reported(CountNear(kept, rep.at, dist)))
  }

  /** The log after a run of reports, one by one. */
  function KeepAll(log: seq<Report>, reps: seq<Report>): seq<Report>
    decreases |reps|
  {
    if |reps| == 0 then log else KeepAll(Keep(log, reps[0]), reps[1..])
  }

  /** However many reports arrive, the log holds the newest ones, in arrival order, never more than 1000. */
  lemma {:induction false} LogKeepsNewest(log: seq<Report>, reps: seq<Report>)
    requires |log| <= MaxReports
    ensures var r := KeepAll(log, reps);
            |r| == Seqs.Min(MaxReports, |log| + |reps|) &&
            r == (log + reps)[|log| + |reps| - |r|..]
    decreases |reps|
  {
    if |reps| > 0 {
      var next := Keep(log, reps[0]);
      LogKeepsNewest(next, reps[1..]);
      Seqs.AppendCappedStep(log, next, reps, KeepAll(next, reps[1..]), MaxReports);
    }
  }

  /** A report that is accepted is itself counted in its area whenever the metric puts a point at distance 0 from itself. */
  lemma ReportCountsItself(log: seq<Report>, lat: Option<real>, lng: Option<real>, severity: Option<string>,
                           now: int, dist: Geo.Metric)
    requires Truthy(lat) && Truthy(lng)
    requires dist(Geo.Coord(lat.value, lng.value), Geo.Coord(lat.value, lng.value)) == 0.0
    ensures ReportIncident(log, lat, lng, severity, now, dist).1.reportsInArea >= 1
  {
    var r := ReportIncident(log, lat, lng, severity, now, dist);
    NearLastCounts(r.0, Geo.Coord(lat.value, lng.value), dist);
  }

  /** A log whose last report is near `here` counts at least one. */
  lemma {:induction false} NearLastCounts(log: seq<Report>, here: Geo.Coord, dist: Geo.Metric)
    requires |log| > 0 && dist(here, log[|log| - 1].at) <= AreaRadius
    ensures CountNear(log, here, dist) >= 1
    decreases |log|
  {
    if |log| > 1 {
      assert log[1..][|log| - 2] == log[|log| - 1];
      NearLastCounts(log[1..], here, dist);
    }
  }
}
