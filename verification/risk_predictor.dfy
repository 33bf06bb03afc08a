/**
 * The client-side risk score: a baseline of 40 adjusted by the hour, the
 * weather, the crowd level and whether the user is out later than usual,
 * clamped to 0..100 and labelled LOW, MEDIUM or HIGH.
 */
module RiskPredictor {
  import opened Wrappers

  datatype Weather = Clear | Rain | Fog | Snow | Clouds
  datatype Crowd = LowCrowd | MediumCrowd | HighCrowd
  datatype Label = LowRisk | MediumRisk | HighRisk

  /** The optional inputs of `computeRisk`; an absent one takes its default. */
  datatype RiskInputs = RiskInputs(hour: Option<int>, weather: Option<Weather>, crowd: Option<Crowd>, isLateForUser: Option<bool>)

  datatype RiskResult = RiskResult(score: int, level: Label, factors: seq<string>)

  const Baseline: int := 40

  /** `clamp(v, min, max)`: `Math.max(min, Math.min(max, v))`. */
  function Clamp(v: int, lo: int, hi: int): (r: int)
    ensures r >= lo
    ensures lo <= hi ==> r <= hi
    ensures lo <= v <= hi ==> r == v
    ensures v < lo ==> r == lo
    ensures lo <= hi < v ==> r == hi
  {
    if v > hi then (if hi > lo then hi else lo) else if v < lo then lo else v
  }

  /** The four time-of-day buckets; exactly one applies to any hour. */
  datatype TimeOfDay = LateNight | Evening | Dusk | Daytime

  function TimeBucket(hour: int): (t: TimeOfDay)
    ensures t == LateNight <==> hour >= 23 || hour < 5
    ensures t == Evening <==> 20 <= hour < 23
    ensures t == Dusk <==> 17 <= hour < 20
    ensures t == Daytime <==> 5 <= hour < 17
  {
    if hour >= 23 || hour < 5 then LateNight
    else if hour >= 20 then Evening
    else if hour >= 17 then Dusk
    else Daytime
  }

  function TimeDelta(t: TimeOfDay): int {
    match t
    case LateNight => 25
    case Evening => 15
    case Dusk => 5
    case Daytime => -5
  }

  function TimeFactor(t: TimeOfDay): string {
    match t
    case LateNight => "Late night"
    case Evening => "Evening"
    case Dusk => "Dusk"
    case Daytime => "Daytime"
  }

  function WeatherDelta(w: Weather): int {
    match w
    case Rain => 10
    case Fog => 12
    case Snow => 8
    case Clouds => 2
    case Clear => 0
  }

  function WeatherFactor(w: Weather): string {
    match w
    case Rain => "Rain"
    case Fog => "Fog/low visibility"
    case Snow => "Snow"
    case Clouds => "Cloudy"
    case Clear => "Clear"
  }

  function CrowdDelta(c: Crowd): int {
    match c
    case HighCrowd => -10
    case LowCrowd => 10
    case MediumCrowd => 0
  }

  function CrowdFactor(c: Crowd): string {
    match c
    case HighCrowd => "Crowd present"
    case LowCrowd => "Low crowd"
    case MediumCrowd => "Medium crowd"
  }

  const LateDelta: int := 8
  const LateFactor: string := "Later than usual"

  /** The score before clamping. */
  function RawScore(hour: int, w: Weather, c: Crowd, late: bool): int {
    Baseline + TimeDelta(TimeBucket(hour)) + WeatherDelta(w) + CrowdDelta(c) + (if late then LateDelta else 0)
  }

  /** The unclamped score always lies within 25..95, so the clamp to 0..100 never changes it. */
  lemma RawScoreRange(hour: int, w: Weather, c: Crowd, late: bool)
    ensures 25 <= RawScore(hour, w, c, late) <= 95
  {
  }

  /** The label thresholds: HIGH from 70, MEDIUM from 45. */
  function LabelFor(score: int): (l: Label)
    ensures l == HighRisk <==> score >= 70
    ensures l == MediumRisk <==> 45 <= score < 70
    ensures l == LowRisk <==> score < 45
  {
    if score >= 70 then HighRisk else if score >= 45 then MediumRisk else LowRisk
  }

  /**
   * `computeRisk`, with the clock's hour as a parameter for when the input has
   * none. Weather defaults to clear, crowd to medium and the late flag to false.
   */
  function ComputeRisk(inputs: RiskInputs, clockHour: int): (r: RiskResult)
    ensures var hour := inputs.hour.GetOr(clockHour);
            var w := inputs.weather.GetOr(Clear);
            var c := inputs.crowd.GetOr(MediumCrowd);
            var late := inputs.isLateForUser.GetOr(false);
            && 0 <= r.score <= 100
            && r.score == RawScore(hour, w, c, late)
            && |r.factors| == (if late then 4 else 3)
            && r.factors[0] == TimeFactor(TimeBucket(hour))
            && r.factors[1] == WeatherFactor(w)
            && r.factors[2] == CrowdFactor(c)
            && (late ==> r.factors[3] == LateFactor)
    ensures r.level == HighRisk <==> r.score >= 70
    ensures r.level == MediumRisk <==> 45 <= r.score < 70
    ensures r.level == LowRisk <==> r.score < 45
  {
    var hour := inputs.hour.GetOr(clockHour);
    var w := inputs.weather.GetOr(Clear);
    var c := inputs.crowd.GetOr(MediumCrowd);
    var late := inputs.isLateForUser.GetOr(false);
    var t := TimeBucket(hour);
    var factors := [TimeFactor(t), WeatherFactor(w), CrowdFactor(c)] + (if late then [LateFactor] else []);
    RawScoreRange(hour, w, c, late);
    var score := Clamp(RawScore(hour, w, c, late), 0, 100);
    RiskResult(score, LabelFor(score), factors)
  }

  /**
   * Being out later than usual never lowers the score, as it adds exactly 8; and a thinner
   * crowd never means a lower score: low >= medium >= high.
   */
  lemma ScoreMonotone(hour: int, w: Option<Weather>, c: Option<Crowd>, late: Option<bool>)
    ensures ComputeRisk(RiskInputs(Some(hour), w, c, Some(true)), hour).score ==
            ComputeRisk(RiskInputs(Some(hour), w, c, Some(false)), hour).score + LateDelta
    ensures ComputeRisk(RiskInputs(Some(hour), w, Some(LowCrowd), late), hour).score >=
            ComputeRisk(RiskInputs(Some(hour), w, Some(MediumCrowd), late), hour).score >=
            ComputeRisk(RiskInputs(Some(hour), w, Some(HighCrowd), late), hour).score
  {
  }

  /** Absent weather and crowd score exactly like clear weather and a medium crowd. */
  lemma DefaultsAreClearAndMedium(hour: Option<int>, late: Option<bool>, clockHour: int)
    ensures ComputeRisk(RiskInputs(hour, None, None, late), clockHour) ==
            ComputeRisk(RiskInputs(hour, Some(Clear), Some(MediumCrowd), late), clockHour)
  {
  }

  /** `estimateCrowdByHour`: rush hours are crowded, midday moderately, the rest quiet. */
  function EstimateCrowdByHour(hour: int): (c: Crowd)
    ensures c == HighCrowd <==> 8 <= hour <= 10 || 17 <= hour <= 20
    ensures c == MediumCrowd <==> 11 <= hour <= 16
    ensures c == LowCrowd <==> hour < 8 || hour > 20
  {
    if 8 <= hour <= 10 then HighCrowd
    else if 17 <= hour <= 20 then HighCrowd
    else if 11 <= hour <= 16 then MediumCrowd
    else LowCrowd
  }
}
