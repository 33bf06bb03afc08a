/**
 * The route information panel: what it shows of the tracker's route data (the
 * duration and whether there is a route at all), how it writes a duration,
 * and the directions link its "view route" button opens.
 */
module RouteInfo {
  import opened Wrappers
  import Text
  import RouteTracker
  import Geo

  const MinuteMs: int := 60000
  const HourMs: int := 3600000

  /** Floor division is unique: the quotient of a remainder in range. */
  lemma DivUnique(x: int, d: int, q: int, r: int)
    requires d >= 1 && x == d * q + r && 0 <= r < d
    ensures x / d == q
  {
    var q0, r0 := x / d, x % d;
    if r >= r0 {
      assert d * (q0 - q) == r - r0;
      RouteTracker.ProductInRange(d, q0 - q);
    } else {
      assert d * (q - q0) == r0 - r;
      RouteTracker.ProductInRange(d, q - q0);
    }
  }

  /**
   * Whole minutes, then whole hours of them, are the whole hours; the minutes
   * past the hour are the same counted from the whole minutes or from the
   * milliseconds past the hour; so the hours and minutes shown add up to the
   * whole minutes of the duration.
   */
  lemma DurationTextAddsUp(ms: int)
    ensures (ms / MinuteMs) / 60 == ms / HourMs
    ensures (ms / MinuteMs) % 60 == (ms % HourMs) / MinuteMs
    ensures (ms / HourMs) * 60 + (ms % HourMs) / MinuteMs == ms / MinuteMs
    ensures (ms % HourMs) / MinuteMs < 60
  {
    var m, r1 := ms / MinuteMs, ms % MinuteMs;
    var h, r2 := m / 60, m % 60;
    assert ms == MinuteMs * m + r1;
    assert m == 60 * h + r2;
    assert ms == HourMs * h + (MinuteMs * r2 + r1);
    DivUnique(ms, HourMs, h, MinuteMs * r2 + r1);
    assert ms % HourMs == MinuteMs * r2 + r1;
    DivUnique(ms % HourMs, MinuteMs, r2, r1);
  }

  /**
   * `formatDuration`: from an hour on, the whole hours and the minutes past
   * them (`"2h 5m"`); below an hour, the whole minutes (`"42m"`). The
   * minutes are floored, also for a negative duration.
   */
  function FormatDuration(ms: int): (r: string)
    ensures ms >= HourMs ==> r == Text.NatToString(ms / HourMs) + "h " + Text.NatToString((ms % HourMs) / MinuteMs) + "m"
    ensures ms < HourMs ==> r == Text.IntToString(ms / MinuteMs) + "m"
  {
    var minutes := ms / MinuteMs;
    var hours := minutes / 60;
    var remaining := minutes % 60;
    DurationTextAddsUp(ms);
    if hours > 0 then Text.IntToString(hours) + "h " + Text.IntToString(remaining) + "m"
    else Text.IntToString(minutes) + "m"
  }

  /** What the panel shows of the route data: its duration and whether there is a route. */
  datatype Summary = Summary(duration: int, hasRoute: bool)

  function Summarize(data: RouteTracker.RouteData): (r: Summary)
    ensures r.duration == data.endTime - data.startTime
    ensures r.hasRoute <==> |data.points| > 0
  {
    Summary(data.endTime - data.startTime, |data.points| > 0)
  }

  /**
   * For the tracker's route data, the duration runs from the first fix to now, and is zero
   * without a route; so after the route is cleared the panel shows no route and no duration.
   */
  lemma SummaryOfSnapshot(points: seq<RouteTracker.LocationPoint>, t: RouteTracker.Tracker, now: int, dist: Geo.Metric)
    ensures var r := Summarize(RouteTracker.Snapshot(points, now, dist));
            (r.hasRoute <==> |points| > 0) &&
            r.duration == (if |points| > 0 then now - points[0].timestamp else 0)
    ensures Summarize(RouteTracker.Snapshot(RouteTracker.ClearRoute(t).points, now, dist)) == Summary(0, false)
  {
  }

  /**
   * `handleViewRoute`: nothing while the data is loading or the route is
   * empty; otherwise the directions link from the first point to the last,
   * through the shown points between them.
   */
  function ViewRoute(data: Option<RouteTracker.RouteData>, num: real -> string): (r: Option<string>)
    ensures r.None? <==> data.None? || |data.value.points| == 0
    ensures r.Some? ==>
              var ps := data.value.points;
              Text.StartsWith(r.value, RouteTracker.DirectionsBase + RouteTracker.CoordText(ps[0], num)
                                       + "&destination=" + RouteTracker.CoordText(ps[|ps| - 1], num))
  {
    match data
    case None => None
    case Some(d) =>
      if |d.points| == 0 then None
      else
        var ps := d.points;
        var shown := RouteTracker.PointsToShow(ps);
        var between := if |shown| < 2 then [] else shown[1..|shown| - 1];
        var head := RouteTracker.DirectionsBase + RouteTracker.CoordText(ps[0], num)
                    + "&destination=" + RouteTracker.CoordText(ps[|ps| - 1], num);
        var joined := Text.Join(RouteTracker.CoordTexts(between, num), "|");
        var url := head + (if joined != "" then "&waypoints=" + joined else "");
        assert url[..|head|] == head;
        Some(url)
  }

  /** The panel opens the same link the tracker generates for the route. */
  lemma SameLinkAsTracker(data: RouteTracker.RouteData, num: real -> string)
    requires |data.points| > 0
    ensures ViewRoute(Some(data), num) == Some(RouteTracker.GenerateRouteUrl(data.points, num))
  {
    var ps := data.points;
    var shown := RouteTracker.PointsToShow(ps);
    var stops := RouteTracker.RouteStops(ps).value;
    if |ps| > 10 {
      assert shown[1..|shown| - 1] == shown[1..9];
    }
    assert (if |shown| < 2 then [] else shown[1..|shown| - 1]) == stops.waypoints;
  }
}
