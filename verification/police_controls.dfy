/**
 * The controls of the 24x7 police-watch page around the session it keeps:
 * the start and stop buttons, the one-second session clock and its
 * `HH:MM:SS` text, the two-minute inactivity timer each fix arms, the SOS
 * button, clearing the path, and the nearest-first list of police stations.
 */
module PoliceControls {
  import opened Wrappers
  import opened Geo
  import opened Police
  import Text
  import Sorting
  import PersonalInfo
  import RouteInfo

  // ----- The buttons and timers -----

  /** Start: refused with an error entry without geolocation, otherwise tracking with an entry. */
  function StartTracking(s: Session, hasGeolocation: bool, now: int, clock: int -> string): (r: Session)
    ensures r.tracking <==> hasGeolocation || s.tracking
    ensures r == s.(tracking := r.tracking, logs := r.logs) && |r.logs| > 0
  {
    if !hasGeolocation then s.(logs := AddLog(s.logs, clock(now), "Geolocation not supported", ErrorLog))
    else s.(tracking := true, logs := AddLog(s.logs, clock(now), "\U{1F534} Tracking started", InfoLog))
  }

  function StopTracking(s: Session, now: int, clock: int -> string): (r: Session)
    ensures !r.tracking && r == s.(tracking := false, logs := r.logs)
  {
    s.(tracking := false, logs := AddLog(s.logs, clock(now), "\U{23F9}\U{FE0F} Tracking stopped", InfoLog))
  }

  /** The session clock: one second more per tick while tracking. */
  function Tick(s: Session): (r: Session)
    ensures r.duration == if s.tracking then s.duration + 1 else s.duration
    ensures r == s.(duration := r.duration)
  {
    if s.tracking then s.(duration := s.duration + 1) else s
  }

  /**
   * The timer each fix arms: two minutes later a warning, unless the status is
   * SOS. The callback belongs to the fix handler, so it reads the status of
   * the render that handler was created in (`view`) and writes the live
   * session `s`. The handler's `inactivityTimer` is likewise the one of that
   * render, always null, so no earlier timer is ever cleared: every fix's
   * timer fires, whatever fixes follow it.
   */
  function OnInactivity(view: Session, s: Session, now: int, clock: int -> string): (r: Session)
    ensures view.status == Sos ==> r == s
    ensures view.status != Sos ==> r.status == Warning && r == s.(status := Warning, logs := r.logs)
    ensures view.status != Sos ==> 0 < |r.logs| <= |s.logs| + 1 && r.logs[0].kind == WarningLog && r.logs[1..] == s.logs[..|r.logs| - 1]
  {
    if view.status == Sos then s
    else s.(status := Warning, logs := AddLog(s.logs, clock(now), "No movement for 2 minutes", WarningLog))
  }

  /** The timer as intended, reading the live session: SOS is the one status it leaves alone. */
  function OnInactivityLive(s: Session, now: int, clock: int -> string): (r: Session)
    ensures r.status == (if s.status == Sos then Sos else Warning)
    ensures s.status == Sos ==> r == s
    ensures s.status != Sos ==> |r.logs| > 0 && r.logs[0].kind == WarningLog
  {
    OnInactivity(s, s, now, clock)
  }

  /**
   * The SOS button: status SOS and the emergency flagged, then a note that the
   * contacts were notified when a profile is stored, or an error entry when
   * the stored profile cannot be parsed.
   */
  function TriggerSos(s: Session, profile: PersonalInfo.StoredProfile, now: int, clock: int -> string): (r: Session)
    ensures r.status == Sos && r.emergencyContacted
    ensures |r.logs| > 0 && r.logs[0].kind == (if profile.Unparsable? then ErrorLog else SosLog)
    ensures r == s.(status := Sos, emergencyContacted := true, logs := r.logs)
  {
    var logs := AddLog(s.logs, clock(now), "SOS TRIGGERED - Emergency Alert Sent", SosLog);
    var logs' := match profile
      case NoProfile => logs
      case Unparsable => AddLog(logs, clock(now), "Error contacting emergency services", ErrorLog)
      case Saved(_) => AddLog(logs, clock(now), "\U{1F4F1} Emergency contacts notified via SOS system", SosLog);
    s.(status := Sos, emergencyContacted := true, logs := logs')
  }

  /**
   * As registered: tracking started from any status but SOS, and SOS pressed
   * later; the timer of a fix received since still sees the start-of-tracking
   * status and turns the emergency into a warning.
   */
  lemma StaleTimerOverwritesSos(started: Session, s: Session, profile: PersonalInfo.StoredProfile, pressed: int, now: int, clock: int -> string)
    requires !started.status.Sos?
    ensures TriggerSos(s, profile, pressed, clock).status == Sos
    ensures OnInactivity(started, TriggerSos(s, profile, pressed, clock), now, clock).status == Warning
  {
  }

  /** Reading the live session, the timer leaves a raised SOS exactly as it is. */
  lemma LiveTimerKeepsSos(s: Session, profile: PersonalInfo.StoredProfile, pressed: int, now: int, clock: int -> string)
    ensures OnInactivityLive(TriggerSos(s, profile, pressed, clock), now, clock) == TriggerSos(s, profile, pressed, clock)
  {
  }

  /** `clearPath`: distance, path, duration and speed back to zero, status safe; the last fix is kept. */
  function ClearPath(s: Session, now: int, clock: int -> string): (r: Session)
    ensures r.totalDistance == 0.0 && r.path == [] && r.duration == 0 && r.avgSpeed == 0.0
    ensures r.status == Safe && !r.emergencyContacted
    ensures r.tracking == s.tracking && r.current == s.current && r.previous == s.previous
  {
    s.(totalDistance := 0.0, path := [], duration := 0, avgSpeed := 0.0, status := Safe, emergencyContacted := false,
       logs := AddLog(s.logs, clock(now), "\U{1F5D1}\U{FE0F} Session cleared and reset", InfoLog))
  }

  /** After a clear, the next fix's distance is measured from the last fix before the clear. */
  lemma ClearThenFix(s: Session, fix: Fix, now: int, dist: Metric, clock: int -> string, fixed: real -> string)
    requires s.previous.Some?
    ensures OnFix(ClearPath(s, now, clock), fix, dist, clock, fixed).totalDistance == dist(s.previous.value.pos, fix.pos)
    ensures OnFix(ClearPath(s, now, clock), fix, dist, clock, fixed).path == [PathPoint(fix.pos, fix.timestamp)]
  {
  }

  // ----- The session clock text -----

  /** `formatTime`: hours, minutes and seconds, each at least two digits, separated by colons. */
  function FormatTime(seconds: nat): (r: string)
    ensures |r| >= 8 && r[|r| - 3] == ':' && r[|r| - 6] == ':'
    ensures Text.AllDigits(r[..|r| - 6]) && Text.AllDigits(r[|r| - 5..|r| - 3]) && Text.AllDigits(r[|r| - 2..])
    ensures Text.ParseDecimal(r[|r| - 2..]) < 60 && Text.ParseDecimal(r[|r| - 5..|r| - 3]) < 60
    ensures Text.ParseDecimal(r[..|r| - 6]) * 3600 + Text.ParseDecimal(r[|r| - 5..|r| - 3]) * 60
            + Text.ParseDecimal(r[|r| - 2..]) == seconds
  {
    var hrs, mins, secs := seconds / 3600, (seconds % 3600) / 60, seconds % 60;
    SplitSeconds(seconds);
    ClockFields(hrs, mins, secs);
    var r := Text.Pad2(hrs) + ":" + Text.Pad2(mins) + ":" + Text.Pad2(secs);
    assert Text.ParseDecimal(r[..|r| - 6]) * 3600 == hrs * 3600;
    assert Text.ParseDecimal(r[|r| - 5..|r| - 3]) * 60 == mins * 60;
    r
  }

  /** The three padded fields, joined by colons, read back as the numbers they pad. */
  lemma ClockFields(hrs: nat, mins: nat, secs: nat)
    requires mins < 60 && secs < 60
    ensures var r := Text.Pad2(hrs) + ":" + Text.Pad2(mins) + ":" + Text.Pad2(secs);
            |r| >= 8 && r[|r| - 3] == ':' && r[|r| - 6] == ':' &&
            Text.AllDigits(r[..|r| - 6]) && Text.AllDigits(r[|r| - 5..|r| - 3]) && Text.AllDigits(r[|r| - 2..]) &&
            Text.ParseDecimal(r[..|r| - 6]) == hrs && Text.ParseDecimal(r[|r| - 5..|r| - 3]) == mins &&
            Text.ParseDecimal(r[|r| - 2..]) == secs
  {
    ClockParts(Text.Pad2(hrs), Text.Pad2(mins), Text.Pad2(secs));
  }

  /** Whole hours, the minutes left over, the seconds left over. */
  lemma SplitSeconds(n: nat)
    ensures (n % 3600) / 60 < 60 && n % 60 < 60
    ensures (n / 3600) * 3600 + ((n % 3600) / 60) * 60 + n % 60 == n
  {
    var h, r := n / 3600, n % 3600;
    var m, sec := r / 60, r % 60;
    assert n == h * 3600 + r;
    assert r == m * 60 + sec;
    RouteInfo.DivUnique(n, 60, h * 60 + m, sec);
  }

  /** Where the three fields sit in the clock text. */
  lemma ClockParts(h: string, m: string, sec: string)
    requires |m| == 2 && |sec| == 2
    ensures var r := h + ":" + m + ":" + sec;
            |r| == |h| + 6 && r[..|r| - 6] == h && r[|r| - 5..|r| - 3] == m && r[|r| - 2..] == sec &&
            r[|r| - 3] == ':' && r[|r| - 6] == ':'
  {
    var r := h + ":" + m + ":" + sec;
    assert r[..|r| - 6] == h;
    assert r[|r| - 5..|r| - 3] == m;
    assert r[|r| - 2..] == sec;
  }

  /** Reads an `H:MM:SS` text back as a number of seconds. */
  function ParseClock(t: string): (n: nat)
    requires |t| >= 8 && Text.AllDigits(t[..|t| - 6]) && Text.AllDigits(t[|t| - 5..|t| - 3]) && Text.AllDigits(t[|t| - 2..])
  {
    Text.ParseDecimal(t[..|t| - 6]) * 3600 + Text.ParseDecimal(t[|t| - 5..|t| - 3]) * 60 + Text.ParseDecimal(t[|t| - 2..])
  }

  /** The clock text reads back as the number of seconds it shows. */
  lemma FormatTimeRoundTrip(seconds: nat)
    ensures ParseClock(FormatTime(seconds)) == seconds
  {
  }

  // ----- Nearby police stations -----

  datatype Station = Station(id: string, name: string, phone: string, distance: real, address: string, pos: Coord)

  function StationDistance(st: Station): real {
    st.distance
  }

  /** The stations nearest first: a reordering of the list, ascending by distance. */
  function NearestFirst(stations: seq<Station>): (r: seq<Station>)
    ensures multiset(r) == multiset(stations)
    ensures forall i, j :: 0 <= i < j < |r| ==> r[i].distance <= r[j].distance
  {
    var r := Sorting.SortBy(stations, StationDistance);
    assert forall i, j :: 0 <= i < j < |r| ==> StationDistance(r[i]) <= StationDistance(r[j]);
    r
  }

  /** The first station listed is at least as near as every station. */
  lemma NearestListedFirst(stations: seq<Station>)
    requires |stations| > 0
    ensures var r := NearestFirst(stations);
            |r| > 0 && forall st :: st in stations ==> r[0].distance <= st.distance
  {
    var r := NearestFirst(stations);
    forall st | st in stations ensures r[0].distance <= st.distance {
      assert st in multiset(stations);
      assert st in multiset(r);
      var k :| 0 <= k < |r| && r[k] == st;
    }
  }
}
