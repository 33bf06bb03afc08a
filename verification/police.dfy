/**
 * The 24x7 police-watch page: the session it keeps while tracking (status,
 * path, total distance, average speed, event log), the status rules applied
 * on each position fix, and the bounded newest-first event log. The page's
 * buttons, timers, clock text and station list are in `PoliceControls`.
 *
 * The fix handler is modelled twice. `HandleFix` takes the session it reads
 * from (`view`) apart from the session it updates: the page registers the
 * handler once, when tracking starts, so the handler it runs keeps reading the
 * session of that moment. `OnFix` is the handler that reads the live session.
 */
module Police {
  import opened Wrappers
  import opened Geo
  import Text
  import Seqs
  import RouteTracker

  type Fix = RouteTracker.LocationPoint

  const SuddenMovement: real := 100.0
  const MinAccuracy: real := 50.0
  const MaxLogs: nat := 50

  datatype Status = Safe | Warning | Sos

  // ----- The event log -----

  datatype LogKind = InfoLog | WarningLog | ErrorLog | SuccessLog | SosLog

  /** The icon `addLog` puts in front of each kind of entry, by code point. */
  function Emoji(k: LogKind): string {
    match k
    case InfoLog => [0x1F4CC as char]
    case WarningLog => [0x26A0 as char, 0xFE0F as char]
    case ErrorLog => [0x274C as char]
    case SuccessLog => [0x2705 as char]
    case SosLog => [0x1F6A8 as char]
  }

  datatype LogEntry = LogEntry(time: string, message: string, kind: LogKind)

  /** The entry `addLog` makes: the kind's emoji in front of the message. */
  function Entry(time: string, message: string, kind: LogKind): (e: LogEntry)
    ensures e.kind == kind && e.time == time && Text.EndsWith(e.message, message)
  {
    LogEntry(time, Emoji(kind) + " " + message, kind)
  }

  /** The new entry first, followed by at most 49 of the previous ones. */
  function Push(logs: seq<LogEntry>, e: LogEntry): (r: seq<LogEntry>)
    ensures 0 < |r| <= MaxLogs && r[0] == e
    ensures |r| == if |logs| < MaxLogs then |logs| + 1 else MaxLogs
    ensures r[1..] == logs[..|r| - 1]
  {
    Seqs.PushCapped(logs, e, MaxLogs)
  }

  function AddLog(logs: seq<LogEntry>, time: string, message: string, kind: LogKind): (r: seq<LogEntry>)
    ensures 0 < |r| <= MaxLogs && |r| <= |logs| + 1 && r[0] == Entry(time, message, kind)
    ensures r[1..] == logs[..|r| - 1]
  {
    Push(logs, Entry(time, message, kind))
  }

  /** Entries pushed one after the other. */
  function PushAll(logs: seq<LogEntry>, es: seq<LogEntry>): seq<LogEntry>
    decreases |es|
  {
    if |es| == 0 then logs else PushAll(Push(logs, es[0]), es[1..])
  }

  /** However many entries are logged, the log holds the newest 50 of everything, newest first. */
  lemma {:induction false} LogKeepsNewest(logs: seq<LogEntry>, es: seq<LogEntry>)
    requires |logs| <= MaxLogs
    ensures PushAll(logs, es) == (Seqs.Reversed(es) + logs)[..Seqs.Min(MaxLogs, |es| + |logs|)]
    decreases |es|
  {
    if |es| > 0 {
      LogKeepsNewest(Push(logs, es[0]), es[1..]);
      Seqs.PushCappedStep(logs, es[0], es[1..], MaxLogs);
      assert [es[0]] + es[1..] == es;
    }
  }

  // ----- The status rule -----

  /**
   * The status after a fix that moved `distance` from the previous one, as the
   * handler decides it from the status it reads (`seen`) and what the page
   * holds when the update lands (`current`): a sudden movement warns; otherwise
   * the page is safe again unless the status read was SOS.
   */
  function StatusAfter(seen: Status, current: Status, distance: real): (r: Status)
    ensures distance > SuddenMovement ==> r == Warning
    ensures distance <= SuddenMovement && seen != Sos ==> r == Safe
    ensures distance <= SuddenMovement && seen == Sos ==> r == current
  {
    if distance > SuddenMovement then Warning
    else if seen != Sos then Safe
    else current
  }

  /** The status over a run of fixes, read live. */
  function StatusOver(s: Status, distances: seq<real>): Status
    decreases |distances|
  {
    if |distances| == 0 then s else StatusOver(StatusAfter(s, s, distances[0]), distances[1..])
  }

  /** SOS survives a run of fixes exactly when none of them is a sudden movement. */
  lemma {:induction false} SosHoldsUntilSuddenMovement(distances: seq<real>)
    ensures StatusOver(Sos, distances) == Sos <==> forall k :: 0 <= k < |distances| ==> distances[k] <= SuddenMovement
    decreases |distances|
  {
    if |distances| > 0 {
      SosHoldsUntilSuddenMovement(distances[1..]);
      if distances[0] > SuddenMovement {
        NeverEntersSos(Warning, distances[1..]);
      }
      assert forall k :: 1 <= k < |distances| ==> distances[k] == distances[1..][k - 1];
    }
  }

  /** Fixes alone never raise an SOS. */
  lemma {:induction false} NeverEntersSos(s: Status, distances: seq<real>)
    requires s != Sos
    ensures StatusOver(s, distances) != Sos
    decreases |distances|
  {
    if |distances| > 0 {
      NeverEntersSos(StatusAfter(s, s, distances[0]), distances[1..]);
    }
  }

  // ----- The session -----

  datatype PathPoint = PathPoint(pos: Coord, timestamp: int)

  datatype Session = Session(
    tracking: bool, status: Status, current: Option<Fix>, previous: Option<Fix>,
    totalDistance: real, path: seq<PathPoint>, avgSpeed: real, duration: nat,
    logs: seq<LogEntry>, emergencyContacted: bool)

  const Fresh: Session := Session(false, Safe, None, None, 0.0, [], 0.0, 0, [], false)

  /**
   * The fix handler, reading the session `view` and updating the session `s`.
   * The path and the log are updated from their current values; the total,
   * the speed and the status are computed from what `view` holds. `fix` is the
   * position stamped with the time of the call; `clock` renders a time,
   * `fixed` a number with no decimals.
   */
  function HandleFix(view: Session, s: Session, fix: Fix, dist: Metric,
                     clock: int -> string, fixed: real -> string): (r: Session)
    ensures r.path == s.path + [PathPoint(fix.pos, fix.timestamp)]
    ensures r.current == Some(fix) && r.previous == Some(fix)
    ensures view.previous.None? ==> r.totalDistance == s.totalDistance && r.status == s.status
    ensures view.previous.Some? ==>
              var d := dist(view.previous.value.pos, fix.pos);
              r.totalDistance == view.totalDistance + d && r.status == StatusAfter(view.status, s.status, d)
    ensures r.tracking == s.tracking && r.duration == s.duration && r.emergencyContacted == s.emergencyContacted
  {
    var time := clock(fix.timestamp);
    var path := s.path + [PathPoint(fix.pos, fix.timestamp)];
    var fixed' := s.(path := path, current := Some(fix), previous := Some(fix));
    match view.previous
    case None =>
      fixed'.(logs := AddLog(s.logs, time, "Tracking started - Waiting for initial fix...", SuccessLog))
    case Some(prev) =>
      var d := dist(prev.pos, fix.pos);
      var total := view.totalDistance + d;
      var elapsed := (fix.timestamp - prev.timestamp) as real / 1000.0;
      var speed := if elapsed > 0.0 && d > 0.0 then d / elapsed else s.avgSpeed;
      var logs := MoveLogs(s.logs, time, d, total, fix.accuracy, fixed);
      fixed'.(totalDistance := total, avgSpeed := speed, status := StatusAfter(view.status, s.status, d), logs := logs)
  }

  /**
   * The log lines of a fix after the first: a warning for a sudden movement,
   * then either a low-accuracy warning or the distance moved and the total.
   */
  function MoveLogs(logs: seq<LogEntry>, time: string, d: real, total: real, accuracy: real, fixed: real -> string): (r: seq<LogEntry>)
    ensures 0 < |r| <= MaxLogs && r[0].kind == (if accuracy > MinAccuracy then WarningLog else InfoLog)
    ensures d > SuddenMovement ==> 1 < |r| <= |logs| + 2 && r[1].kind == WarningLog && r[2..] == logs[..|r| - 2]
    ensures d <= SuddenMovement ==> |r| <= |logs| + 1 && r[1..] == logs[..|r| - 1]
  {
    var warned := if d > SuddenMovement then AddLog(logs, time, "Sudden movement detected: " + fixed(d) + "m", WarningLog) else logs;
    var r :=
      if accuracy > MinAccuracy
      then AddLog(warned, time, "\U{26A0}\U{FE0F} Low GPS accuracy: " + [0xB1 as char] + fixed(accuracy) + "m", WarningLog)
      else AddLog(warned, time, "Moved " + fixed(d) + "m (Total: " + fixed(total) + "m)", InfoLog);
    if d > SuddenMovement then Seqs.PushedTwice(logs, warned, r); r else r
  }

  /** The handler reading the live session. */
  function OnFix(s: Session, fix: Fix, dist: Metric, clock: int -> string, fixed: real -> string): (r: Session)
    ensures r.path == s.path + [PathPoint(fix.pos, fix.timestamp)] && r.previous == Some(fix)
    ensures s.previous.Some? ==> r.totalDistance == s.totalDistance + dist(s.previous.value.pos, fix.pos)
    ensures s.previous.None? ==> r.totalDistance == s.totalDistance
    ensures s.previous.Some? ==> r.status == StatusAfter(s.status, s.status, dist(s.previous.value.pos, fix.pos))
  {
    HandleFix(s, s, fix, dist, clock, fixed)
  }

  /** The path points a run of fixes adds, one per fix, in order. */
  function Trail(fixes: seq<Fix>): (r: seq<PathPoint>)
    ensures |r| == |fixes|
    ensures forall k :: 0 <= k < |fixes| ==> r[k] == PathPoint(fixes[k].pos, fixes[k].timestamp)
  {
    seq(|fixes|, k requires 0 <= k < |fixes| => PathPoint(fixes[k].pos, fixes[k].timestamp))
  }

  lemma TrailCons(fixes: seq<Fix>)
    requires |fixes| > 0
    ensures Trail(fixes) == [PathPoint(fixes[0].pos, fixes[0].timestamp)] + Trail(fixes[1..])
  {
  }

  /** Fixes handled one after the other by the live handler. */
  function Track(s: Session, fixes: seq<Fix>, dist: Metric, clock: int -> string, fixed: real -> string): Session
    decreases |fixes|
  {
    if |fixes| == 0 then s else Track(OnFix(s, fixes[0], dist, clock, fixed), fixes[1..], dist, clock, fixed)
  }

  /** Fixes handled by the handler registered when tracking started, which keeps reading `started`. */
  function TrackAsRegistered(started: Session, s: Session, fixes: seq<Fix>, dist: Metric,
                             clock: int -> string, fixed: real -> string): Session
    decreases |fixes|
  {
    if |fixes| == 0 then s
    else TrackAsRegistered(started, HandleFix(started, s, fixes[0], dist, clock, fixed), fixes[1..], dist, clock, fixed)
  }

  /** Every fix the live handler sees adds its point to the path, in order, and becomes the previous fix. */
  lemma {:induction false} TrackRecordsPath(s: Session, fixes: seq<Fix>, dist: Metric, clock: int -> string, fixed: real -> string)
    ensures Track(s, fixes, dist, clock, fixed).path == s.path + Trail(fixes)
    ensures |fixes| > 0 ==> Track(s, fixes, dist, clock, fixed).previous == Some(fixes[|fixes| - 1])
    decreases |fixes|
  {
    if |fixes| > 0 {
      TrackRecordsPath(OnFix(s, fixes[0], dist, clock, fixed), fixes[1..], dist, clock, fixed);
      TrailCons(fixes);
      assert |fixes| > 1 ==> fixes[1..][|fixes| - 2] == fixes[|fixes| - 1];
    }
  }

  /** The handler registered at start records the path the same way: its stale view does not affect the path. */
  lemma {:induction false} RegisteredRecordsPath(started: Session, s: Session, fixes: seq<Fix>, dist: Metric,
                                                 clock: int -> string, fixed: real -> string)
    ensures TrackAsRegistered(started, s, fixes, dist, clock, fixed).path == s.path + Trail(fixes)
    ensures |fixes| > 0 ==> TrackAsRegistered(started, s, fixes, dist, clock, fixed).previous == Some(fixes[|fixes| - 1])
    decreases |fixes|
  {
    if |fixes| > 0 {
      RegisteredRecordsPath(started, HandleFix(started, s, fixes[0], dist, clock, fixed), fixes[1..], dist, clock, fixed);
      TrailCons(fixes);
      assert |fixes| > 1 ==> fixes[1..][|fixes| - 2] == fixes[|fixes| - 1];
    }
  }

  /** With the live handler, the total grows by every segment of the route after the last known fix. */
  lemma {:induction false} TotalIsPathLength(s: Session, fixes: seq<Fix>, dist: Metric, clock: int -> string, fixed: real -> string)
    requires s.previous.Some?
    ensures Track(s, fixes, dist, clock, fixed).totalDistance
            == s.totalDistance + RouteTracker.PathLength([s.previous.value] + fixes, dist)
    decreases |fixes|
  {
    if |fixes| > 0 {
      var s1 := OnFix(s, fixes[0], dist, clock, fixed);
      TotalIsPathLength(s1, fixes[1..], dist, clock, fixed);
      var route := [s.previous.value] + fixes;
      assert route[1..] == [fixes[0]] + fixes[1..];
    }
  }

  /** From a session that has seen no fix, the live total is the length of the route the fixes trace. */
  lemma FreshTotalIsPathLength(fixes: seq<Fix>, dist: Metric, clock: int -> string, fixed: real -> string)
    ensures Track(Fresh, fixes, dist, clock, fixed).totalDistance == RouteTracker.PathLength(fixes, dist)
  {
    if |fixes| > 0 {
      var s1 := OnFix(Fresh, fixes[0], dist, clock, fixed);
      TotalIsPathLength(s1, fixes[1..], dist, clock, fixed);
      assert [fixes[0]] + fixes[1..] == fixes;
    }
  }

  /** The registered handler of a first session never accumulates any distance: every fix looks like the first. */
  lemma {:induction false} RegisteredHandlerNeverAccumulates(started: Session, s: Session, fixes: seq<Fix>, dist: Metric,
                                                             clock: int -> string, fixed: real -> string)
    requires started.previous.None?
    ensures TrackAsRegistered(started, s, fixes, dist, clock, fixed).totalDistance == s.totalDistance
    ensures TrackAsRegistered(started, s, fixes, dist, clock, fixed).status == s.status
    decreases |fixes|
  {
    if |fixes| > 0 {
      RegisteredHandlerNeverAccumulates(started, HandleFix(started, s, fixes[0], dist, clock, fixed), fixes[1..], dist, clock, fixed);
    }
  }

  /**
   * The registered handler of a later session, whose view still holds the last fix of the session
   * before: each fix sets the total to the view's total plus the distance from that old fix, so
   * after a run of fixes only the last one counts.
   */
  lemma {:induction false} RegisteredHandlerMeasuresFromOldFix(started: Session, s: Session, fixes: seq<Fix>, dist: Metric,
                                                               clock: int -> string, fixed: real -> string)
    requires started.previous.Some? && |fixes| > 0
    ensures TrackAsRegistered(started, s, fixes, dist, clock, fixed).totalDistance
            == started.totalDistance + dist(started.previous.value.pos, fixes[|fixes| - 1].pos)
    decreases |fixes|
  {
    if |fixes| > 1 {
      RegisteredHandlerMeasuresFromOldFix(started, HandleFix(started, s, fixes[0], dist, clock, fixed), fixes[1..], dist, clock, fixed);
      assert fixes[1..][|fixes| - 2] == fixes[|fixes| - 1];
    }
  }

  /** Two fixes a positive distance apart: the live handler counts the segment, the registered one reports nothing. */
  lemma RegisteredHandlerLosesDistance(a: Fix, b: Fix, dist: Metric, clock: int -> string, fixed: real -> string)
    requires dist(a.pos, b.pos) > 0.0
    ensures TrackAsRegistered(Fresh, Fresh, [a, b], dist, clock, fixed).totalDistance == 0.0
    ensures Track(Fresh, [a, b], dist, clock, fixed).totalDistance == dist(a.pos, b.pos) > 0.0
  {
    RegisteredHandlerNeverAccumulates(Fresh, Fresh, [a, b], dist, clock, fixed);
    FreshTotalIsPathLength([a, b], dist, clock, fixed);
    assert [a, b][1..] == [b];
  }
}
