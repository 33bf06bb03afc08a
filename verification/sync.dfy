/**
 * The offline manager: the drain that replays queued outbox records to the
 * server, its connectivity gate, and the refresh of the offline risk-zone
 * cache. Every network request is a parameter giving how it settles.
 */
module SyncManager {
  import opened Wrappers
  import opened Geo
  import Text
  import Seqs
  import Outbox
  import RiskDetector

  /** How a network request settles: it resolves with an HTTP status, or throws. */
  datatype NetOutcome = Resolved(status: int) | Threw

  /** Whether `syncItem` resolved (the record counts as delivered) or threw. */
  datatype Dispatch = Delivered | Failed

  /** The record kinds whose replay makes a network request. */
  predicate UsesNetwork(kind: string) {
    kind == "sos" || kind == "incident"
  }

  /**
   * `syncItem`: an "sos" record goes to the SOS sender and an "incident" record
   * is POSTed to `/api/reports`; either is delivered exactly when the request
   * resolves, and the HTTP status of the incident POST is never checked.
   * "location", "route" and every unknown kind are only logged, so they are
   * delivered without a request. `send` is how this record's request settles.
   */
  function SyncItem(item: Outbox.Record, send: NetOutcome): (r: Dispatch)
    ensures r == Failed <==> UsesNetwork(item.kind) && send == Threw
  {
    match item.kind
    case "sos" => if send.Resolved? then Delivered else Failed
    case "incident" => if send.Resolved? then Delivered else Failed
    case _ => Delivered
  }

  /** A record that needs no request is delivered whatever the network does, and an incident
      report the server answers with any status, error statuses included, counts as delivered. */
  lemma DeliveredUnchecked(item: Outbox.Record, send1: NetOutcome, send2: NetOutcome, status: int)
    ensures !UsesNetwork(item.kind) ==> SyncItem(item, send1) == SyncItem(item, send2) == Delivered
    ensures item.kind == "incident" ==> SyncItem(item, Resolved(status)) == Delivered
  {
  }

  /** What a drain does to the store: nothing when no record is pending; otherwise only the
      pending records whose dispatch failed remain. */
  ghost predicate Drained(before: Outbox.Store, after: Outbox.Store, net: Outbox.Record -> NetOutcome) {
    && (|Outbox.GetUnsynced(before)| == 0 ==> after == before)
    && (|Outbox.GetUnsynced(before)| > 0 ==>
          forall x :: x in after <==> x in before && !x.synced && SyncItem(x, net(x)) == Failed)
  }

  /** The record `id` names after the records of `done` were dispatched and the delivered ones marked. */
  function Marked(o: Option<Outbox.Record>, done: seq<Outbox.Record>, net: Outbox.Record -> NetOutcome): Option<Outbox.Record> {
    if o.Some? && o.value in done && SyncItem(o.value, net(o.value)) == Delivered
    then Some(o.value.(synced := true))
    else o
  }

  /**
   * `syncPendingData`: lists the unsynced records; with none, returns at once.
   * Otherwise dispatches each in key order, marks it synced when its dispatch
   * resolves, goes on with the next one when it throws, and finally deletes
   * every synced record. Returns the new store and the records dispatched.
   */
  method SyncPendingData(s: Outbox.Store, net: Outbox.Record -> NetOutcome) returns (r: Outbox.Store, dispatched: seq<Outbox.Record>)
    ensures dispatched == Outbox.GetUnsynced(s)
    ensures Drained(s, r, net)
    ensures |dispatched| > 0 ==> forall x :: x in r ==> !x.synced
  {
    var pending := Outbox.GetUnsynced(s);
    dispatched := pending;
    if |pending| == 0 {
      r := s;
      return;
    }
    Seqs.SubseqKeepsPairwise(pending, s, (a: Outbox.Record, b: Outbox.Record) => Text.Less(a.id, b.id));
    var st: Outbox.Store := s;
    var i := 0;
    while i < |pending|
      invariant 0 <= i <= |pending|
      invariant forall id :: Outbox.Get(st, id) == Marked(Outbox.Get(s, id), pending[..i], net)
    {
      var item := pending[i];
      var next: Outbox.Store := if SyncItem(item, net(item)) == Delivered then Outbox.MarkAsSynced(st, item.id) else st;
      DispatchStep(s, st, next, pending, i, net);
      st := next;
      i := i + 1;
    }
    assert pending[..i] == pending;
    r := Outbox.ClearSynced(st);
    DrainOutcome(s, st, r, pending, net);
  }

  /**
   * `syncPendingData` as written, over a listing `pending` of records: with
   * none, it returns at once; otherwise it dispatches each, marks the
   * delivered ones synced, and then calls `clearSynced` as written, which
   * rejects, so nothing is deleted. A record the listing does not name keeps
   * its state.
   */
  method DrainAsWritten(s: Outbox.Store, pending: seq<Outbox.Record>, net: Outbox.Record -> NetOutcome)
    returns (r: Outbox.Store, dispatched: seq<Outbox.Record>)
    ensures dispatched == pending
    ensures |pending| == 0 ==> r == s
    ensures forall id :: (forall k :: 0 <= k < |pending| ==> pending[k].id != id) ==> Outbox.Get(r, id) == Outbox.Get(s, id)
  {
    dispatched := pending;
    if |pending| == 0 {
      r := s;
      return;
    }
    var st: Outbox.Store := s;
    var i := 0;
    while i < |pending|
      invariant 0 <= i <= |pending|
      invariant forall id :: (forall k :: 0 <= k < i ==> pending[k].id != id) ==> Outbox.Get(st, id) == Outbox.Get(s, id)
    {
      var item := pending[i];
      if SyncItem(item, net(item)) == Delivered {
        st := Outbox.MarkAsSynced(st, item.id);
      }
      i := i + 1;
    }
    var cleared := Outbox.ClearSyncedAsWritten(st);
    assert cleared.Err?;
    r := st;
  }

  /**
   * `syncPendingData` as written, over the listing `getUnsynced` really
   * returns: that listing is always empty, so the drain dispatches nothing
   * and leaves every queued record in the store.
   */
  method SyncPendingDataAsWritten(s: Outbox.Store, net: Outbox.Record -> NetOutcome) returns (r: Outbox.Store, dispatched: seq<Outbox.Record>)
    ensures dispatched == [] && r == s
  {
    var pending := Outbox.GetUnsyncedAsWritten(s);
    r, dispatched := DrainAsWritten(s, pending, net);
  }

  /** One iteration of the drain keeps the correspondence between the store and the records dispatched so far. */
  lemma DispatchStep(s: Outbox.Store, st: Outbox.Store, next: Outbox.Store, pending: seq<Outbox.Record>, i: int, net: Outbox.Record -> NetOutcome)
    requires pending == Outbox.GetUnsynced(s)
    requires Outbox.IdsIncreasing(pending)
    requires 0 <= i < |pending|
    requires forall id :: Outbox.Get(st, id) == Marked(Outbox.Get(s, id), pending[..i], net)
    requires next == if SyncItem(pending[i], net(pending[i])) == Delivered then Outbox.MarkAsSynced(st, pending[i].id) else st
    ensures forall id :: Outbox.Get(next, id) == Marked(Outbox.Get(s, id), pending[..i + 1], net)
  {
    var item := pending[i];
    assert item in s;
    Outbox.GetFinds(s, item);
    assert item !in pending[..i] by {
      forall k | 0 <= k < i ensures pending[k] != item {
        Text.LessOrder(item.id, item.id);
      }
    }
    var done := pending[..i + 1];
    assert done == pending[..i] + [item];
    forall id
      ensures Outbox.Get(next, id) == Marked(Outbox.Get(s, id), done, net)
    {
      DispatchOne(s, st, next, pending[..i], item, net, id);
    }
  }

  /** The step for one id: only the record just dispatched can change, and it is marked iff delivered. */
  lemma DispatchOne(s: Outbox.Store, st: Outbox.Store, next: Outbox.Store, earlier: seq<Outbox.Record>,
                    item: Outbox.Record, net: Outbox.Record -> NetOutcome, id: string)
    requires Outbox.Get(s, item.id) == Some(item) && item !in earlier
    requires Outbox.Get(st, id) == Marked(Outbox.Get(s, id), earlier, net)
    requires Outbox.Get(st, item.id) == Marked(Outbox.Get(s, item.id), earlier, net)
    requires next == if SyncItem(item, net(item)) == Delivered then Outbox.MarkAsSynced(st, item.id) else st
    ensures Outbox.Get(next, id) == Marked(Outbox.Get(s, id), earlier + [item], net)
  {
    var o := Outbox.Get(s, id);
    if id == item.id {
      assert Outbox.Get(st, id) == o;
    } else if o.Some? {
      assert o.value != item;
      assert o.value in earlier + [item] <==> o.value in earlier;
    }
  }

  lemma DrainOutcome(s: Outbox.Store, st: Outbox.Store, r: Outbox.Store, pending: seq<Outbox.Record>, net: Outbox.Record -> NetOutcome)
    requires pending == Outbox.GetUnsynced(s)
    requires forall id :: Outbox.Get(st, id) == Marked(Outbox.Get(s, id), pending, net)
    requires r == Outbox.ClearSynced(st)
    ensures forall x :: x in r <==> x in s && !x.synced && SyncItem(x, net(x)) == Failed
  {
    forall x
      ensures x in r <==> x in s && !x.synced && SyncItem(x, net(x)) == Failed
    {
      Outbox.GetFinds(st, x);
      Outbox.GetFinds(s, x);
      if x in r {
        var o := Outbox.Get(s, x.id);
        assert Marked(o, pending, net) == Some(x);
      }
    }
  }

  /** The manager's state: the connectivity flag, the outbox, the stored risk-zone snapshot,
      the detector's active zone list and the cached last known location. */
  datatype Manager = Manager(
    online: bool,
    outbox: Outbox.Store,
    stored: RiskDetector.StoredCache,
    zones: seq<RiskDetector.RiskZone>,
    lastKnown: Option<Coord>)

  /** How the risk-zone download settles. */
  datatype FetchOutcome =
    | NetworkError          // `fetch` threw
    | NotOk(status: int)    // a non-2xx response, which the code turns into a throw
    | BadBody               // `response.json()` threw
    | Body(zones: Option<seq<RiskDetector.RiskZone>>)  // the parsed body; `zones` may be absent

  /** The radius, in kilometres, recorded with a downloaded snapshot. */
  const RefreshRadiusKm: real := 10.0

  /**
   * `fetchAndCacheRiskZones`: without a last known location nothing is
   * requested and nothing changes; a failed download leaves the cache as it
   * was; otherwise the downloaded zones (none when the body has no `zones`)
   * replace the cache wholesale, centred on that location.
   */
  function FetchAndCacheRiskZones(m: Manager, fetch: FetchOutcome, now: int): (r: Manager)
    ensures m.lastKnown.None? || !fetch.Body? ==> r == m
    ensures r.online == m.online && r.outbox == m.outbox && r.lastKnown == m.lastKnown
    ensures m.lastKnown.Some? && fetch.Body? ==>
      r.zones == fetch.zones.GetOr([]) &&
      r.stored == RiskDetector.CacheRiskZones(fetch.zones.GetOr([]), m.lastKnown.value, RefreshRadiusKm, now)
  {
    match m.lastKnown
    case None => m
    case Some(loc) =>
      match fetch
      case Body(zones) =>
        var zs := zones.GetOr([]);
        m.(stored := RiskDetector.CacheRiskZones(zs, loc, RefreshRadiusKm, now), zones := zs)
      case _ => m
  }

  /** After a successful refresh, the detector reloads exactly the downloaded zones for the next seven days. */
  lemma RefreshSurvivesReload(m: Manager, zones: seq<RiskDetector.RiskZone>, now: int, later: int, createdAt: int)
    requires m.lastKnown.Some?
    requires now <= later < now + RiskDetector.MaxCacheAge
    ensures RiskDetector.LoadCachedRiskZones(FetchAndCacheRiskZones(m, Body(Some(zones)), now).stored, later, createdAt) == zones
  {
    RiskDetector.CacheRoundTrip(zones, m.lastKnown.value, RefreshRadiusKm, now, later, createdAt);
  }

  /**
   * The browser's `online` event: the flag is set, the outbox is drained and
   * the risk-zone cache refreshed.
   */
  method HandleOnline(m: Manager, net: Outbox.Record -> NetOutcome, fetch: FetchOutcome, now: int) returns (r: Manager)
    ensures r.online
    ensures Drained(m.outbox, r.outbox, net)
    ensures r == FetchAndCacheRiskZones(m.(online := true, outbox := r.outbox), fetch, now)
  {
    var drained, _ := SyncPendingData(m.outbox, net);
    r := FetchAndCacheRiskZones(m.(online := true, outbox := drained), fetch, now);
  }

  /** The browser's `offline` event: only the flag changes. */
  function HandleOffline(m: Manager): (r: Manager)
    ensures !r.online
    ensures r.outbox == m.outbox && r.stored == m.stored && r.zones == m.zones && r.lastKnown == m.lastKnown
  {
    m.(online := false)
  }

  /** One tick of the 30-second timer: a drain while online, nothing while offline. */
  method PeriodicTick(m: Manager, net: Outbox.Record -> NetOutcome) returns (r: Manager)
    ensures !m.online ==> r == m
    ensures m.online ==> Drained(m.outbox, r.outbox, net)
    ensures r.online == m.online && r.stored == m.stored && r.zones == m.zones && r.lastKnown == m.lastKnown
  {
    if m.online {
      var drained, _ := SyncPendingData(m.outbox, net);
      r := m.(outbox := drained);
    } else {
      r := m;
    }
  }
}
