# Safety-zones app: a verified model of its core logic

This project is a Dafny model of the sequential logic of a personal-safety web
app. The app has a React/TypeScript client and an Express/Mongoose server. The
model covers three groups of logic:

- **Offline outbox and its sync drain.** The IndexedDB store of queued SOS,
  incident, location and route records; the drain that replays them to the
  server when the connection returns; and the refresh of the offline
  risk-zone cache.
- **Offline risk detector.** The cached risk-zone list with its seven-day
  staleness rule; proximity filtering; per-location alert suppression; the
  50-entry alert history; the predictive risk tier; and route analysis with
  de-duplication.
- **Classifiers, formatters and small state machines** from across client and
  server:
  - the client risk predictor;
  - the route tracker's bounded buffer, URL sampling and notification rate
    limit;
  - voice-SOS keyword and fuzzy matching, and the keyword editor;
  - the chatbot rate limiter, intent classifier and reply truncation;
  - voice-command classification and preference updates;
  - the SOS text message and HTTP status aggregation;
  - safety-bubble membership;
  - the server's safety analysis (risk tiers, suggested-route waypoints,
    bounded incident log);
  - the police-tracking page;
  - the route-info panel;
  - the personal-info form;
  - the emergency-contact schema with its one-primary-contact hook.

Stores are immutable sequences or records, and each operation is a pure
function or a short method from the old state to the new one. Everything the
code gets from the outside world is an explicit parameter:

- the clock reading and random suffixes;
- the network outcome of each request;
- the local-storage contents;
- the great-circle distance (`Geo.Metric`, never interpreted);
- the weighted zone-score formula;
- number-to-text formatting (`toFixed`).

The modules follow the source files; the helper modules are Wrappers, Text,
Seqs, Sorting and Geo. The police-tracking page is split in two: Police holds
the session, its log and the fix handler, and PoliceControls holds the
buttons, timers, clock text and station list built on them.

## Model

| member | source | states |
|---|---|---|
| Outbox.Get | client/src/services/offlineStorage.ts:98-102 | `store.get(id)` finds a stored record with that id, or reports that no record has it |
| Outbox.GetFinds | client/src/services/offlineStorage.ts:32 | since `id` is the key path, a record is stored exactly when looking up its id returns that record |
| Outbox.Add | client/src/services/offlineStorage.ts:56-62 | `store.add` fails with a ConstraintError exactly when the id is taken; otherwise the store gains that one record and nothing is overwritten |
| Outbox.MakeIdDecodes | client/src/services/offlineStorage.ts:44 | the generated id starts with the type and an underscore, and for one type two equal ids come from the same time and suffix |
| Outbox.SaveOffline | client/src/services/offlineStorage.ts:41-63 | `saveOffline` stores exactly one new unsynced record with the given type and data, stamped with the second clock reading, returns the id built from the first reading, and fails without change on an id collision |
| Outbox.MarkAsSynced | client/src/services/offlineStorage.ts:92-116 | only the record with that id changes, only in its `synced` flag, which becomes true; an unknown id leaves the store as it was |
| Outbox.MarkAsSyncedMembers | client/src/services/offlineStorage.ts:100-112 | the records after marking are the old ones, with the one of that id replaced by its synced copy; marking an id twice gives the same store as marking it once |
| Outbox.GetUnsynced | client/src/services/offlineStorage.ts:66-90 | the intended listing: exactly the stored records whose `synced` flag is false, in key order |
| Outbox.GetAllByType | client/src/services/offlineStorage.ts:118-130 | exactly the stored records of the given type, in key order |
| Outbox.ClearSynced | client/src/services/offlineStorage.ts:132-152 | the intended purge: every synced record is deleted, and every unsynced one stays, in key order |
| Outbox.IndexEntries | client/src/services/offlineStorage.ts:33-35 | an index lists exactly the records whose value at its key path is a valid IndexedDB key |
| Outbox.GetUnsyncedAsWritten | client/src/services/offlineStorage.ts:72-86 | the cursor over the `synced` index of booleans visits nothing, so the listing is always empty |
| Outbox.ClearSyncedAsWritten | client/src/services/offlineStorage.ts:138-139 | `IDBKeyRange.only(true)` is rejected with a DataError, so nothing is deleted |
| Outbox.PendingRecordNotListedAsWritten | client/src/services/offlineStorage.ts:72-86 | a store holding one pending SOS record: the intended listing returns it, the as-written one returns nothing |
| SyncManager.SyncItem | client/src/services/offlineManager.ts:85-107 | dispatch fails exactly when the kind is `sos` or `incident` and the request throws |
| SyncManager.DeliveredUnchecked | client/src/services/offlineManager.ts:89-106 | `location`, `route` and unknown kinds are delivered, whatever the network does; an incident POST answered with any HTTP status, error statuses included, counts as delivered |
| SyncManager.SyncPendingData | client/src/services/offlineManager.ts:56-83 | the drain as intended, over the corrected `getUnsynced` and `clearSynced`: it dispatches exactly the unsynced records in key order. With none pending the store is unchanged. Otherwise the store ends up holding exactly the pending records whose dispatch threw, and no synced record |
| SyncManager.DrainAsWritten | client/src/services/offlineManager.ts:56-79 | the drain loop over a given listing with the purge as written: it dispatches exactly the listed records, an empty listing leaves the store as it was, and a record the listing does not name keeps its state because the rejected purge deletes nothing |
| SyncManager.SyncPendingDataAsWritten | client/src/services/offlineManager.ts:56-79 | the drain over the listing as written dispatches nothing and leaves the store, queued records included, exactly as it was |
| SyncManager.DispatchStep | client/src/services/offlineManager.ts:67-74 | after each item, the delivered items seen so far are marked synced and all others are as before; a failure does not stop the loop |
| SyncManager.DrainOutcome | client/src/services/offlineManager.ts:67-79 | after the loop and the purge, exactly the records that were pending and whose dispatch failed remain |
| SyncManager.FetchAndCacheRiskZones | client/src/services/offlineManager.ts:191-230 | no change without a last known location or when the download fails. Otherwise the downloaded zones (none when the body has no `zones`) replace the detector's list and the stored snapshot, centred on that location with radius 10 |
| SyncManager.RefreshSurvivesReload | client/src/services/offlineManager.ts:213-218 | after a refresh, loading the cache within the next seven days yields exactly the downloaded zones |
| SyncManager.HandleOnline | client/src/services/offlineManager.ts:28-43 | the `online` event sets the flag, drains the outbox as intended, then refreshes the risk zones |
| SyncManager.HandleOffline | client/src/services/offlineManager.ts:45-54 | the `offline` event clears the flag and changes nothing else |
| SyncManager.PeriodicTick | client/src/services/offlineManager.ts:109-116 | a timer tick drains the outbox as intended only while online, and does nothing while offline |
| RiskDetector.DefaultZones | client/src/services/offlineRiskDetector.ts:32-36 | the built-in zones are two, so the fallback is never empty |
| RiskDetector.LoadCachedRiskZones | client/src/services/offlineRiskDetector.ts:51-75 | a stored snapshot younger than seven days supplies the zones; a stale, missing or unparsable one gives the built-in zones |
| RiskDetector.CacheRiskZones | client/src/services/offlineRiskDetector.ts:77-89 | the stored snapshot holds exactly the given zones, stamped with the current time |
| RiskDetector.CacheRoundTrip | client/src/services/offlineRiskDetector.ts:58-89 | a cached list is read back unchanged for just under seven days, and replaced by the defaults from then on |
| RiskDetector.FindNearby | client/src/services/offlineRiskDetector.ts:159-164 | exactly the cached zones within the search radius, in cache order |
| Geo.Round | client/src/services/offlineRiskDetector.ts:223 | `Math.round` gives the integer nearest to its argument, rounding halves up; the alert distance and the route score and time use it |
| RiskDetector.LogRiskAlert | client/src/services/offlineRiskDetector.ts:217-232 | the new entry goes first; the older entries follow in order, minus the oldest once the list would exceed 50; on a history within 50 this is the capped push of the log helpers |
| RiskDetector.LogRiskAlertBounded | client/src/services/offlineRiskDetector.ts:228-229 | an alert history of at most 50 entries stays at most 50 |
| RiskDetector.Covering | client/src/services/offlineRiskDetector.ts:140-150 | exactly the candidate zones whose radius covers the position |
| RiskDetector.FireAlerts | client/src/services/offlineRiskDetector.ts:134-156 | only zones within their radius whose location is not suppressed fire, at most one per location, in order. Afterwards every zone in range has its location suppressed |
| RiskDetector.FiredAreFirstCovering | client/src/services/offlineRiskDetector.ts:134-156 | the zone that fires at a location is the first zone, in cache order, whose radius covers the position there |
| RiskDetector.AlertsFor | client/src/services/offlineRiskDetector.ts:217-226 | one entry per fired zone, in firing order, with its level, type, rounded distance, the position and the offline flag |
| RiskDetector.LogAlerts | client/src/services/offlineRiskDetector.ts:208-232 | on a history within 50, the history becomes the fired zones' entries newest first followed by the old history, cut to 50 |
| RiskDetector.LogAlertsStep | client/src/services/offlineRiskDetector.ts:217-232 | pushing the first entry and then the rest gives the same history as taking all the entries at once |
| RiskDetector.CheckNearbyRisks | client/src/services/offlineRiskDetector.ts:126-157 | nothing happens without a position. Otherwise every fired zone is an unsuppressed one within 1000 m and within its radius, at most one per location. Afterwards the location of every zone in range is suppressed, the fired locations are exactly the ones added, each fired zone is the first in cache order covering the position at its location, and the history is the new entries newest first, then the old history, cut to 50 |
| RiskDetector.ExpireSuppression | client/src/services/offlineRiskDetector.ts:154 | the 30-minute timer removes exactly that location from the suppressed set |
| RiskDetector.UpdatePosition | client/src/services/offlineRiskDetector.ts:99-104 | a GPS fix replaces the current position and nothing else |
| RiskDetector.FiredLocationStaysSilent | client/src/services/offlineRiskDetector.ts:135-151 | two zones at the same coordinates never both fire in one check, whatever their types; a location that fired does not fire on a later check, wherever the user has moved, until its suppression expires |
| RiskDetector.IsNight | client/src/services/offlineRiskDetector.ts:236-239 | night is every hour of the day outside 07:00 to 21:59 |
| RiskDetector.GetPredictiveRisk | client/src/services/offlineRiskDetector.ts:235-257 | HIGH iff a HIGH zone is within 500 m, or it is night (22:00 to 06:59) and any zone is within 500 m. LOW iff it is day and every zone within 500 m is LOW. MEDIUM otherwise |
| RiskDetector.PredictiveRiskAwayFromZones | client/src/services/offlineRiskDetector.ts:239-256 | with no zone within 500 m the tier is MEDIUM at night and LOW by day |
| RiskDetector.RisksAlong | client/src/services/offlineRiskDetector.ts:265-270 | the collected zones are exactly those within 200 m of some waypoint |
| RiskDetector.FirstAt | client/src/services/offlineRiskDetector.ts:274 | `find` returns a zone at the location when there is one, and nothing when no zone is there |
| RiskDetector.DedupByLocation | client/src/services/offlineRiskDetector.ts:273-274 | one zone per location, the first one collected at it, in order of first occurrence |
| RiskDetector.CountHigh | client/src/services/offlineRiskDetector.ts:276 | the high-risk count is positive exactly when some zone is HIGH |
| RiskDetector.AnalyzeRoute | client/src/services/offlineRiskDetector.ts:260-292 | the zones within 200 m of the route, one per location and none missed. `hasRisks` iff any; the avoid-high-risk text iff one is HIGH, the safe text iff none, otherwise the count of zones; the avoid text quotes the number of HIGH zones, and the zone kept for each location is the first met along the route, the kept zones staying in the order they are met |
| RiskDetector.RouteNearZoneHasRisks | client/src/services/offlineRiskDetector.ts:267-288 | a route passing within 200 m of any zone is reported as risky |
| RiskPredictor.Clamp | client/src/services/riskPredictor.ts:17 | `clamp` returns a value in [min, max], equal to `v` when `v` is already in range and to the nearer bound otherwise |
| RiskPredictor.TimeBucket | client/src/services/riskPredictor.ts:29-41 | exactly one time bucket applies: late night for hour ≥ 23 or < 5, evening for 20-22, dusk for 17-19, daytime for 5-16 |
| RiskPredictor.RawScoreRange | client/src/services/riskPredictor.ts:25-76 | the unclamped sum of the baseline and the time, weather, crowd and lateness terms always lies in 25..95 |
| RiskPredictor.LabelFor | client/src/services/riskPredictor.ts:78-80 | HIGH iff score ≥ 70, MEDIUM iff 45 ≤ score < 70, LOW otherwise |
| RiskPredictor.ComputeRisk | client/src/services/riskPredictor.ts:19-83 | the hour defaults to the clock's, weather to clear, crowd to medium and lateness to false. The score, in 0..100, is the sum of the terms. The factors are one time, one weather and one crowd factor, plus "Later than usual" exactly when late. The label follows the tiers |
| RiskPredictor.ScoreMonotone | client/src/services/riskPredictor.ts:61-75 | being later than usual adds exactly 8 to the score, so it never lowers it; with everything else equal, a low crowd scores at least a medium one, which scores at least a high one |
| RiskPredictor.DefaultsAreClearAndMedium | client/src/services/riskPredictor.ts:21-22 | missing weather and crowd give the same result as clear weather and a medium crowd |
| RiskPredictor.EstimateCrowdByHour | client/src/services/riskPredictor.ts:86-91 | the estimate is total: high for 8-10 and 17-20, medium for 11-16, low for every other hour |
| RouteTracker.AppendPoint | client/src/services/routeTracker.ts:312-322 | a fix is appended, and the oldest point is dropped once the buffer would exceed 500. The route is saved exactly when the new length is a multiple of 10 |
| RouteTracker.AppendKeepsNewest | client/src/services/routeTracker.ts:312-317 | after any run of fixes, the buffer holds the newest min(total, 500) points in arrival order |
| Seqs.AppendCappedStep | client/src/services/routeTracker.ts:312-317 | one capped append followed by more leaves the newest `cap` of all the elements in arrival order, as appending them all at once does |
| RouteTracker.PathLengthSnoc | client/src/services/routeTracker.ts:55-64 | appending a point adds exactly the distance from the previous last point to the path length |
| RouteTracker.GetTotalDistance | client/src/services/routeTracker.ts:51-66 | 0 for fewer than two points; otherwise the sum of the distances between consecutive points |
| RouteTracker.Snapshot | client/src/services/routeTracker.ts:353-360 | the route data holds the points, runs from the first point's time (now when empty) to now, and carries the path length |
| RouteTracker.LoadRoute | client/src/services/routeTracker.ts:84-101 | a stored route restores the points only when it started today; an older one is removed from storage |
| RouteTracker.SavedTodayRestores | client/src/services/routeTracker.ts:69-96 | a route saved today and loaded the same day gives back exactly its points |
| RouteTracker.SampleIndices | client/src/services/routeTracker.ts:112 | for more than 10 points, the indices that are multiples of ⌊n/8⌋ start with 0, step, 2·step, … for at least 8 entries |
| RouteTracker.SampledAt | client/src/services/routeTracker.ts:112 | the sampled points are the first 8 points at indices that are multiples of ⌊n/8⌋ |
| RouteTracker.PointsToShow | client/src/services/routeTracker.ts:108-114 | all points when there are at most 10; otherwise exactly 10, namely the first point, the 8 samples and the last point |
| RouteTracker.RouteStops | client/src/services/routeTracker.ts:105-118 | no stops for an empty route. Otherwise the origin is the first point and the destination the last, with at most 8 waypoints: the inner points of a short route, or the samples of a long one |
| RouteTracker.LongRouteRepeatsOrigin | client/src/services/routeTracker.ts:111-112 | for more than 10 points, the first waypoint is the origin again (index 0 is a multiple of the step) |
| RouteTracker.CoordTexts | client/src/services/routeTracker.ts:118 | one `lat,lng` text per waypoint, in order |
| RouteTracker.GenerateRouteUrl | client/src/services/routeTracker.ts:104-121 | the empty string exactly for an empty route; otherwise the directions link with the first point as origin and the last as destination, followed by `&waypoints=` and the sampled waypoints joined by `|` exactly when that list is not empty |
| RouteTracker.RouteUrlHasWaypointsIff | client/src/services/routeTracker.ts:118-120 | the link has a `waypoints` part exactly when the route has more than two points |
| RouteTracker.EmergencyContacts | client/src/services/routeTracker.ts:144-160 | contact 1 is listed iff its phone is truthy, then contact 2 iff its phone is truthy, with their names and relations |
| RouteTracker.SendEmergencyNotification | client/src/services/routeTracker.ts:124-232 | within 5 minutes of the last notification nothing happens. Otherwise the time is recorded before the profile check. The low-battery alert is shown on this device exactly when a profile is stored, and it names the listed contacts; nothing is sent to them |
| RouteTracker.RateLimited | client/src/services/routeTracker.ts:128-133 | two attempts less than 5 minutes apart never both notify |
| RouteTracker.BatteryCheck | client/src/services/routeTracker.ts:245-255 | the emergency notification fires iff the level is at most 5 and the device is not charging; the low-battery warning applies iff the level is in (5, 10] and it is not charging |
| RouteTracker.StartTracking | client/src/services/routeTracker.ts:283-337 | a no-op when already tracking or without geolocation; otherwise tracking starts |
| RouteTracker.OnFix | client/src/services/routeTracker.ts:304-325 | the watch callback appends the fix to the bounded buffer, and saves the route exactly when the length is a multiple of 10 |
| RouteTracker.StopTracking | client/src/services/routeTracker.ts:341-350 | stopping saves the current route and clears the tracking flag |
| RouteTracker.ClearRoute | client/src/services/routeTracker.ts:363-367 | clearing empties the points and removes the stored route |
| VoiceSos.LowerAll | client/src/services/voiceSOS.ts:194-196 | every keyword is stored as its lower-case form, in the given order |
| VoiceSos.LowerAllIdempotent | client/src/services/voiceSOS.ts:194-196 | lowering an already lower-case list changes nothing |
| VoiceSos.Configure | client/src/services/voiceSOS.ts:40-56 | a non-empty keyword option replaces the list with its lower-case form; otherwise the list is kept. The language is replaced only when given non-empty, since an empty string is falsy |
| VoiceSos.Create | client/src/services/voiceSOS.ts:26-38 | a new service is not listening and its keywords are lower case; without speech support it keeps the default keywords |
| VoiceSos.SetKeywords | client/src/services/voiceSOS.ts:194-197 | `setKeywords` stores the list lower-cased, one entry per given keyword, and changes nothing else |
| VoiceSos.MatchCount | client/src/services/voiceSOS.ts:146-149 | the count of same-position matching characters is at most the length of either string |
| VoiceSos.FuzzyMatch | client/src/services/voiceSOS.ts:134-153 | case-insensitively equal strings match; strings whose lengths differ by more than 2 never match |
| VoiceSos.MatchCountSymmetric | client/src/services/voiceSOS.ts:146-149 | counting matching positions does not depend on the order of the two strings |
| VoiceSos.FuzzySymmetric | client/src/services/voiceSOS.ts:134-153 | the fuzzy match is symmetric |
| VoiceSos.MatchCountSelf | client/src/services/voiceSOS.ts:146-149 | a string matches itself at every position |
| VoiceSos.MatchCountBelowLength | client/src/services/voiceSOS.ts:146-149 | two different strings of one length disagree in at least one position |
| VoiceSos.MatchCountOneChange | client/src/services/voiceSOS.ts:146-149 | changing one character loses exactly one matching position |
| VoiceSos.OneSlipToleratedFromSeven | client/src/services/voiceSOS.ts:151-152 | with the 0.85 threshold, a lower-case phrase of 7 or more characters still matches with one character misheard |
| VoiceSos.ShortPhrasesMustBeExact | client/src/services/voiceSOS.ts:151-152 | lower-case phrases of at most 6 characters match only exactly |
| VoiceSos.ScanWindows | client/src/services/voiceSOS.ts:114-130 | the scan returns the leftmost window of the keyword's width that matches exactly or fuzzily, and reports none when no window matches |
| VoiceSos.FirstFiring | client/src/services/voiceSOS.ts:110-131 | the first keyword, in list order, that has a matching window; none when no keyword has one |
| VoiceSos.FiresIffFound | client/src/services/voiceSOS.ts:114-130 | the scan from the first window finds a match exactly when some window of the transcript matches the keyword |
| VoiceSos.CheckForKeywords | client/src/services/voiceSOS.ts:106-132 | `onMatch` fires at most once per call, with the first keyword that matches some window of the transcript's words, and not at all when none does |
| VoiceSos.VerbatimKeywordFires | client/src/services/voiceSOS.ts:107-122 | a keyword occurring verbatim as consecutive words of the transcript triggers a match |
| VoiceSos.FinalTranscript | client/src/services/voiceSOS.ts:68-82 | the final transcript is empty exactly when no result is final |
| VoiceSos.OnResult | client/src/services/voiceSOS.ts:67-88 | results with no final part trigger nothing; when some result is final, the outcome is the keyword search over the lower-cased final transcripts joined by spaces, and a match reports one of the stored keywords |
| VoiceSos.InterimAddsNothing | client/src/services/voiceSOS.ts:67-88 | an interim result contributes nothing to the final transcript, so whether a keyword fires is unchanged by a trailing interim result |
| VoiceSos.Start | client/src/services/voiceSOS.ts:156-175 | false without speech support; true without restarting when already listening; otherwise true exactly when starting does not throw |
| VoiceSos.OnStartEvent | client/src/services/voiceSOS.ts:60-64 | the start event sets the listening flag |
| VoiceSos.OnEndEvent | client/src/services/voiceSOS.ts:99-103 | the end event clears the listening flag |
| VoiceSos.GetStatus | client/src/services/voiceSOS.ts:217-220 | `error` exactly without speech support, otherwise `listening` or `idle` according to the flag |
| VoiceSos.StartWhileListening | client/src/services/voiceSOS.ts:162-165 | while listening, `start` returns true whatever the recogniser would do; after the start event the status is `listening` and `start` returns true |
| Chatbot.CheckRateLimit | server/src/routes/chatbot.ts:46-56 | accepted iff at least 1000 ms have passed since the identifier's last accepted message (0 when none); only an accepted call records the time |
| Chatbot.RateLimitPerClient | server/src/routes/chatbot.ts:44-56 | after an accepted message, the next one from the same identifier is accepted iff it comes at least 1000 ms later; a check for one identifier leaves every other identifier's record as it was |
| Chatbot.DetectIntent | server/src/routes/chatbot.ts:73-82 | evening/night/dark first, then emergency/help/danger, then area/location/"safe zone", otherwise the default intent |
| Chatbot.WidgetIntent | client/src/components/Chatbot.tsx:44-50 | the chat widget classifies any message mentioning night as an evening question, and a message mentioning help or an area is never default |
| Chatbot.WidgetAgreesWithServer | client/src/components/Chatbot.tsx:44-50 | the chat widget's own classifier gives the same intent as the server's for every message |
| Chatbot.NightOutranksHelp | server/src/routes/chatbot.ts:76-79 | a message mentioning "night" is an evening question even when it also asks for help |
| Chatbot.FallbackReply | server/src/routes/chatbot.ts:36-41 | every fallback text is non-empty and within 500 characters |
| Chatbot.Truncate | server/src/routes/chatbot.ts:135-137 | a reply over 500 characters becomes its first 500 plus `...`; shorter replies are kept; the result is at most 503 characters |
| Chatbot.AfterMarker | server/src/routes/chatbot.ts:121-124 | the text after the first `Assistant:`, trimmed; the whole text when the marker is absent |
| Chatbot.ExtractReply | server/src/routes/chatbot.ts:114-127 | the text is taken from the first list element or from the object's `generated_text`; it is missing only when the first element has none |
| Chatbot.FailureReply | server/src/routes/chatbot.ts:140-162 | an HTTP-client error with status 503 gets the unavailable text, one mentioning a timeout gets the too-slow text, anything else the intent's fallback |
| Chatbot.AnsweredReply | server/src/routes/chatbot.ts:129-139 | an empty or missing reply falls back to the intent's text; otherwise the reply is truncated; the result is non-empty and at most 503 characters |
| Chatbot.HandleChat | server/src/routes/chatbot.ts:58-185 | a missing or blank message gets 400 before the rate limiter is consulted; a rate-limited request gets 429. With the model API off the reply is the intent's fallback; with it on, the reply is the answered call's extracted text or the failure reply for the thrown error. Every reply is non-empty and at most 503 characters |
| Chatbot.Answer | server/src/routes/chatbot.ts:84-162 | the fallback when the API is off; otherwise the processed answer of a call that returned, or the failure reply of one that threw; always non-empty and at most 503 characters |
| Chatbot.UnavailableOn503 | server/src/routes/chatbot.ts:144-152 | an accepted message whose call fails with an HTTP 503 gets the unavailable text, whatever the error message says |
| Chatbot.AnswerReachesClient | server/src/routes/chatbot.ts:125-139 | an accepted message answered with a non-empty object text gets exactly that text when it has at most 500 characters, and its first 500 characters followed by `...` when it is longer |
| Chatbot.BlankMessageCostsNothing | server/src/routes/chatbot.ts:62-70 | a rejected blank message does not use up the identifier's rate-limit window |
| VoiceCommands.ClampUnit | server/src/routes/voice.ts:60 | the volume is clamped into [0, 1], unchanged when already inside |
| VoiceCommands.Truthy | server/src/routes/voice.ts:58-61 | a string field is replaced only by a non-empty value |
| VoiceCommands.ApplyUpdate | server/src/routes/voice.ts:56-61 | the booleans and the volume change only when provided, the volume clamped; the string fields change only when given non-empty |
| VoiceCommands.ApplyUpdateLaws | server/src/routes/voice.ts:56-61 | an update providing nothing leaves the preferences as they were, and applying the same update twice is the same as applying it once |
| VoiceCommands.GetPreferences | server/src/routes/voice.ts:8-38 | 401 without a user; a user without preferences gets the defaults, which are stored |
| VoiceCommands.PutPreferences | server/src/routes/voice.ts:41-81 | 401 without a user; otherwise the stored or default preferences are updated and saved, and a save the schema rejects gives 500 with nothing stored. Every stored entry stays valid |
| VoiceCommands.StoredVolumeAlwaysInRange | server/src/routes/voice.ts:60 | stored volumes stay in [0, 1] through every read and update |
| VoiceCommands.Classify | server/src/routes/voice.ts:101-142 | SOS for help/emergency/sos, then location, then safety tips, then route, then the help text, otherwise unknown, matched on the lower-cased command |
| VoiceCommands.HelpMeansSos | server/src/routes/voice.ts:104-132 | any command containing "help" is SOS, so the help text is reached only through "what" or "can" |
| VoiceCommands.ProcessCommand | server/src/routes/voice.ts:84-155 | 401 without a user; otherwise 400 when the command or transcript is missing or empty. Otherwise the classified action with the transcript echoed, and `success` false iff the command is unknown |
| SosAlerts.Optional | server/src/controllers/alertsController.ts:40-49 | an optional line is present iff its value is given and non-empty, and then carries that value |
| SosAlerts.Entry | server/src/controllers/alertsController.ts:37-51 | each entry of the array is either absent or a line with its own caption, and the banner, reason, time and closing entries are never absent |
| SosAlerts.Rank | server/src/controllers/alertsController.ts:37-51 | every caption has a slot in the fixed order banner, reason, name, phone, blood group, allergies, medications, location, coords, evidence, time, closing |
| SosAlerts.Present | server/src/controllers/alertsController.ts:52 | dropping the absent lines keeps the first and last present lines and never adds one |
| SosAlerts.PresentKeepsCaptions | server/src/controllers/alertsController.ts:52 | a caption survives the filter iff one of the candidate lines with it was present |
| SosAlerts.CandidateOffers | server/src/controllers/alertsController.ts:37-51 | the array offers a caption iff the entry for that caption is present |
| SosAlerts.MessageLines | server/src/controllers/alertsController.ts:37-52 | the message starts with the banner and ends with the closing line, has at least four lines, and always has a reason and a time line |
| SosAlerts.FixedLines | server/src/controllers/alertsController.ts:37-52 | the banner, reason, time and closing lines survive the filter |
| SosAlerts.FourDistinctCaptions | server/src/controllers/alertsController.ts:38-51 | such a message has at least four lines |
| SosAlerts.LineAppearsIff | server/src/controllers/alertsController.ts:37-52 | each caption appears in the message iff its entry is present |
| SosAlerts.OptionalLinesIff | server/src/controllers/alertsController.ts:40-49 | the name, phone, blood group, allergies and medications lines appear iff the user gives that field non-empty; the location line iff a URL is given; the coords line iff both coordinates are given and non-zero; the evidence line iff an evidence URL is given |
| SosAlerts.Render | server/src/controllers/alertsController.ts:38-51 | each line is written as its caption text followed by its value |
| SosAlerts.BuildMessage | server/src/controllers/alertsController.ts:35-55 | the SMS body starts with the SOS banner and ends with the call-back line |
| SosAlerts.RenderedFrame | server/src/controllers/alertsController.ts:35-55 | lines that open with the banner and close with the call-back line render to text that starts with the header and ends with the footer |
| SosAlerts.Summarize | server/src/controllers/alertsController.ts:86-92 | a contact's delivery has failed iff its send was rejected, with the rejection's message or `Unknown error` |
| SosAlerts.CountFailed | server/src/controllers/alertsController.ts:94 | the number of failed deliveries is 0 iff none failed and the full count iff all failed |
| SosAlerts.StatusFor | server/src/controllers/alertsController.ts:95 | 502 iff every delivery failed, 207 iff some failed and some did not, 200 iff none failed |
| SosAlerts.SendSos | server/src/controllers/alertsController.ts:57-100 | 400 iff the contact list is missing or empty, with no results. Otherwise one result per contact, in order; without SMS configured every result is skipped with 200; with SMS a result failed iff its send was rejected, and the status follows the failures |
| SosAlerts.AllOrNothing | server/src/controllers/alertsController.ts:95 | every send accepted gives 200; every send rejected gives 502 |
| Bubbles.InviteCode | server/src/routes/bubbles.ts:24 | every invite code starts with `BUBBLE-` |
| Bubbles.Create | server/src/routes/bubbles.ts:9-55 | 401 without a user, 400 when name, icon, color or type is missing or empty, each with nothing stored. Created iff the schema accepts the bubble (name of at most 20 characters, a known type, an unused invite code); the new bubble is appended with the creator as its only member, the invite code built from the first clock reading and `createdAt` from the second. Stored collections stay well formed |
| Bubbles.FindByCode | server/src/routes/bubbles.ts:100 | finds a bubble with the code iff one exists; with unique codes it is the only one |
| Bubbles.Join | server/src/routes/bubbles.ts:90-129 | 401 without a user; 404 for an unknown code; 400 for an existing member, with nothing changed. Otherwise exactly that bubble gains exactly the joining user at the end of its members, and every other bubble is unchanged |
| Bubbles.JoinTwiceRefused | server/src/routes/bubbles.ts:107-109 | joining a second time with the same code is refused with 400 |
| Bubbles.InviteCodesUnchanged | server/src/routes/bubbles.ts:100 | collections with the same invite codes at each position find the same bubble for a code |
| Sorting.SortBy | server/src/routes/safetyAnalysis.ts:176 | the sorted copy is ordered by ascending key and is a permutation of the input |
| Sorting.SameMembers | server/src/routes/bubbles.ts:67-68 | a sorted copy holds exactly the elements of the original, none added and none dropped |
| Bubbles.MemberBubbles | server/src/routes/bubbles.ts:67 | the query `{ members: userId }` selects exactly the stored bubbles listing the user, in stored order |
| Bubbles.MemberViews | server/src/routes/bubbles.ts:67-81 | exactly the bubbles the user is a member of are listed, each as often as it is stored, newest first, and `isCreator` holds iff the user created the bubble |
| Bubbles.ViewsListMembersNewestFirst | server/src/routes/bubbles.ts:67-81 | every bubble the user belongs to appears in the listing, and the listing is ordered by creation time, newest first |
| Bubbles.List | server/src/routes/bubbles.ts:58-87 | 401 iff there is no user; otherwise the user's member views |
| Bubbles.CreatorSeesOwnBubble | server/src/routes/bubbles.ts:27-78 | after creating a bubble, the creator's listing shows it with `isCreator` set |
| PersonalInfo.AllFieldsListed | client/src/pages/PersonalInfo.tsx:6-29 | the field list names every text field of the form |
| PersonalInfo.FormExtensionality | client/src/pages/PersonalInfo.tsx:6-29 | two forms that agree on every field and on the sharing flag are the same form |
| PersonalInfo.HandleChange | client/src/pages/PersonalInfo.tsx:86-88 | the edited field takes the new value and every other field keeps its own |
| PersonalInfo.HandleChangeSameValue | client/src/pages/PersonalInfo.tsx:86-88 | writing a field's own value back changes nothing |
| PersonalInfo.HandleSharingChange | client/src/pages/PersonalInfo.tsx:86-88 | toggling live location sharing changes only that flag |
| PersonalInfo.Validate | client/src/pages/PersonalInfo.tsx:77-84 | a field is in error iff it is one of full name, primary phone, first contact and first contact's phone and is blank after trimming |
| PersonalInfo.ToSaved | client/src/pages/PersonalInfo.tsx:96 | the stored profile holds every field of the form and its sharing flag |
| PersonalInfo.HandleSubmit | client/src/pages/PersonalInfo.tsx:90-100 | the errors are the validation errors; with errors nothing is stored; without, the profile and the completion flag are stored |
| PersonalInfo.Overlay | client/src/pages/PersonalInfo.tsx:70 | saved fields override the defaults and missing ones keep their default values |
| PersonalInfo.Load | client/src/pages/PersonalInfo.tsx:66-75 | without a stored profile, or with an unparsable one, the form is the default; otherwise the saved fields are laid over the defaults |
| PersonalInfo.SubmitThenLoad | client/src/pages/PersonalInfo.tsx:66-97 | a form that passes validation is restored exactly on the next load |
| Police.Entry | client/src/pages/Police24x7.tsx:159-170 | a log entry keeps its time and kind, and its message ends with the logged text after the kind's emoji |
| Police.Push | client/src/pages/Police24x7.tsx:169-172 | the new entry goes first, followed by the newest earlier entries, at most 50 in all |
| Police.AddLog | client/src/pages/Police24x7.tsx:159-173 | the log gains the new entry at its head and keeps at most 50 entries, the older ones in order |
| Seqs.Reversed | client/src/pages/Police24x7.tsx:169-172 | the reverse of a sequence, position by position |
| Seqs.PushCapped | client/src/pages/Police24x7.tsx:169-172 | a capped push puts the new element first, keeps the newest earlier ones in order, and never exceeds the cap |
| Seqs.PushCappedStep | client/src/pages/Police24x7.tsx:169-172 | pushing one element and then more gives the newest `cap` of all of them, newest first, as pushing them all at once does |
| Seqs.PushedTwice | client/src/pages/Police24x7.tsx:215-227 | after two pushes onto a capped log, the entries below the two new ones are the newest earlier entries, in order |
| Police.LogKeepsNewest | client/src/pages/Police24x7.tsx:169-172 | after any number of log calls, the log is the latest entries newest first, cut to 50 |
| Police.StatusAfter | client/src/pages/Police24x7.tsx:215-221 | a step over 100 m gives WARNING; otherwise SAFE unless the status was SOS, which then stays as it is |
| Police.SosHoldsUntilSuddenMovement | client/src/pages/Police24x7.tsx:215-221 | an SOS status survives a run of fixes iff no step exceeds 100 m |
| Police.NeverEntersSos | client/src/pages/Police24x7.tsx:215-221 | fixes alone never put the session into SOS |
| Police.HandleFix | client/src/pages/Police24x7.tsx:189-248 | every fix is appended to the path and becomes the current and previous fix. With no previous fix in the handler's view, the distance and status are unchanged; otherwise the step is added to the view's total and the status follows the step |
| Police.MoveLogs | client/src/pages/Police24x7.tsx:215-227 | a fix after the first logs a sudden-movement warning first when the step exceeds 100 m, then a low-accuracy warning when accuracy is worse than 50 m, else an info line; older entries follow, cut to 50 |
| Police.OnFix | client/src/pages/Police24x7.tsx:189-248 | the handler reading the latest state adds the step from the previous fix to the total, with no step for the first fix |
| Police.TrackRecordsPath | client/src/pages/Police24x7.tsx:189-194 | the live handler over a run of fixes appends one path point per fix, in order, after the existing path, and the last fix becomes the previous fix |
| Police.RegisteredRecordsPath | client/src/pages/Police24x7.tsx:189-194 | the handler registered at the start of tracking records the path the same way, whatever view it holds: one point per fix, in order, with the last fix as the previous fix |
| Police.TotalIsPathLength | client/src/pages/Police24x7.tsx:197-206 | with a previous fix, the total after a run of fixes grows by the length of the path through them |
| Police.FreshTotalIsPathLength | client/src/pages/Police24x7.tsx:197-206 | from a fresh session, the total distance is the length of the path of fixes |
| Police.RegisteredHandlerNeverAccumulates | client/src/pages/Police24x7.tsx:197-268 | in the first tracking session after the page mounts, the handler registered once with `watchPosition` sees the state of the start of tracking, which has no previous fix, so it never adds distance or changes the status |
| Police.RegisteredHandlerLosesDistance | client/src/pages/Police24x7.tsx:197-268 | two fixes a positive distance apart: the registered handler reports 0 m where the path is longer |
| Police.RegisteredHandlerMeasuresFromOldFix | client/src/pages/Police24x7.tsx:197-234 | in a later session the view captured at start still holds the last fix of the session before, since stopping and clearing keep it; every fix then sets the total to the view's total plus the distance from that old fix, so after a run of fixes only the last one counts |
| PoliceControls.StartTracking | client/src/pages/Police24x7.tsx:260-279 | tracking starts iff geolocation is available (or was already on); only the flag and the log change, and a log line is always added |
| PoliceControls.StopTracking | client/src/pages/Police24x7.tsx:282-292 | tracking is off afterwards; only the flag and the log change |
| PoliceControls.Tick | client/src/pages/Police24x7.tsx:65-71 | the session timer counts one second only while tracking; nothing else changes |
| PoliceControls.OnInactivity | client/src/pages/Police24x7.tsx:240-247 | two minutes after a fix, the timer armed by that fix leaves the session alone when the status its handler saw was SOS; otherwise the live session becomes WARNING with a warning entry on top, and nothing else changes |
| PoliceControls.OnInactivityLive | client/src/pages/Police24x7.tsx:240-247 | the timer reading the live status: an SOS session is left alone, any other becomes WARNING with a warning entry on top |
| PoliceControls.StaleTimerOverwritesSos | client/src/pages/Police24x7.tsx:240-247 | tracking started while not in SOS, SOS pressed later: the timer of the registered handler still turns the session into WARNING |
| PoliceControls.LiveTimerKeepsSos | client/src/pages/Police24x7.tsx:240-247 | the timer reading the live status leaves a raised SOS session unchanged |
| PoliceControls.TriggerSos | client/src/pages/Police24x7.tsx:295-324 | the status becomes SOS and the contacted flag is set; the newest log line is an SOS line, or an error line when the stored profile cannot be parsed; nothing else changes |
| PoliceControls.ClearPath | client/src/pages/Police24x7.tsx:455-470 | the distance, path, duration and speed are reset, the status is SAFE and the contacted flag cleared; tracking and the last fix are kept |
| PoliceControls.ClearThenFix | client/src/pages/Police24x7.tsx:455-470 | the first fix after clearing the path adds the step from the last fix seen before clearing |
| PoliceControls.FormatTime | client/src/pages/Police24x7.tsx:494-499 | `HH:MM:SS` with digit groups, minutes and seconds below 60 and two digits each, whose value is the given number of seconds |
| PoliceControls.SplitSeconds | client/src/pages/Police24x7.tsx:495-497 | hours, minutes and seconds recombine to the total, with minutes and seconds below 60 |
| PoliceControls.ClockParts | client/src/pages/Police24x7.tsx:498 | the clock text splits back into its three parts at the two colons |
| PoliceControls.FormatTimeRoundTrip | client/src/pages/Police24x7.tsx:494-499 | reading the clock text back gives the number of seconds it was made from |
| PoliceControls.NearestFirst | client/src/pages/Police24x7.tsx:427-429 | the stations are reordered, none added or lost, nearest first |
| PoliceControls.NearestListedFirst | client/src/pages/Police24x7.tsx:427-429 | the first station listed is at least as near as every other |
| RouteInfo.FormatDuration | client/src/components/RouteInfo.tsx:59-68 | from an hour on, the whole hours and the minutes past the hour; below an hour, the whole minutes |
| RouteInfo.DurationTextAddsUp | client/src/components/RouteInfo.tsx:59-68 | for any duration, the hours counted from the whole minutes are the whole hours and the minutes past the hour agree with those of the milliseconds past the hour; so the hours and minutes shown add up to the whole minutes, the minutes below 60 |
| RouteInfo.Summarize | client/src/components/RouteInfo.tsx:81-82 | the duration is end minus start, and there is a route iff there are points |
| RouteInfo.SummaryOfSnapshot | client/src/components/RouteInfo.tsx:52-82 | for the tracker's data there is a route iff it has points, and the duration runs from the first fix to now, zero without a route; after the route is cleared, no route and no duration are shown |
| RouteInfo.ViewRoute | client/src/components/RouteInfo.tsx:28-50 | no link while loading or for an empty route; otherwise a directions link from the first point to the last |
| RouteInfo.SameLinkAsTracker | client/src/components/RouteInfo.tsx:34-46 | the panel opens exactly the link the tracker generates for the same route |
| KeywordEditor.Commit | client/src/components/VoiceSOS.tsx:131-142 | the list is shown, given to the service and stored; with lower-case keywords all three agree |
| KeywordEditor.SetLowerKeepsList | client/src/services/voiceSOS.ts:194-197 | giving the service a lower-case list stores exactly that list |
| KeywordEditor.AddKeywordAsWritten | client/src/components/VoiceSOS.tsx:128-136 | as written: nothing happens for a blank draft or a trimmed draft already listed; otherwise its lower-case form is appended, stored and the draft cleared |
| KeywordEditor.AsWrittenAddsDuplicate | client/src/components/VoiceSOS.tsx:129-130 | as written, a draft whose case differs from a listed keyword adds that keyword a second time |
| KeywordEditor.AsWrittenHelpTwice | client/src/components/VoiceSOS.tsx:129-130 | typing `Help` with `help` listed gives `["help", "help"]` |
| KeywordEditor.AddKeyword | client/src/components/VoiceSOS.tsx:128-136 | corrected: nothing happens for a blank draft or one whose lower-case form is listed; otherwise that form is appended, stored, and the draft cleared. The list stays free of duplicates and in step with the service |
| KeywordEditor.AppendKeepsList | client/src/components/VoiceSOS.tsx:128-136 | appending a lower-case keyword that is not yet listed keeps the list free of duplicates and all lower-case |
| KeywordEditor.RemoveKeyword | client/src/components/VoiceSOS.tsx:138-143 | exactly the keywords other than the removed one remain, in order; the list is stored and given to the service, and stays free of duplicates |
| KeywordEditor.SubseqKeepsDistinct | client/src/components/VoiceSOS.tsx:139 | filtering a duplicate-free list keeps it duplicate-free |
| KeywordEditor.AddThenRemove | client/src/components/VoiceSOS.tsx:128-143 | adding a new keyword and then removing it gives back the earlier list |
| KeywordEditor.LoadSaved | client/src/components/VoiceSOS.tsx:145-156 | with no stored list, or an unparsable one, nothing changes; otherwise the stored list is shown and given to the service |
| KeywordEditor.SaveThenLoad | client/src/components/VoiceSOS.tsx:131-156 | a list the editor stored is shown and used again on the next mount |
| EmergencyContact.PhoneIff | server/src/models/EmergencyContact.ts:27-31 | the phone scanner accepts exactly the strings of the pattern: an optional `+`, an optional `1`, then 9 to 15 digits |
| EmergencyContact.EmailSound | server/src/models/EmergencyContact.ts:32-36 | every address the email scanner accepts has the pattern's shape |
| EmergencyContact.EmailComplete | server/src/models/EmergencyContact.ts:32-36 | every address of the pattern's shape is accepted by the scanner |
| EmergencyContact.EmailIff | server/src/models/EmergencyContact.ts:34 | the email scanner accepts exactly the strings `local@domain.tld` with no `@` or white space in any part |
| EmergencyContact.ParseRelation | server/src/models/EmergencyContact.ts:37-41 | a relation name parses to the relation of that name; a string naming no relation is rejected |
| EmergencyContact.RelationRoundTrip | server/src/models/EmergencyContact.ts:39 | every relation's name parses back to it |
| EmergencyContact.Validate | server/src/models/EmergencyContact.ts:16-54 | each error holds iff its rule is broken: a missing user, a blank name, a missing phone, a phone off the pattern, an email off the pattern, an unknown relation |
| EmergencyContact.Build | server/src/models/EmergencyContact.ts:16-54 | a valid input gives an admissible contact with the name trimmed, the relation `other` and both flags false when not given |
| EmergencyContact.ClearOthers | server/src/models/EmergencyContact.ts:57-62 | every other contact of the same user loses the primary flag; everything else is unchanged |
| EmergencyContact.Upsert | server/src/models/EmergencyContact.ts:57-65 | a saved contact replaces the stored one with its id, or is appended when new |
| EmergencyContact.Save | server/src/models/EmergencyContact.ts:16-65 | an input that breaks a rule is refused with exactly its errors and nothing stored; otherwise the built contact is saved |
| EmergencyContact.UpsertFacts | server/src/models/EmergencyContact.ts:57-65 | ids stay unique, the contact is stored, and every other contact keeps its position and value |
| EmergencyContact.UpsertKeepsWellformed | server/src/models/EmergencyContact.ts:56-65 | storing an admissible contact, primary only when no other contact of its user is, keeps the store well formed |
| EmergencyContact.SaveWrites | server/src/models/EmergencyContact.ts:57-65 | a successful save stores the contact; every other contact is kept, except that a primary save clears the flag of the user's other contacts |
| EmergencyContact.SaveEffects | server/src/models/EmergencyContact.ts:56-62 | a contact of another user, or any contact when the saved one is not primary, is unchanged by a save; after a primary save, the saved contact is its user's only primary contact |
| EmergencyContact.SaveKeepsSinglePrimary | server/src/models/EmergencyContact.ts:56-65 | every save keeps ids unique, every contact admissible and at most one primary contact per user |
| SafetyAnalysis.Clamp | server/src/routes/safetyAnalysis.ts:131 | the score is clamped into [0, 100], unchanged inside it |
| SafetyAnalysis.Level | server/src/routes/safetyAnalysis.ts:138 | LOW iff the score is at least 70, MEDIUM iff it is in [40, 70), HIGH iff it is below 40 |
| SafetyAnalysis.LevelMonotone | server/src/routes/safetyAnalysis.ts:138 | a higher score never has a higher risk level |
| SafetyAnalysis.AnalyzeZone | server/src/routes/safetyAnalysis.ts:88-147 | the zone is keyed by its coordinates at four decimals; its score lies in [0, 100], equals the weighted score when that is already in range, and its level follows the score |
| SafetyAnalysis.NormalizeValueAsWritten | server/src/routes/safetyAnalysis.ts:83-85 | as written: no number (NaN) exactly when value, min and max are all equal; otherwise a value in [0, 1], the exact ratio inside a proper range |
| SafetyAnalysis.NormalizeDegenerateRange | server/src/routes/safetyAnalysis.ts:83-85 | `normalizeValue(5, 5, 5)` is NaN, outside [0, 1] |
| SafetyAnalysis.NormalizeValue | server/src/routes/safetyAnalysis.ts:83-85 | corrected: always in [0, 1]; equal to the written result wherever that is a number, and 0 for a degenerate range |
| SafetyAnalysis.SumBounds | server/src/routes/safetyAnalysis.ts:180-218 | the sum of scores each between two bounds lies between the count times each bound |
| SafetyAnalysis.AverageInRange | server/src/routes/safetyAnalysis.ts:180 | the average of a non-empty list of analysed zones lies in [0, 100] |
| SafetyAnalysis.AnalyzeZones | server/src/routes/safetyAnalysis.ts:150-188 | 400 iff either centre coordinate is missing or zero. Otherwise the zones are reordered, none added or lost, safest first. The safe zones are exactly the LOW ones and the unsafe zones exactly the HIGH ones, each in that order. The total is the zone count, and the average is absent iff there are no zones and lies in [0, 100] otherwise |
| SafetyAnalysis.SortedSafestFirst | server/src/routes/safetyAnalysis.ts:176 | sorting by the negated score lists higher scores first |
| SafetyAnalysis.SafeAndUnsafeDisjoint | server/src/routes/safetyAnalysis.ts:177-178 | no zone is listed both as safe and as unsafe |
| SafetyAnalysis.Waypoints | server/src/routes/safetyAnalysis.ts:202-214 | six waypoints: the start, the points at fifths of the way, and the end |
| SafetyAnalysis.RouteZones | server/src/routes/safetyAnalysis.ts:217 | one analysed zone per waypoint, at that waypoint |
| SafetyAnalysis.Risks | server/src/routes/safetyAnalysis.ts:219-221 | one risk text per HIGH zone, and exactly the texts `High-risk zone near <id>` of the HIGH zones |
| SafetyAnalysis.HighTextsStep | server/src/routes/safetyAnalysis.ts:219-221 | the risk texts of a list are those of its first zone and those of the rest |
| SafetyAnalysis.Recommendation | server/src/routes/safetyAnalysis.ts:230-235 | the safe text iff the average is at least 70, the caution text iff it is in [40, 70), the unsafe text iff it is below 40 |
| SafetyAnalysis.RecommendationFollowsTiers | server/src/routes/safetyAnalysis.ts:230-235 | the route's recommendation follows the same tiers as a zone's risk level |
| SafetyAnalysis.Assess | server/src/routes/safetyAnalysis.ts:216-242 | the route keeps the waypoints; its score is the rounded average in 0..100; an alternative is offered iff the average is below 70. The risks are those of the HIGH zones, the distance is 1.1 times the direct one, and the time is 12 minutes per km of it, rounded |
| SafetyAnalysis.SuggestRoute | server/src/routes/safetyAnalysis.ts:191-246 | 400 iff any endpoint coordinate is missing or zero; otherwise the assessed route through the six waypoints, with one risk per HIGH waypoint and an alternative offered iff the route is not rated safe |
| SafetyAnalysis.AllLowIsSafe | server/src/routes/safetyAnalysis.ts:216-241 | a route whose waypoints are all LOW is rated safe, with no risks and no alternative |
| SafetyAnalysis.AllHighIsUnsafe | server/src/routes/safetyAnalysis.ts:216-241 | a route whose waypoints are all HIGH is rated unsafe, with one risk per waypoint and an alternative |
| SafetyAnalysis.Keep | server/src/routes/safetyAnalysis.ts:257-267 | the report is appended; beyond 1000 reports only the newest 1000 are kept, ending with the new one |
| SafetyAnalysis.ReportIncident | server/src/routes/safetyAnalysis.ts:249-279 | 400 iff either coordinate is missing or zero, with the log unchanged. Otherwise the log ends with the new report, severity `MEDIUM` when none is given, and is the newest part of the old log plus the report. The count is the number of kept reports within 0.5 of the location; a log of at most 1000 stays so |
| SafetyAnalysis.LogKeepsNewest | server/src/routes/safetyAnalysis.ts:257-267 | after any number of reports the log is the newest of them, at most 1000, in arrival order |
| SafetyAnalysis.ReportCountsItself | server/src/routes/safetyAnalysis.ts:272-274 | the reply always counts at least the report just made |
| SafetyAnalysis.NearLastCounts | server/src/routes/safetyAnalysis.ts:272-274 | a log whose newest report is within 0.5 has a count of at least one |
| Text.TrimEmptyIff | client/src/pages/PersonalInfo.tsx:79-82 | `trim()` gives the empty string exactly for an all-white-space string |
| Text.IndexOf | server/src/routes/chatbot.ts:121 | `indexOf` finds the first position where the text occurs, and reports none exactly when it occurs nowhere |
| Text.SplitJoin | client/src/services/voiceSOS.ts:111-115 | splitting a space-joined list of non-empty words on white space gives the words back |
| Text.Pad2 | client/src/pages/Police24x7.tsx:498 | `toString().padStart(2, '0')` gives at least two digits whose value is the number, exactly two below 100 |
| Text.DecimalRoundTrip | client/src/pages/Police24x7.tsx:498 | the decimal text of a number reads back as that number |

## Left out

- Browser and server I/O is not modelled: IndexedDB transactions and cursors, localStorage and the Cache API, geolocation, notifications, Web Speech, audio, Mongo queries, Twilio, the HuggingFace call and Express wiring. Stores become sequences and records, and every outcome of an outside call becomes a parameter.
- Timers and concurrency are not modelled. The drain timer, the proximity timer, the 30-minute suppression expiry, the inactivity timer and the session timer become explicit steps (`PeriodicTick`, `ExpireSuppression`, `OnInactivity`, `Tick`). Overlapping drains started by the online event and the timer are not modelled, and at-most-once dispatch is not claimed.
- Great-circle distance and the weighted zone-score formula (`calculateDistance`, the body of `analyzeZone` at server/src/routes/safetyAnalysis.ts:95-129) are floating-point trigonometry. They are the parameters `Geo.Metric` and `raw`, and every property holds for any such function.
- Floating-point rounding is not modelled: scores, averages and waypoints are exact reals. `toFixed` and number-to-text formatting are parameters.
- SafetyAnalysis.AnalyzeZones: the grid of zones around the centre uses a cosine (server/src/routes/safetyAnalysis.ts:158-172), so the analysed zones are a parameter; the `toFixed(2)` text of the average and the `analyzedAt` time are not modelled.
- Geo.Round: `Math.round` is modelled on exact reals, with halves rounded up as JavaScript does.
- The `GET /zone/:lat/:lng` and `GET /heatmap` routes of server/src/routes/safetyAnalysis.ts (282-337) only score or list zones through the abstract formula, so they are not modelled.
- The `/log` route of server/src/routes/voice.ts (158-183) only stores a log document; it is not modelled.
- Chatbot.HandleChat: the outer `catch` (server/src/routes/chatbot.ts:164-184), reached only when something before the model call throws, is not modelled.
- Request bodies are modelled as optional typed values. JavaScript truthiness is modelled for them: 0 and the empty string count as missing. Bodies of the wrong JSON type and NaN are not modelled.
- `sendSOSAlert`, which the drain calls for `sos` records, is imported from `api.ts`, and that module has no such export. How that dispatch settles is a parameter of `SyncManager.SyncItem`.
- `cacheCurrentLocation` in client/src/services/offlineManager.ts (160-163) is never called, and it writes `lastKnownLocation` while the detector writes `lastKnownPosition`. The refresh therefore takes the stored location as an optional parameter.
- RiskDetector.LoadCachedRiskZones: a fresh cache holding an empty zone list is used as it is, because the code only checks the age. The defaults are used only for a missing, stale or unparsable cache.
- The map-tile cache (client/src/services/offlineStorage.ts:154-174) is a Cache API wrapper and is not modelled.
- `stop`, `abort`, `setLanguage`, `getKeywords`, `isActive` and `isSupported` of client/src/services/voiceSOS.ts (177-215) are not modelled. They only forward to the recogniser or read a field.
- Text.ToLower: only ASCII letters are lowered, and strings are sequences of code points rather than UTF-16 units.
- Text.Words: only ASCII white space is recognised, where JavaScript's `\s` also matches other Unicode spaces.
- Text.Trim: strips only the six ASCII white-space characters, where `String.prototype.trim` also strips U+00A0, U+FEFF, the line and paragraph separators and the other Unicode spaces. A message of non-breaking spaces alone is therefore blank to the chat server but not to this model.
- EmergencyContact.EmailIff: the regular expression's `\s` is read as ASCII white space only, so an address containing another Unicode space (U+00A0, say) is accepted here where the server rejects it.
- PoliceControls.TriggerSos: the siren, the spoken alert and the `sos_alert_` record written to local storage are not modelled; only the status, the flag and the log are.
- Police: the map drawing, the session save to local storage, the export and the call buttons of client/src/pages/Police24x7.tsx are rendering or I/O and are not modelled.
- EmergencyContact.Save: the hook's `updateMany` runs before the save and is not atomic with it. Other saves running at the same time are not modelled.
- EmergencyContact: `verificationCode` and the timestamps of server/src/models/EmergencyContact.ts are not modelled.
- RouteTracker.SendEmergencyNotification: the source sends nothing to the contacts. It logs the payload, shows a system notification when permission is granted and calls `alert`, and its own comment (client/src/services/routeTracker.ts:224-229) lists sending them an SMS as future work. The alert text still says "Emergency contacts notified". The model records only the contacts the alert names; the payload's location, route and profile fields are not modelled.
- Bubbles.Create: the invite code's random suffix is a parameter, and a collision is the 500 reply the unique index produces.

## Findings

| source | as written | input that shows it | evidently intended | confidence | as-written member | corrected member |
|---|---|---|---|---|---|---|
| client/src/services/offlineStorage.ts:33,72-86,138-139 | the outbox lists and purges records through an index on the boolean `synced`; booleans are not valid IndexedDB keys, so no record is in that index and `IDBKeyRange.only(true)` throws a DataError; the drain that replays queued alerts therefore never sends one (`SyncManager.SyncPendingDataAsWritten`) | a store holding one unsynced `sos` record: `getUnsynced` returns `[]` and `clearSynced` rejects | list exactly the unsynced records and delete exactly the synced ones | high, not executed | Outbox.PendingRecordNotListedAsWritten | Outbox.GetUnsynced |
| client/src/pages/Police24x7.tsx:189-248,266-268 | `handleLocationSuccess` is handed to `watchPosition` once, so every later fix runs the closure of the render in which tracking started. In the first session after the page mounts, `previousLocation` is null there; in later sessions it is the last fix of the session before, because stopping and clearing never reset it (Police.RegisteredHandlerMeasuresFromOldFix) | two fixes 150 m apart after starting the first session: the total stays 0 m and the status never changes | each fix adds the step from the previous fix to the total and updates the status | high, not executed | Police.RegisteredHandlerLosesDistance | Police.FreshTotalIsPathLength |
| client/src/pages/Police24x7.tsx:240-247 | the inactivity callback is created inside the fix handler registered once at the start of tracking, so it tests the `status` of that render; its `inactivityTimer` is null there, so no earlier timer is cleared either | start tracking while SAFE, press SOS, then receive one fix: two minutes later the status is WARNING and the log says no movement | an SOS raised at any time survives the inactivity timer | high, not executed | PoliceControls.StaleTimerOverwritesSos | PoliceControls.LiveTimerKeepsSos |
| client/src/components/VoiceSOS.tsx:129-130 | the duplicate check compares the trimmed text in its original case, but the list stores lower-case keywords | list `["help"]`, draft `Help`: the list becomes `["help", "help"]` | refuse a keyword whose lower-case form is already listed | high, not executed | KeywordEditor.AsWrittenHelpTwice | KeywordEditor.AddKeyword |
| server/src/routes/safetyAnalysis.ts:83-85 | `normalizeValue` divides by `max - min`, and `Math.max(0, Math.min(1, NaN))` is NaN | `normalizeValue(5, 5, 5)` is NaN, not in [0, 1]; the helper is never called | a value in [0, 1] for every input | medium, not executed | SafetyAnalysis.NormalizeDegenerateRange | SafetyAnalysis.NormalizeValue |
