# Politburo: verified model of its caches, jobs and route geometry

Politburo is a game server that keeps live flight data in a Redis cache. Scheduled jobs refresh the
active sessions, the aircraft liveries and, every minute, the flights of each server together with a
short history per flight. HTTP handlers read that cache; browser logins go through one-time tickets;
API keys are checked against a database through a one-minute cache; the dashboard draws routes that may
cross the antimeridian. This project models that behaviour in Dafny and proves what it keeps over whole
runs, under failing reads and writes, expiries and interleavings.

`dafny verify dfyconfig.toml` checks everything.

## How it is organised

| file | subject |
|---|---|
| Keys, Cache, GameData, Sequences, Text | key conventions, the cache with its faults, cached values, helpers |
| Dedup, FlightMapper | index-map deduplication, mapping and upserting flights |
| Liveries | the liveries job and the per-run livery memo |
| FlightsJob | the flights refresh, step by step, proved equal to its effect |
| FlightRuns, FlightNames | whole runs of the refresh: locality, what is stored for a flight, its names |
| FlightFaults, FlightRepeats, FlightHistory | a flight's history under every pattern of faults, when an entry repeats, and what an undisturbed history is |
| FlightsRefreshed, FlightCalls, RunLiveries | one call of the job's Run from cached sessions to cached flights, any number of calls, their histories and livery lookups |
| SessionsJob | the sessions refresh and the history inside its own key |
| Routes, RouteLayers | route thinning, antimeridian splitting, the layers on the map |
| Login | tickets, browser sessions and the login handler as an interleaved protocol |
| ApiKeys | the API-key status cache against the database |
| Paging, FlightViews | pages, filters, trimmed markers and marker details |
| RateLimit | the fixed-window limiter |

Jobs and handlers are classes whose methods take the source's steps in the source's order. Each method
is proved against a function of the old state, and the theorems about whole runs are about those
functions. Network trouble is an explicit argument: which reads fail, which writes are lost and which
take effect although an error is reported. For the concurrent parts (logins, API-key lookups) a trace
lists the atomic cache operations of all requests, and the methods are proved to produce such traces
with arbitrary activity of others between their own operations.

Assumptions: a job never overlaps itself (`internal/scheduler/scheduler.go:37`). The history theorems
about a flight require that upstream lists that flight on one server only; other flights may be listed
anywhere. The login theorems require that random IDs are not drawn twice.

## Where the code falls short of its intent

- **Both points on the antimeridian.** `interpolateAntimeridianPoint` divides zero by zero exactly when
  one point has longitude 180 and the next -180: the inserted vertices have no latitude
  (`Routes.SeamsMeetOnTheLine` states the exact condition).
- **Stranded route layers.** The map library (Leaflet 1.9.4,
  `internal/ui/templates/pages/maps-active-flights.html:44`) throws on such a vertex, and `addPath` has no
  handler around the drawing. It throws exactly when two neighbours of the thinned route lie on the
  antimeridian with opposite signs; the name is then gone. Segments drawn before the throw stay in the layer
  group, where neither `clearPath` nor `clearRoute` finds them. This happens exactly when the route's first
  crossing is not itself such a pair, so that its first segment could be drawn
  (`RouteLayers.FlightMap.AddPath`, `RouteLayers.DrawnBeforeRefusedIff`). `RouteLayers.StrandingRoute` gives
  a route of four points.
- **Page arithmetic.** `Paginate` returns the intended window exactly when the start it computes lies
  outside the list or page number times page length fits a 64-bit integer (`Paging.PageIsWindowIff`);
  otherwise it panics or returns another page, and `Paging.PaginateFails` gives numbers for both. The
  panic is over a length that has wrapped back to the page length and is far beyond the list
  (`Paging.OverflowAsksForPageLength`).
- **Repeated history entries.** Histories are written before the snapshot. A refresh records an
  observation a second time exactly when it can read the history and an earlier refresh recorded the
  flight and lost its snapshot write, with no snapshot stored and no expiry of the history since
  (`FlightRepeats.RecordingRepeatsIff`); a run keeps a history strictly increasing throughout iff no step
  of it is of that kind (`FlightRepeats.IncreasingThroughoutIff`). `FlightRepeats.SlippedRunRepeats` is a
  run of three refreshes from an empty cache that ends with two equal entries.
- **More than the limit in a minute.** For every limit from 1 on: among requests that read the clock in
  the 60 seconds from `start`, the limit holds exactly when `start` begins a minute of the clock
  (`RateLimit.WindowLimitedIff`), and twice the limit always. Among requests counted in those 60 seconds the
  limit holds only from instant 0 (`RateLimit.PassageWithinLimitIff`), twice the limit exactly when `start`
  lies in the first minute, begins a minute or is the last instant of one (`RateLimit.PassageLimitedIff`),
  and three times the limit always, because up to a minute may lie between reading the clock and counting.
  Every other window reaches the higher bound. Requests whose count fails come on top, as the source intends.
- **Liveries without an ID.** The per-run memo answers a repeated lookup differently from the first one
  exactly when the cached livery has an empty ID field (`Liveries.LookupsRepeatFirstRead`). The liveries
  job never stores such an entry under a non-empty ID.
- **Retry-After before 1970.** The advice is within 1 to 60 seconds for every clock from 1970 on, and
  before that only at whole minutes (`RateLimit.RetryAfterInRange`).

## Model

| member | source | states |
|---|---|---|
| Keys.KeysSeparate | internal/cache/keys.go:4-64 | two keys built by any builders, over all strings, are the same Redis key iff they come from the same builder with the same argument; the two fixed keys included |
| Keys.KeysAsWritten | internal/cache/keys.go:4-64 | the exact text of every key |
| Keys.RenderParses | internal/cache/keys.go:42-64 | every built key can be read back into its builder and argument |
| Keys.RawWriteIsLocal | internal/cache/store.go:79-95 | a raw write under a built key changes what the application sees under that one key only |
| Cache.Store.GetJSON | internal/cache/store.go:58-77 | hit, miss and error outcomes of a read under given faults |
| Cache.Store.SetJSON | internal/cache/store.go:79-95 | a write either is applied or leaves the cache alone; the error report is independent of that |
| Dedup.LastByFirstSnoc | internal/game/flights/mapper.go:74-86 | one more row overwrites its identity's entry or is appended: the loop step of "order of first, value of last occurrence" |
| Dedup.IndexSnoc | internal/game/flights/mapper.go:83 | the index map keeps pointing each identity at its own entry |
| Dedup.FirstKeysInOrder | internal/game/flights/mapper.go:79-84 | identities stand in the order in which they first occur |
| FlightMapper.IndexByID | internal/jobs/flights/job.go:78-81 | the index answers exactly what a search for the last flight of that ID does |
| FlightMapper.LookupIsLast | internal/game/flights/mapper.go:68-71 | of several flights of one ID the last one answers |
| FlightMapper.UpsertFlights | internal/game/flights/mapper.go:67-87 | the loop yields each upstream identity once, in order of first occurrence, with its last row merged with the prior names and without nested history |
| FlightMapper.UpsertIdentities | internal/game/flights/mapper.go:72-86 | identities of the result are unique and exactly the upstream ones; nothing absent upstream survives; no nested history |
| FlightMapper.UpsertLookup | internal/game/flights/mapper.go:74-84 | under each identity stands the last upstream row of it, merged with the prior flight of that identity |
| FlightMapper.SecondMergeIsIdle | internal/game/flights/mapper.go:75-77 | merging names again after MapFlight changes nothing, duplicates in the prior snapshot or not |
| Liveries.LookupsRepeatFirstRead | internal/jobs/flights/job.go:135-152 | in a run, only the first lookup of an ID reads the cache, and every later one repeats its answer iff that answer was a miss or a livery with a non-empty ID |
| Liveries.DirectlyMeans | internal/jobs/flights/job.go:145-151 | a direct read answers with the livery cached under that ID iff the read gets through and finds one |
| Liveries.MemoRefinesDirectReads | internal/jobs/flights/job.go:139-151 | over a cache filled by the liveries job the memo answers every lookup as the first direct read did, whatever the cache does meanwhile |
| Liveries.RunMemo.LookupLivery | internal/jobs/flights/job.go:135-152 | the method has the effect and answer the memo theorems speak of |
| Liveries.Run | internal/jobs/liveries/job.go:28-44 | writes in order, stops at the first reported error with the earlier writes in place, keeps every livery under its own ID |
| Liveries.CachedLiveries | internal/jobs/liveries/job.go:34-41 | afterwards each livery whose write got through stands under its ID, the last one of several, and no other key has changed |
| Liveries.CacheLiveriesKeepsOwnIDs | internal/jobs/liveries/job.go:34-41 | storing any list of liveries, under any faults, keeps each livery under its own ID |
| FlightsJob.Job.Run | internal/jobs/flights/job.go:32-59 | the cache after a run is the sessions' refreshes applied in order with one shared memo, entries expiring and others written before each; no readable sessions, no change |
| FlightsRefreshed.TurnsMean | internal/jobs/flights/job.go:46-49 | the turns of a run are, in order, exactly the sessions whose ID and name are not empty |
| FlightsRefreshed.RunRefreshesNamedSessions | internal/jobs/flights/job.go:46-56 | a run holds one refresh for each of these turns and no other, in order, of that session with the upstream answer and the faults of its turn |
| FlightsRefreshed.RunStoresUpstream | internal/jobs/flights/job.go:32-101 | for a readable session with ID and name that upstream answers and whose snapshot is not lost or touched later, the run leaves a snapshot that lists exactly the upstream IDs, each once, each flight as the last row of its ID says |
| FlightsJob.Job.RefreshSession | internal/jobs/flights/job.go:61-101 | histories first, snapshot last, each subject to its own fault; fetch failure, cache failure or the number of stored flights reported, each under its exact condition |
| FlightsJob.Job.CacheHistories | internal/jobs/flights/job.go:103-119 | exactly the flights with a non-empty ID and a prior observation get the prior appended to their loaded history |
| FlightsJob.Job.LoadHistory | internal/jobs/flights/job.go:121-133 | the stored history, or the prior flight's nested history when the read misses or fails |
| FlightRuns.RefreshIsLocal | internal/jobs/flights/job.go:96-97 | refreshing one server changes only its own snapshot key and the history keys of flights in both its old and new snapshot |
| FlightRuns.HistoryAcrossRefresh | internal/jobs/flights/job.go:103-118 | what one refresh does to one flight's history key, for any cache content and faults |
| FlightRuns.SnapshotIsLastStored | internal/jobs/flights/job.go:89-99 | in every run, a cached snapshot is the one stored last for that server |
| FlightCalls.RunExtendsReplay | internal/jobs/flights/job.go:32-59 | any call of Run after any steps has the effect of exactly the steps `StepsOfRun`: expiries, writes of others and a refresh for each session that is not skipped |
| FlightCalls.CallsAreSteps | internal/jobs/flights/job.go:32-59 | any number of calls of Run, with anything happening before and within them, has the effect of lawful steps |
| FlightCalls.CalledHistoryIsTraced | internal/jobs/flights/job.go:32-133 | after any number of calls under all faults, a flight listed on one server has exactly the history that the positions of those calls' steps give |
| FlightCalls.CalledHistoryIsExact | internal/jobs/flights/job.go:32-133 | after any number of calls that spare the flight's history and its server's snapshots, the history is exactly the newest 25 observations that were followed by another |
| RunLiveries.RowsRepeatFirstRead | internal/jobs/flights/job.go:46-56 | in a run, every row of every server with a livery ID is mapped with the run's first direct read of that ID, except exactly a later row when that read found a livery without an ID; only the first lookup reads the cache |
| RunLiveries.RowsUseFirstRead | internal/jobs/flights/job.go:135-152 | over a cache that holds each livery under its own ID there is no exception, whatever expires or is written during the run |
| FlightHistory.HistoryIsExact | internal/jobs/flights/job.go:61-133 | in every run that neither loses, misreads nor expires the flight's own history and its server's snapshots, whatever happens to other keys, the cached history is exactly the newest 25 observations that were followed by another in the next stored snapshot, oldest first, stripped; absent if there are none |
| FlightHistory.RecordedMeans | internal/jobs/flights/job.go:109-114 | the recorded positions are, in order, exactly those present in two consecutive snapshots; the observation before a disappearance is never one |
| FlightFaults.HistoryObservesPositions | internal/jobs/flights/job.go:71-132 | under any failed reads, lost or unacknowledged writes and expiries, the cached history lists exactly the observations at the positions that `Positions` computes from the run, and is absent iff there are none; they never go backwards, are at most 25, and repeat at most once per lost snapshot write |
| FlightRepeats.RecordingRepeatsIff | internal/jobs/flights/job.go:96-133 | a refresh that records a flight repeats its newest entry iff it can read the history and an earlier recording lost its snapshot, with no snapshot stored and no history expiry since |
| FlightRepeats.IncreasingThroughoutIff | internal/jobs/flights/job.go:96-133 | a history is strictly increasing in refresh order after every step of a run iff no step is such a repetition |
| FlightRepeats.HistoryIncreasesUnlessSnapshotLost | internal/jobs/flights/job.go:96-99 | in particular with no lost snapshot write the observations are strictly increasing |
| FlightRepeats.SlippedRunRepeats | internal/jobs/flights/job.go:96-99 | for every flight and server, three refreshes from an empty cache, the second losing its snapshot, end with a history of two equal entries |
| FlightRepeats.SlippedRunRecordsAgain | internal/jobs/flights/job.go:96-133 | the third refresh of that run meets the exact condition: an unsettled record and a readable history |
| FlightNames.NextIsLastRow | internal/jobs/flights/job.go:83-91 | under each upstream ID the snapshot holds the flight mapped from the last row of that ID with its livery and the prior flight, whatever earlier rows and the second merge did |
| FlightNames.StoredFields | internal/game/flights/mapper.go:12-65 | field by field: which upstream or session field stands in each stored field, the state name of each code, the refresh time when no report time parses, names from the livery, else from the cached flight of that ID, else empty |
| FlightNames.NameEmptyIff | internal/game/flights/mapper.go:19-32 | a stored aircraft or livery name is empty iff neither the livery found nor the prior observation gives one |
| FlightNames.NamesStick | internal/jobs/flights/job.go:78-92 | while a flight stays in consecutive stored snapshots, each of whose refreshes could read its predecessor, its names never become empty again, whatever faults and expiries the run has elsewhere |
| SessionsJob.Job.Run | internal/jobs/sessions/job.go:30-87 | effect and outcome of a run; after success the names key lists the normalized names of the snapshot just stored |
| SessionsJob.RunReports | internal/jobs/sessions/job.go:31-86 | which failure a run reports under which faults |
| SessionsJob.RunLeaves | internal/jobs/sessions/job.go:44-81 | what stands under each key afterwards: the stamped current sessions, untouched names after a failed snapshot write, all other keys unchanged |
| SessionsJob.PrepareCurrentSessions | internal/jobs/sessions/job.go:92-110 | each identity once, in order of first occurrence, with its last row, stamped and normalized |
| SessionsJob.CurrentIdentities | internal/jobs/sessions/job.go:96-108 | identities are unique and exactly the upstream ones; every row carries the refresh time and its normalized name |
| SessionsJob.CurrentSessions | internal/jobs/sessions/job.go:92-110 | the current sessions are exactly the last rows of the upstream sessions, sameness said on IDs and names, no session twice |
| SessionsJob.NormalizeMeans | internal/infiniteflight/utils.go:5-11 | white space around a name goes, letters become small, spaces become underscores |
| Text.TrimMeans | internal/infiniteflight/utils.go:7 | trimming takes the white space off both ends and leaves the rest |
| Text.AsciiSpaces | internal/infiniteflight/utils.go:7 | the ASCII characters that count as white space |
| Text.LowerMeans | internal/infiniteflight/utils.go:8 | capital letters become their small letters, other characters stay |
| SessionsJob.SessionHistoryIsExact | internal/jobs/sessions/job.go:36-71 | under any faults and expiries, the cached history is exactly the last 50 snapshots stored before the current one since the last reset, in order, each once and flat; a reset is a store that finds no snapshot, cannot read it, finds another value or one without refresh time |
| SessionsJob.UntroubledHistoryIsComplete | internal/jobs/sessions/job.go:54-71 | when every refresh carries a time and the snapshot is never lost, misread or expired, the history is exactly the last 50 of all snapshots stored before |
| Routes.NormalizeRoutePoints | internal/ui/static/js/map/flight-map.mjs:86-117 | the loop computes the thinned route |
| Routes.ValidMeansUsable | internal/ui/static/js/map/flight-map.mjs:64-73 | a waypoint is valid iff both coordinates are numbers, latitude within 90 and longitude within 180 degrees |
| Routes.FarMeansApart | internal/ui/static/js/map/flight-map.mjs:109-113 | two points are far apart iff they differ by more than 0.0001 degrees in latitude or in longitude, either way |
| Routes.ThinnedIsGreedy | internal/ui/static/js/map/flight-map.mjs:89-113 | thinning keeps waypoints on the globe in order with their coordinates and altitude; neighbours kept differ by more than 0.0001 degrees in latitude or longitude, and every other one on the globe lies within that of the last one kept before it, in both |
| Routes.GreedyThinningIsUnique | internal/ui/static/js/map/flight-map.mjs:89-113 | no other selection has these properties |
| Routes.ThinningIsIdempotent | internal/ui/static/js/map/flight-map.mjs:148 | thinning a thinned route changes nothing, so the second normalization in addRoute is idle |
| Routes.SeamsMeetOnTheLine | internal/ui/static/js/map/flight-map.mjs:119-145 | for every crossing pair of valid points the two seam vertices lie on the antimeridian, each on its own point's side, at the latitude where the straight short way from a to b meets it; no latitude exists iff both points lie on the antimeridian with opposite signs; the altitude is that of a |
| Routes.SplitRouteAtAntimeridian | internal/ui/static/js/map/flight-map.mjs:147-177 | the loop computes the segments of the thinned route |
| Routes.SegmentsJoinToRoute | internal/ui/static/js/map/flight-map.mjs:147-177 | one more segment than crossings, each of at least two vertices and without a crossing inside; dropping the seams and joining gives back the route |
| Routes.CrossingsInMean | internal/ui/static/js/map/flight-map.mjs:119-121 | the crossings are, in order, exactly the neighbours more than 180 degrees of longitude apart |
| Routes.SegmentsMeetAtSeams | internal/ui/static/js/map/flight-map.mjs:155-170 | the c-th segment ends and the next one begins at the seam vertices of the c-th crossing |
| Routes.TravelIsConserved | internal/ui/static/js/map/flight-map.mjs:155-170 | signed longitude covered by all segments equals the sum of short-way differences between the route's neighbours |
| RouteLayers.FlightMap.AddRoute | internal/ui/static/js/map/flight-map.mjs:381-583 | the group then holds exactly one polyline per neighbouring pair that does not cross, besides layers stranded earlier; no named path is left, and the map is fitted to a longest segment |
| RouteLayers.FlightMap.AddPath | internal/ui/static/js/map/flight-map.mjs:597-635 | throws iff two neighbours of the thinned route lie on the antimeridian with opposite signs, and strands layers iff moreover the first crossing is no such pair; else the name's layers become the segments of the route; if it throws, the name is gone and exactly the segments before the first undrawable one are stranded; all other layers stay, no layer is in two places |
| RouteLayers.FlightMap.ClearPath | internal/ui/static/js/map/flight-map.mjs:637-641 | exactly the layers of that name leave the group |
| RouteLayers.FlightMap.ClearRoute | internal/ui/static/js/map/flight-map.mjs:588-595 | the anonymous polylines and the named paths are empty, and the group holds exactly the stranded layers |
| RouteLayers.DrawableUnlessJumps | internal/ui/static/js/map/flight-map.mjs:119-177 | every vertex of every segment of a route has a latitude iff no two neighbours lie on the antimeridian with opposite signs |
| RouteLayers.FirstDrawableIff | internal/ui/static/js/map/flight-map.mjs:147-170 | the first segment can be drawn iff no pair on the antimeridian with opposite signs comes before every other crossing |
| RouteLayers.DrawnBeforeRefusedIff | internal/ui/static/js/map/flight-map.mjs:606-621 | drawing up to the first refused segment leaves something behind iff the route has such a pair and its first crossing is none |
| RouteLayers.StrandingRoute | internal/ui/static/js/map/flight-map.mjs:606-621 | a concrete route of which the first segment is drawn and the second refused |
| RouteLayers.WithName | internal/ui/static/js/map/flight-map.mjs:606-621 | adding freshly stamped layers under a free name keeps the group exactly the layers of all lists, none in two places |
| RouteLayers.WithoutName | internal/ui/static/js/map/flight-map.mjs:637-641 | removing one name's layers keeps the group exactly the layers of the remaining lists |
| RouteLayers.PairsDrawn | internal/ui/static/js/map/flight-map.mjs:425-493 | anonymous polylines number the neighbouring pairs minus the crossings |
| RouteLayers.JoinsMean | internal/ui/static/js/map/flight-map.mjs:425-460 | the joined pairs are, in order, exactly the neighbours at most 180 degrees of longitude apart |
| RouteLayers.PairsJoinNeighbours | internal/ui/static/js/map/flight-map.mjs:425-493 | each anonymous polyline is the line from one point to the next of such a pair, one for each, in order |
| Login.TicketRedeemedAtMostOnce | internal/auth/ticket.go:59-72 | in every interleaving no ticket is redeemed twice |
| Login.TicketRedeemedInTime | internal/auth/ticket.go:18-72 | a ticket is redeemed only after its issue, with its issued content, strictly before ten minutes are over |
| Login.SessionCarriesItsTicket | internal/transport/http/ui/handler.go:58-71 | every session creation follows a redemption by the same request; its fields are the issued ticket's user, Discord user, server and name, the event's ID and clock, and seven days of life |
| Login.SessionsMapInjectivelyToTickets | internal/transport/http/ui/handler.go:52-79 | two session creations never come from one ticket |
| Login.AnsweredSessionIsLive | internal/session/service.go:56-66 | Get answers only with a session that was created, not deleted since, and not past its seven days by the answering clock, however long the cache keeps it; it signs in the user of the one ticket issued and redeemed for it |
| Login.Server.Login | internal/transport/http/ui/handler.go:52-79 | redeem, then create, others acting in between; which answer is given when, and what an unsuccessful step leaves behind |
| Login.Server.Consume | internal/auth/ticket.go:59-72 | answers a ticket iff the token opens, the operation does not fail and an unexpired entry exists; the entry is gone then |
| Login.Server.IssueTicket | internal/auth/ticket.go:44-57 | one store with the ten-minute deadline; a token only when it is acknowledged |
| Login.Server.Get | internal/session/service.go:56-66 | answers exactly the readable, stored, unexpired sessions; deletes an expired one, others acting between the read and the delete |
| ApiKeys.AnswersAreFresh | internal/apikeys/lookup.go:45-60 | in every interleaving, with failed reads, failed writes and evictions, a key is granted iff the database listed it as active at some one instant less than one minute plus the largest read-to-write delay ago |
| ApiKeys.UnlistedIsNeverGranted | internal/apikeys/lookup.go:45-60 | a key not listed as active at any instant of that time is granted by no answer |
| ApiKeys.ActiveIsAlwaysGranted | internal/apikeys/lookup.go:45-60 | a key listed as active throughout that time is refused by no answer |
| ApiKeys.StalenessBoundIsTight | internal/apikeys/lookup.go:13-60 | for every delay a run exists that reaches the bound up to one clock tick |
| ApiKeys.Lookups.Active | internal/apikeys/lookup.go:45-60 | every answer of the lookup is the reply of an event of a possible trace, from an unexpired entry its found and active columns; an error iff the database is needed and fails |
| Paging.Paginate | internal/game/flights/paginate.go:3-18 | the window computed with wrapping machine integers; the panic happens iff the start lies in the list and the page length is negative or reaches past the largest integer |
| Paging.PageIsWindowIff | internal/game/flights/paginate.go:7-14 | the page is the intended window iff the computed start is outside the list or the window's end fits 64 bits |
| Paging.PaginateFails | internal/game/flights/paginate.go:7-15 | concrete page numbers and lengths that panic or return the wrong page |
| Paging.OverflowAsksForPageLength | internal/game/flights/paginate.go:11-15 | when the end overflows, the allocated length wraps back to the page length |
| Paging.PagesJoinToList | internal/game/flights/paginate.go:3-18 | pages 1 to the last joined give every item once in order; later pages are empty |
| FlightViews.Handler.LoadFiltered | internal/transport/http/api/gameflights/handler.go:153-218 | errors in the handler's order, else the query's flights in snapshot order and the distinct states in order of first mention; names and snapshot are read at two instants with others acting in between |
| FlightViews.LoadMeans | internal/transport/http/api/gameflights/handler.go:153-218 | which answer is given when, said on the cached names and the cached snapshot: a server loads iff it is listed, or no names are cached, and its snapshot is readable |
| FlightViews.FilteredMeans | internal/transport/http/api/gameflights/handler.go:190-206 | a listed flight is one of the snapshot in an asked state whose user name and call sign contain the asked texts, white space around those and case aside |
| Text.ContainsMeans | internal/game/flights/filter.go:17 | a text contains a part iff the part stands somewhere in it |
| FlightViews.NoFilterKeepsAll | internal/transport/http/api/gameflights/handler.go:190 | skipping the loop when no filter is effective gives what the loop would |
| FlightViews.FilteredCounts | internal/transport/http/api/gameflights/handler.go:192-205 | the filtered list holds each wanted flight as often as the snapshot and nothing else |
| FlightViews.StatesPartition | internal/game/flights/pilotstate.go:28-50 | for snapshots the refresh produces, the four single-state queries partition the stateless one |
| FlightViews.NextNamesStates | internal/game/flights/mapper.go:59 | every flight of a refreshed snapshot carries one of the four state names |
| FlightViews.Handler.GetActiveFlights | internal/transport/http/api/gameflights/handler.go:42-76 | page and length are checked first; the answer is the machine-integer page of the query's flights without nested history, or the panic |
| FlightViews.Handler.GetTrimmedActiveFlights | internal/transport/http/api/gameflights/handler.go:78-113 | markers for all of the query's flights in order, each with that flight's call sign, position and heading, or an error iff one of them cannot be given a token |
| FlightViews.Handler.GetActiveFlight | internal/transport/http/api/gameflights/handler.go:115-144 | the first flight of that ID in the token's server's snapshot, or the matching error; white space around the token is ignored, any other text around it spoils it |
| FlightViews.DetailMeans | internal/transport/http/api/gameflights/handler.go:115-144 | which answer is given when, said on the token and the cached snapshot; the flight found is the first of its ID, without nested history |
| FlightViews.UnpaddedMeans | internal/transport/http/api/gameflights/handler.go:116 | white space around a token does not matter, and anything else around it makes it no token |
| FlightViews.MarkerResolvesToItsFlight | internal/transport/http/api/gameflights/handler.go:78-144 | over any snapshot with unique IDs and no nested histories, resolving a marker's token returns exactly the flight the marker came from |
| FlightViews.MarkersResolveInRuns | internal/transport/http/api/gameflights/handler.go:78-144 | after every run of the refresh under all faults, expiries and foreign writes, each marker of each query that loads resolves to its flight while that snapshot is cached |
| FlightViews.TokensFollowTheirFlight | internal/transport/http/api/gameflights/handler.go:115-144 | after every run a token resolves to the flight of its ID in the snapshot stored last, and to nothing iff that snapshot does not list it |
| FlightViews.RefreshedSnapshotIsResolvable | internal/jobs/flights/job.go:89-97 | every snapshot a refresh stores meets the premises of the marker round trip |
| FlightViews.PagesMatchMarkers | internal/transport/http/api/gameflights/handler.go:57-102 | the joined pages of a query are the flights its markers stand for, in order |
| RateLimit.MinuteIsLimited | internal/transport/http/middleware/ratelimit.go:40-58 | exactly the first `limit` counted requests of a caller's minute are within the limit, however others interleave |
| RateLimit.LastServedMeans | internal/transport/http/middleware/ratelimit.go:42-57 | a request is let through iff its count fails or its caller has made no more than `limit` counted requests in its minute |
| RateLimit.WindowIsLimited | internal/transport/http/middleware/ratelimit.go:40-58 | of the requests that read the clock in any 60 seconds at most twice the limit get through, at most the limit in a minute of the clock, besides those whose count fails |
| RateLimit.PassageIsLimited | internal/transport/http/middleware/ratelimit.go:40-58 | of the requests counted in any 60 seconds at most three times the limit get through, at most twice where no three minutes meet, besides those whose count fails |
| RateLimit.WindowBoundIsReached | internal/transport/http/middleware/ratelimit.go:40-58 | for every limit and every window that is no minute of the clock, some run lets twice the limit through |
| RateLimit.PassageBoundIsReached | internal/transport/http/middleware/ratelimit.go:40-58 | for every limit and every window in which three minutes meet, some run lets three times the limit through |
| RateLimit.WindowLimitedIff | internal/transport/http/middleware/ratelimit.go:40-58 | on clock readings the limit holds in all runs iff the window is a minute of the clock |
| RateLimit.PassageLimitedIff | internal/transport/http/middleware/ratelimit.go:40-58 | counted as they pass, twice the limit holds in all runs iff the window starts in the first minute, at a whole minute or at the last instant of one |
| RateLimit.PassageWithinLimitIff | internal/transport/http/middleware/ratelimit.go:40-58 | counted as they pass, the limit itself holds in all runs iff the window starts at instant 0 |
| RateLimit.CounterCountsAll | internal/transport/http/middleware/ratelimit.go:42-43 | a minute's counter cannot expire while requests of that minute still arrive |
| RateLimit.CounterKeyInjective | internal/transport/http/middleware/ratelimit.go:42 | for colon-free groups, counters are shared only by the same group, caller and minute |
| RateLimit.RetryAfterInRange | internal/transport/http/middleware/ratelimit.go:41-51 | the advice is 1 to 60 seconds iff the clock is from 1970 on or at a whole minute; waiting it out leads to the next bucket |
| RateLimit.Limiter.Handle | internal/transport/http/middleware/ratelimit.go:40-58 | served iff the count fails or is within the limit; otherwise an advice in range |
| RateLimit.Pass | internal/transport/http/middleware/ratelimit.go:34-58 | without a limiter every request is let through; with one, as its count says |

## Left out

- Redis, PostgreSQL, HTTP, the cron library, metrics and logging; a cache, a database history and upstream lists stand in for them.
- FlightNames.NextIsLastRow: does not model rounding of telemetry, number formatting and time parsing in MapFlight; those fields arrive rounded and parsed, and fields that are only copied or spelled out (user, aircraft and organization IDs, the normalized texts) are left out.
- Cache.Store.SetJSON: the TTL argument is not modelled; any entry may expire at any step of a run.
- JSON encoding is value-preserving; a value of the wrong shape reads as an error.
- AES-GCM and base64: tokens are sealed boxes that open to what was sealed, other text does not open; random IDs are a supply of fresh ones.
- SessionsJob.PrepareCurrentSessions: letters change case only within ASCII, where Go follows Unicode's tables; white space is Unicode's.
- FlightViews.Handler.LoadFiltered: its text filters fold case only within ASCII, likewise.
- FlightHistory.HistoryIsExact: starts from a cache without flight data; legacy snapshots with nested histories are handled by the refresh but not by this theorem.
- FlightsJob.Job.RefreshSession: expiries and other jobs act before each server's refresh, not within it; a livery written or expiring between two rows of one server is not modelled. Faults are fixed per key meanwhile, which loses nothing since a refresh reads and writes each key at most once.
- Login.Server.Get: cookies, claims and the redirect pages around it are not modelled.
- ApiKeys.Lookups.Active: the database is a function of time and key; its own errors end the lookup.
- RateLimit.CounterCountsAll: the counter backend is only an interface in the source, so its expiry is taken to run from the first increment; less than a minute is taken to pass between reading the clock and counting.
- RouteLayers.FlightMap.AddRoute: colours, line styles, console output and the map library's drawing are left out; layers are told apart by the stamp the library gives them. The map is taken to be initialized.
- Geometry is over real numbers; floating-point rounding is not modelled.
- Flight markers, page polling, templates, configuration, role checks, CORS and health endpoints.
