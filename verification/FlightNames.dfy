/** What a refresh stores for one flight, and what becomes of aircraft and livery names over whole runs. */
module FlightNames {
  import opened Sequences
  import opened Keys
  import opened GameData
  import opened Cache
  import opened FlightMapper
  import opened Liveries
  import opened FlightsJob
  import opened FlightRuns

  // ----- One refresh

  /** The livery that row `i` is mapped with: read from the cache or remembered from an earlier row or
      server of the same run. */
  function LiveryOfRow(refresh: Refresh, entries: Entries, i: nat): Option<Livery>
    requires refresh.upstream.Some? && i < |refresh.upstream.value|
  {
    var rows := refresh.upstream.value;
    var before := MapFlights(entries, refresh.faults, refresh.memo, refresh.session, rows[..i], refresh.Existing(entries), refresh.at);
    Recall(before.memo, ReadLivery(entries, refresh.faults, rows[i].liveryID), rows[i].liveryID).answer
  }

  /** Row `i` mapped by itself. */
  function MappedRow(refresh: Refresh, entries: Entries, i: nat): Flight
    requires refresh.upstream.Some? && i < |refresh.upstream.value|
  {
    var row := refresh.upstream.value[i];
    MapFlight(row, refresh.session, LiveryOfRow(refresh, entries, i), Lookup(refresh.Existing(entries), row.flightID), refresh.at)
  }

  lemma {:induction false} MappedAt(refresh: Refresh, entries: Entries, n: nat, i: nat)
    requires refresh.upstream.Some? && i < n <= |refresh.upstream.value|
    ensures var mapped := MapFlights(entries, refresh.faults, refresh.memo, refresh.session, refresh.upstream.value[..n],
                                     refresh.Existing(entries), refresh.at).flights;
            |mapped| == n && mapped[i] == MappedRow(refresh, entries, i)
  {
    var rows := refresh.upstream.value;
    assert rows[..n][..n - 1] == rows[..n - 1];
    if i < n - 1 {
      MappedAt(refresh, entries, n - 1, i);
    }
  }

  ghost predicate LastRow(rows: seq<UpstreamFlight>, i: nat) {
    i < |rows| && forall j :: i < j < |rows| ==> rows[j].flightID != rows[i].flightID
  }

  lemma LastMapped(refresh: Refresh, entries: Entries, i: nat)
    requires refresh.upstream.Some? && LastRow(refresh.upstream.value, i)
    ensures Lookup(refresh.Mapped(entries).flights, refresh.upstream.value[i].flightID) == Some(MappedRow(refresh, entries, i))
  {
    var rows, mapped := refresh.upstream.value, refresh.Mapped(entries).flights;
    assert rows[..|rows|] == rows;
    MappedAt(refresh, entries, |rows|, i);
    forall j | i < j < |mapped|
      ensures mapped[j].flightID != mapped[i].flightID
    {
      assert IDs(mapped)[j] == rows[j].flightID;
    }
    LookupIsLast(mapped, i);
  }

  /** The snapshot holds, for each upstream ID, the flight mapped from the last row of that ID alone: no
      earlier row, no other flight of the prior snapshot and no second merge leaves a trace in it. */
  lemma NextIsLastRow(refresh: Refresh, entries: Entries, i: nat)
    requires refresh.upstream.Some? && LastRow(refresh.upstream.value, i)
    ensures Lookup(refresh.Next(entries), refresh.upstream.value[i].flightID) == Some(MappedRow(refresh, entries, i))
  {
    var row := refresh.upstream.value[i];
    LastMapped(refresh, entries, i);
    UpsertLookup(refresh.Existing(entries), refresh.Mapped(entries).flights, row.flightID);
    SecondMergeIsIdle(refresh.Existing(entries), row, refresh.session, LiveryOfRow(refresh, entries, i), refresh.at);
  }

  /** The snapshot of `server` as a refresh with these faults can read it. */
  function Readable(entries: Entries, faults: Faults, server: string): seq<Flight> {
    var key := ActiveFlights(server);
    if key in entries && key !in faults.failedReads && entries[key].FlightsValue? then entries[key].flights.result else []
  }

  /** Each stored flight field by field: the last upstream row of its ID, the server it was refreshed for,
      and names from the livery, else from the prior flight of that ID, else empty. */
  lemma StoredFields(refresh: Refresh, entries: Entries, i: nat)
    requires refresh.upstream.Some? && LastRow(refresh.upstream.value, i)
    ensures var u, livery := refresh.upstream.value[i], LiveryOfRow(refresh, entries, i);
            var prior := Lookup(Readable(entries, refresh.faults, refresh.session.normalizedName), u.flightID);
            var stored := Lookup(refresh.Next(entries), u.flightID);
            && stored.Some?
            && StoresRow(stored.value, u, refresh.at)
            && stored.value.sessionID == refresh.session.id && stored.value.server == refresh.session.normalizedName
            && stored.value.aircraftName ==
               (if livery.Some? && livery.value.aircraftName != "" then livery.value.aircraftName
                else if prior.Some? then prior.value.aircraftName else "")
            && stored.value.liveryName ==
               (if livery.Some? && livery.value.liveryName != "" then livery.value.liveryName
                else if prior.Some? then prior.value.liveryName else "")
  {
    NextIsLastRow(refresh, entries, i);
    assert refresh.Existing(entries) == Readable(entries, refresh.faults, refresh.session.normalizedName);
  }

  /** What a stored flight takes over from its upstream row. */
  predicate StoresRow(flight: Flight, u: UpstreamFlight, at: int) {
    && flight.flightID == u.flightID && flight.liveryID == u.liveryID
    && flight.username == u.username && flight.callsign == u.callsign
    && flight.telemetry == u.telemetry && flight.isConnected == u.isConnected
    && (u.lastReport.Some? ==> flight.lastReport == u.lastReport.value)
    && (u.lastReport.None? ==> flight.lastReport == at)
    && flight.pilotState == u.pilotState
    && (u.pilotState == 1 ==> flight.pilotStateName == "away_in_flight")
    && (u.pilotState == 2 ==> flight.pilotStateName == "away_parked")
    && (u.pilotState == 3 ==> flight.pilotStateName == "in_background")
    && (u.pilotState !in {1, 2, 3} ==> flight.pilotStateName == "active")
    && flight.pathSync == Some(false) && flight.history == []
  }

  /** A name is stored empty exactly when neither the livery nor the prior observation gives one. */
  lemma NameEmptyIff(refresh: Refresh, entries: Entries, i: nat)
    requires refresh.upstream.Some? && LastRow(refresh.upstream.value, i)
    ensures var f := refresh.upstream.value[i].flightID;
            var next, prior, livery := Lookup(refresh.Next(entries), f), Lookup(refresh.Existing(entries), f), LiveryOfRow(refresh, entries, i);
            && next.Some?
            && (next.value.aircraftName == "" <==>
                (livery.Some? ==> livery.value.aircraftName == "") && (prior.Some? ==> prior.value.aircraftName == ""))
            && (next.value.liveryName == "" <==>
                (livery.Some? ==> livery.value.liveryName == "") && (prior.Some? ==> prior.value.liveryName == ""))
  {
    NextIsLastRow(refresh, entries, i);
  }

  // ----- Runs

  predicate ReadsSnapshot(refresh: Refresh, entries: Entries) {
    ActiveFlights(refresh.session.normalizedName) in entries
    && ActiveFlights(refresh.session.normalizedName) !in refresh.faults.failedReads
  }

  /** For each stored snapshot of `server`, whether its refresh could read a snapshot. */
  function StoreReads(start: Entries, steps: seq<Step>, server: string): (r: seq<bool>)
    ensures |r| == |Stored(start, steps, server)|
  {
    if steps == [] then []
    else
      var before, step := steps[..|steps| - 1], steps[|steps| - 1];
      if Stores(step, server)
      then StoreReads(start, before, server) + [ReadsSnapshot(step.refresh, Replay(start, before))]
      else StoreReads(start, before, server)
  }

  /** `next`, stored after `existing`, keeps the names of `f` if `f` is in both. */
  ghost predicate KeptAfter(existing: seq<Flight>, next: seq<Flight>, f: string) {
    Lookup(existing, f).Some? && Lookup(next, f).Some? ==> NamesKept(Lookup(existing, f).value, Lookup(next, f).value)
  }

  ghost predicate KeptNext(log: seq<seq<Flight>>, f: string, k: nat)
    requires k + 1 < |log|
  {
    KeptAfter(log[k], log[k + 1], f)
  }

  ghost predicate KeptWhereRead(log: seq<seq<Flight>>, hits: seq<bool>, f: string)
    requires |hits| == |log|
  {
    forall k: nat :: k + 1 < |log| && hits[k + 1] ==> KeptNext(log, f, k)
  }

  lemma KeptWhereReadSnoc(log: seq<seq<Flight>>, hits: seq<bool>, last: seq<Flight>, next: seq<Flight>, read: bool, f: string)
    requires |hits| == |log| && KeptWhereRead(log, hits, f)
    requires (log != [] ==> last == log[|log| - 1]) && (read ==> KeptAfter(last, next, f))
    ensures KeptWhereRead(log + [next], hits + [read], f)
  {
    forall k: nat | k + 1 < |log + [next]| && (hits + [read])[k + 1]
      ensures KeptNext(log + [next], f, k)
    {
      if k + 1 < |log| {
        assert KeptNext(log, f, k);
      }
    }
  }

  lemma RefreshKeepsNames(refresh: Refresh, entries: Entries, f: string)
    requires refresh.upstream.Some?
    ensures KeptAfter(refresh.Existing(entries), refresh.Next(entries), f)
  {
    if Lookup(refresh.Existing(entries), f).Some? && Lookup(refresh.Next(entries), f).Some? {
      UpsertKeepsNames(refresh.Existing(entries), refresh.Mapped(entries).flights, f);
    }
  }

  /** A refresh that could read a snapshot read the one stored last. */
  lemma ReadExisting(start: Entries, before: seq<Step>, refresh: Refresh, server: string)
    requires NoFlightData(start) && AllLawful(before)
    requires refresh.session.normalizedName == server && ReadsSnapshot(refresh, Replay(start, before))
    ensures refresh.Existing(Replay(start, before)) == LastStored(start, before, server)
  {
    SnapshotIsLastStored(start, before, server);
  }

  lemma {:induction false} StoresKeepNames(start: Entries, steps: seq<Step>, server: string, f: string)
    requires NoFlightData(start) && AllLawful(steps)
    ensures KeptWhereRead(Stored(start, steps, server), StoreReads(start, steps, server), f)
  {
    if steps != [] {
      var before, step := steps[..|steps| - 1], steps[|steps| - 1];
      StoresKeepNames(start, before, server, f);
      if Stores(step, server) {
        StoreKeepsNames(start, before, step.refresh, server, f, Stored(start, before, server), StoreReads(start, before, server),
                        step.refresh.Next(Replay(start, before)), ReadsSnapshot(step.refresh, Replay(start, before)));
      }
    }
  }

  lemma ReadKeepsNames(start: Entries, before: seq<Step>, refresh: Refresh, server: string, f: string)
    requires NoFlightData(start) && AllLawful(before) && refresh.upstream.Some?
    requires refresh.session.normalizedName == server && ReadsSnapshot(refresh, Replay(start, before))
    ensures KeptAfter(LastStored(start, before, server), refresh.Next(Replay(start, before)), f)
  {
    ReadExisting(start, before, refresh, server);
    RefreshKeepsNames(refresh, Replay(start, before), f);
  }

  lemma StoreKeepsNames(start: Entries, before: seq<Step>, refresh: Refresh, server: string, f: string,
                        log: seq<seq<Flight>>, hits: seq<bool>, next: seq<Flight>, read: bool)
    requires NoFlightData(start) && AllLawful(before)
    requires refresh.upstream.Some? && refresh.session.normalizedName == server
    requires next == refresh.Next(Replay(start, before)) && read == ReadsSnapshot(refresh, Replay(start, before))
    requires log == Stored(start, before, server) && |hits| == |log| && KeptWhereRead(log, hits, f)
    ensures KeptWhereRead(log + [next], hits + [read], f)
  {
    if read {
      ReadKeepsNames(start, before, refresh, server, f);
    }
    KeptWhereReadSnoc(log, hits, LastStored(start, before, server), next, read, f);
  }

  lemma {:induction false} NamesKeptAlong(log: seq<seq<Flight>>, f: string, i: nat, j: nat)
    requires i <= j < |log| && forall k :: i <= k <= j ==> Present(log, f, k)
    requires forall k :: i <= k < j ==> KeptNext(log, f, k)
    ensures Present(log, f, i) && Present(log, f, j) && NamesKept(Lookup(log[i], f).value, Lookup(log[j], f).value)
  {
    if i < j {
      NamesKeptAlong(log, f, i, j - 1);
      assert Present(log, f, j - 1) && Present(log, f, j) && KeptNext(log, f, j - 1);
    }
  }

  /** While a flight stays in consecutive stored snapshots, and each of their refreshes after the first
      could read its predecessor, its aircraft and livery names never go from non-empty back to empty,
      whatever duplicates, livery misses and other faults the run met. */
  lemma NamesStick(start: Entries, steps: seq<Step>, server: string, f: string, i: nat, j: nat)
    requires NoFlightData(start) && AllLawful(steps)
    requires var log := Stored(start, steps, server);
             i <= j < |log| && forall k :: i <= k <= j ==> Present(log, f, k)
    requires forall k :: i < k <= j ==> StoreReads(start, steps, server)[k]
    ensures var log := Stored(start, steps, server);
            Present(log, f, i) && Present(log, f, j) && NamesKept(Lookup(log[i], f).value, Lookup(log[j], f).value)
  {
    var log, hits := Stored(start, steps, server), StoreReads(start, steps, server);
    StoresKeepNames(start, steps, server, f);
    forall k: nat | i <= k < j
      ensures KeptNext(log, f, k)
    {
      assert hits[k + 1];
    }
    NamesKeptAlong(log, f, i, j);
  }
}
