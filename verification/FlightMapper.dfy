/** Mapping upstream flights and folding them into a snapshot (internal/game/flights/mapper.go,
    internal/game/flights/pilotstate.go). */
module FlightMapper {
  import opened Sequences
  import opened GameData
  import opened Dedup

  function NameForPilotState(code: int): string {
    match code
    case 0 => "active"
    case 1 => "away_in_flight"
    case 2 => "away_parked"
    case 3 => "in_background"
    case _ => "active"
  }

  function ParsePilotStateName(name: string): Option<string> {
    if name == "active" || name == "away_in_flight" || name == "away_parked" || name == "in_background"
    then Some(name)
    else None
  }

  function NameOr(name: string, fallback: string): string {
    if name == "" then fallback else name
  }

  function MapFlight(upstream: UpstreamFlight, session: GameSession, livery: Option<Livery>,
                     existing: Option<Flight>, fallbackReport: int): Flight
  {
    var aircraftName := if livery.Some? then livery.value.aircraftName else "";
    var liveryName := if livery.Some? then livery.value.liveryName else "";
    Flight(
      upstream.flightID, upstream.liveryID, upstream.username, upstream.callsign,
      upstream.telemetry,
      if upstream.lastReport.Some? then upstream.lastReport.value else fallbackReport,
      upstream.pilotState, NameForPilotState(upstream.pilotState), upstream.isConnected,
      if existing.Some? then NameOr(aircraftName, existing.value.aircraftName) else aircraftName,
      if existing.Some? then NameOr(liveryName, existing.value.liveryName) else liveryName,
      session.id, session.normalizedName, Some(false), [])
  }

  function MergeNames(current: Flight, prior: Flight): Flight {
    current.(aircraftName := NameOr(current.aircraftName, prior.aircraftName),
             liveryName := NameOr(current.liveryName, prior.liveryName))
  }

  /** A flight as it enters history: no nested history, no pathSync. */
  function Stripped(flight: Flight): Flight {
    flight.(history := [], pathSync := None)
  }

  function NextHistory(existing: seq<Flight>, prior: Flight): seq<Flight> {
    LastN(existing + [Stripped(prior)], MAX_HISTORY)
  }

  function IDs(flights: seq<Flight>): (r: seq<string>)
    ensures |r| == |flights|
    ensures forall i :: 0 <= i < |r| ==> r[i] == flights[i].flightID
  {
    seq(|flights|, i requires 0 <= i < |flights| => flights[i].flightID)
  }

  /** The flight listed under `id`; the last one if several are. */
  function Lookup(flights: seq<Flight>, id: string): (r: Option<Flight>)
    ensures r.Some? <==> id in IDs(flights)
    ensures r.Some? ==> r.value.flightID == id && r.value in flights
  {
    if id in IDs(flights) then Some(flights[LastIndex(IDs(flights), id)]) else None
  }

  /** Of several flights of one ID, the last one answers. */
  lemma LookupIsLast(flights: seq<Flight>, i: nat)
    requires i < |flights| && forall j :: i < j < |flights| ==> flights[j].flightID != flights[i].flightID
    ensures Lookup(flights, flights[i].flightID) == Some(flights[i])
  {
    assert IDs(flights)[i] == flights[i].flightID;
  }

  /** `index` answers exactly what `Lookup` does. */
  ghost predicate Indexes(index: map<string, Flight>, flights: seq<Flight>) {
    && (forall id :: id in index <==> id in IDs(flights))
    && (forall id :: id in index ==> Some(index[id]) == Lookup(flights, id))
  }

  method IndexByID(flights: seq<Flight>) returns (index: map<string, Flight>)
    ensures Indexes(index, flights)
  {
    index := map[];
    for i := 0 to |flights|
      invariant Indexes(index, flights[..i])
    {
      LookupSnoc(flights[..i], flights[i]);
      assert flights[..i + 1] == flights[..i] + [flights[i]];
      index := index[flights[i].flightID := flights[i]];
    }
    assert flights[..|flights|] == flights;
  }

  lemma LookupSnoc(flights: seq<Flight>, flight: Flight)
    ensures IDs(flights + [flight]) == IDs(flights) + [flight.flightID]
    ensures forall id :: Lookup(flights + [flight], id) ==
                         if id == flight.flightID then Some(flight) else Lookup(flights, id)
  {
    assert IDs(flights + [flight]) == IDs(flights) + [flight.flightID];
    forall id
      ensures Lookup(flights + [flight], id) ==
              if id == flight.flightID then Some(flight) else Lookup(flights, id)
    {
      if id in IDs(flights) + [flight.flightID] {
        LastIndexSnoc(IDs(flights), flight.flightID, id);
      }
    }
  }

  /** What one mapped flight becomes in the snapshot, whatever its duplicates. */
  function Merged(existing: seq<Flight>, current: Flight): Flight {
    var prior := Lookup(existing, current.flightID);
    (if prior.Some? then MergeNames(current, prior.value) else current).(history := [])
  }

  function MergedAll(existing: seq<Flight>, mapped: seq<Flight>): (r: seq<Flight>)
    ensures |r| == |mapped|
    ensures forall i :: 0 <= i < |r| ==> r[i] == Merged(existing, mapped[i])
  {
    seq(|mapped|, i requires 0 <= i < |mapped| => Merged(existing, mapped[i]))
  }

  /** The snapshot a refresh stores: order of first occurrence upstream, value of last occurrence. */
  function Upsert(existing: seq<Flight>, mapped: seq<Flight>): seq<Flight> {
    LastByFirst(IDs(mapped), MergedAll(existing, mapped))
  }

  method UpsertFlights(existing: seq<Flight>, mapped: seq<Flight>) returns (result: seq<Flight>)
    ensures result == Upsert(existing, mapped)
  {
    var index := IndexByID(existing);
    result := [];
    var seen: map<string, nat> := map[];
    for i := 0 to |mapped|
      invariant result == Upsert(existing, mapped[..i])
      invariant PointsAtOwnEntry(seen, IDs(mapped[..i]))
    {
      var current := mapped[i];
      if current.flightID in index {
        current := MergeNames(current, index[current.flightID]);
      }
      current := current.(history := []);
      UpsertSnoc(existing, mapped, i, seen);
      if current.flightID in seen {
        result := result[seen[current.flightID] := current];
      } else {
        seen := seen[current.flightID := |result|];
        result := result + [current];
      }
    }
    assert mapped[..|mapped|] == mapped;
  }

  /** One turn of the loop: what the new row does to the snapshot and to the index. */
  lemma UpsertSnoc(existing: seq<Flight>, mapped: seq<Flight>, i: nat, seen: map<string, nat>)
    requires i < |mapped|
    requires PointsAtOwnEntry(seen, IDs(mapped[..i]))
    ensures |Upsert(existing, mapped[..i])| == |FirstKeys(IDs(mapped[..i]))|
    ensures var id := mapped[i].flightID;
            var before := Upsert(existing, mapped[..i]);
            && PointsAtOwnEntry(if id in seen then seen else seen[id := |before|], IDs(mapped[..i + 1]))
            && Upsert(existing, mapped[..i + 1]) ==
               if id in seen then before[seen[id] := Merged(existing, mapped[i])]
               else before + [Merged(existing, mapped[i])]
  {
    var keys, id, item := IDs(mapped[..i]), mapped[i].flightID, Merged(existing, mapped[i]);
    assert IDs(mapped[..i + 1]) == keys + [id];
    assert MergedAll(existing, mapped[..i + 1]) == MergedAll(existing, mapped[..i]) + [item];
    LastByFirstSnoc(keys, MergedAll(existing, mapped[..i]), id, item, if id in seen then seen[id] else 0);
    IndexSnoc(seen, keys, id);
  }

  /** Identities of the new snapshot: unique, in first-occurrence order, exactly the upstream ones, so
      nothing absent upstream survives. */
  lemma UpsertIdentities(existing: seq<Flight>, mapped: seq<Flight>)
    ensures IDs(Upsert(existing, mapped)) == FirstKeys(IDs(mapped))
    ensures Distinct(IDs(Upsert(existing, mapped)))
    ensures forall id :: id in IDs(Upsert(existing, mapped)) <==> id in IDs(mapped)
    ensures forall f :: f in Upsert(existing, mapped) ==> f.history == []
  {
    assert IDs(Upsert(existing, mapped)) == FirstKeys(IDs(mapped));
  }

  lemma DistinctLookup(flights: seq<Flight>, i: nat)
    requires Distinct(IDs(flights)) && i < |flights|
    ensures Lookup(flights, flights[i].flightID) == Some(flights[i])
  {
    var ids := IDs(flights);
    assert ids[LastIndex(ids, ids[i])] == ids[i];
  }

  /** Under each identity stands the last upstream row of that identity, names filled from the prior
      snapshot. */
  lemma UpsertLookup(existing: seq<Flight>, mapped: seq<Flight>, id: string)
    ensures Lookup(Upsert(existing, mapped), id) ==
            match Lookup(mapped, id)
            case None => None
            case Some(current) => Some(Merged(existing, current))
  {
    UpsertIdentities(existing, mapped);
    var result := Upsert(existing, mapped);
    if id in IDs(mapped) {
      var i :| 0 <= i < |result| && IDs(result)[i] == id;
      DistinctLookup(result, i);
    }
  }

  /** MapFlight already took the prior names over: the second merge never changes a flight the job
      mapped, duplicates in the prior snapshot or not. */
  lemma SecondMergeIsIdle(existing: seq<Flight>, upstream: UpstreamFlight, session: GameSession,
                          livery: Option<Livery>, at: int)
    ensures var mapped := MapFlight(upstream, session, livery, Lookup(existing, upstream.flightID), at);
            Merged(existing, mapped) == mapped
  {
  }

  predicate NamesKept(before: Flight, after: Flight) {
    && (before.aircraftName != "" ==> after.aircraftName != "")
    && (before.liveryName != "" ==> after.liveryName != "")
  }

  /** A flight in both the prior and the new snapshot keeps its names non-empty, whatever the upstream
      duplicates say and whichever liveries were found. */
  lemma UpsertKeepsNames(existing: seq<Flight>, mapped: seq<Flight>, id: string)
    requires Lookup(existing, id).Some? && Lookup(Upsert(existing, mapped), id).Some?
    ensures NamesKept(Lookup(existing, id).value, Lookup(Upsert(existing, mapped), id).value)
  {
    UpsertLookup(existing, mapped, id);
  }
}
