/** The flights refresh (internal/jobs/flights/job.go).

    The functions say what one refresh does to the cache; the methods of `Job` do it step by step in
    the source's order and are proved to have exactly that effect, under every choice of faults. */
module FlightsJob {
  import opened Sequences
  import opened Keys
  import opened GameData
  import opened Cache
  import opened FlightMapper
  import opened Liveries

  // ----- Effect of the steps

  /** The prior snapshot as the refresh sees it: any failed read counts as empty. */
  function ExistingFlights(entries: Entries, faults: Faults, server: string): seq<Flight> {
    match DecodeFlights(ReadFrom(entries, faults, ActiveFlights(server)))
    case Hit(snapshot) => snapshot.result
    case _ => []
  }

  /** The stored history, or on any failed read the history nested in the prior flight. */
  function LoadedHistory(entries: Entries, faults: Faults, flightID: string, prior: Flight): seq<Flight> {
    match DecodeHistory(ReadFrom(entries, faults, FlightHistory(flightID)))
    case Hit(history) => history
    case _ => prior.history
  }

  function WithHistory(entries: Entries, faults: Faults, existing: seq<Flight>, id: string): Entries {
    if id == "" || Lookup(existing, id).None? then entries
    else
      var prior := Lookup(existing, id).value;
      WriteTo(entries, faults, FlightHistory(id), HistoryValue(NextHistory(LoadedHistory(entries, faults, id, prior), prior)))
  }

  function WithHistories(entries: Entries, faults: Faults, existing: seq<Flight>, ids: seq<string>): Entries {
    if ids == [] then entries
    else WithHistory(WithHistories(entries, faults, existing, ids[..|ids| - 1]), faults, existing, ids[|ids| - 1])
  }

  lemma WithHistoriesSnoc(entries: Entries, faults: Faults, existing: seq<Flight>, ids: seq<string>, i: nat)
    requires i < |ids|
    ensures WithHistories(entries, faults, existing, ids[..i + 1]) ==
            WithHistory(WithHistories(entries, faults, existing, ids[..i]), faults, existing, ids[i])
  {
    assert ids[..i + 1][..i] == ids[..i];
  }

  datatype Mapping = Mapping(flights: seq<Flight>, memo: Memo)

  function MapFlights(entries: Entries, faults: Faults, memo: Memo, session: GameSession,
                      upstream: seq<UpstreamFlight>, existing: seq<Flight>, at: int): (r: Mapping)
    ensures IDs(r.flights) == seq(|upstream|, i requires 0 <= i < |upstream| => upstream[i].flightID)
    ensures forall f :: f in r.flights ==> f.history == []
  {
    if upstream == [] then Mapping([], memo)
    else
      var before := MapFlights(entries, faults, memo, session, upstream[..|upstream| - 1], existing, at);
      var item := upstream[|upstream| - 1];
      var looked := Recall(before.memo, ReadLivery(entries, faults, item.liveryID), item.liveryID);
      Mapping(before.flights + [MapFlight(item, session, looked.answer, Lookup(existing, item.flightID), at)], looked.memo)
  }

  datatype Outcome = Refreshed(count: nat) | FetchFailed | CacheFailed

  /** What the refresh of one server works with. */
  datatype Refresh = Refresh(
    session: GameSession, upstream: Option<seq<UpstreamFlight>>, memo: Memo, at: int, faults: Faults)
  {
    function Existing(entries: Entries): seq<Flight> {
      ExistingFlights(entries, faults, session.normalizedName)
    }

    function Mapped(entries: Entries): Mapping
      requires upstream.Some?
    {
      MapFlights(entries, faults, memo, session, upstream.value, Existing(entries), at)
    }

    /** The snapshot this refresh tries to store. */
    function Next(entries: Entries): seq<Flight>
      requires upstream.Some?
    {
      Upsert(Existing(entries), Mapped(entries).flights)
    }

    /** Histories first, the snapshot last. */
    function Effect(entries: Entries): Entries {
      if upstream.None? then entries
      else
        WriteTo(
          WithHistories(entries, faults, Existing(entries), IDs(Next(entries))),
          faults, ActiveFlights(session.normalizedName), FlightsValue(FlightsSnapshot(Next(entries), at)))
    }

    function MemoAfterwards(entries: Entries): Memo {
      if upstream.None? then memo else Mapped(entries).memo
    }

    function Result(entries: Entries): Outcome {
      if upstream.None? then FetchFailed
      else if Acknowledged(faults, ActiveFlights(session.normalizedName)) then Refreshed(|Next(entries)|)
      else CacheFailed
    }
  }

  // ----- Effect of a whole run

  /** What the world does around the refresh of one server: which entries expire and which other entries
      are written just before it, what upstream answers, and which operations fail. */
  datatype Conditions = Conditions(
    expired: set<CacheKey>, written: Entries, upstream: Option<seq<UpstreamFlight>>, faults: Faults)

  datatype Progress = Progress(entries: Entries, memo: Memo)

  function RefreshOf(session: GameSession, memo: Memo, at: int, during: Conditions): Refresh {
    Refresh(session, during.upstream, memo, at, during.faults)
  }

  /** The refresh of one server in a run. */
  function Advance(p: Progress, session: GameSession, at: int, during: Conditions): Progress {
    var refresh := RefreshOf(session, p.memo, at, during);
    var entries := Meanwhile(p.entries, during.expired, during.written);
    Progress(refresh.Effect(entries), refresh.MemoAfterwards(entries))
  }

  /** The first `n` sessions refreshed one after the other, with one livery memo for all. */
  function RefreshAll(entries: Entries, sessions: seq<GameSession>, at: int, world: nat -> Conditions, n: nat): Progress
    requires n <= |sessions|
  {
    if n == 0 then Progress(entries, map[])
    else
      var p := RefreshAll(entries, sessions, at, world, n - 1);
      if sessions[n - 1].id == "" || sessions[n - 1].normalizedName == "" then p
      else Advance(p, sessions[n - 1], at, world(n - 1))
  }

  /** How far a run has got before each of its sessions. */
  function ProgressOf(entries: Entries, sessions: seq<GameSession>, at: int, world: nat -> Conditions): nat -> Progress {
    (n: nat) => if n <= |sessions| then RefreshAll(entries, sessions, at, world, n) else Progress(map[], map[])
  }

  /** The sessions a run refreshes: none when the sessions snapshot cannot be read. */
  function SessionsToRefresh(entries: Entries, faults: Faults): seq<GameSession> {
    match DecodeSessions(ReadFrom(entries, faults, ActiveSessions))
    case Hit(snapshot) => snapshot.result
    case _ => []
  }

  function RunEffect(entries: Entries, start: Faults, at: int, world: nat -> Conditions): Entries {
    var sessions := SessionsToRefresh(entries, start);
    RefreshAll(entries, sessions, at, world, |sessions|).entries
  }

  // ----- The job

  class Job {
    const cache: Store

    constructor (cache: Store)
      ensures this.cache == cache
    {
      this.cache := cache;
    }

    method Run(at: int, world: nat -> Conditions)
      modifies cache
      ensures cache.entries == RunEffect(old(cache.entries), old(cache.faults), at, world)
      ensures (ActiveSessions !in old(cache.entries) || ActiveSessions in old(cache.faults).failedReads
               || !old(cache.entries)[ActiveSessions].SessionsValue?) ==> cache.entries == old(cache.entries)
    {
      var r := cache.GetJSON(ActiveSessions);
      var snapshot := DecodeSessions(r);
      if !snapshot.Hit? {
        return;
      }
      if |snapshot.value.result| == 0 {
        return;
      }
      var sessions := snapshot.value.result;
      var liveries := new RunMemo();
      for i := 0 to |sessions|
        invariant Progress(cache.entries, liveries.known) == RefreshAll(old(cache.entries), sessions, at, world, i)
        invariant fresh(liveries)
      {
        if sessions[i].id == "" || sessions[i].normalizedName == "" {
          continue;
        }
        RefreshDuring(sessions[i], world(i), liveries, at);
      }
    }

    /** The call of refreshSession inside Run, and what the world does around it. */
    method RefreshDuring(session: GameSession, during: Conditions, liveries: RunMemo, at: int)
      modifies cache, liveries
      ensures Progress(cache.entries, liveries.known) == Advance(Progress(old(cache.entries), old(liveries.known)), session, at, during)
    {
      cache.OthersAct(during.expired, during.written);
      cache.SetConditions(during.faults);
      var _ := RefreshSession(session, during.upstream, liveries, at);
    }

    method RefreshSession(session: GameSession, upstream: Option<seq<UpstreamFlight>>, liveries: RunMemo, at: int)
      returns (outcome: Outcome)
      modifies cache`entries, liveries
      ensures var refresh := Refresh(session, upstream, old(liveries.known), at, cache.faults);
              && cache.entries == refresh.Effect(old(cache.entries))
              && liveries.known == refresh.MemoAfterwards(old(cache.entries))
              && outcome == refresh.Result(old(cache.entries))
      ensures outcome.FetchFailed? <==> upstream.None?
      ensures outcome.CacheFailed? <==>
                upstream.Some? && (ActiveFlights(session.normalizedName) in cache.faults.lostWrites
                                   || ActiveFlights(session.normalizedName) in cache.faults.unackedWrites)
      ensures outcome.Refreshed? ==>
                && ActiveFlights(session.normalizedName) in cache.entries
                && cache.entries[ActiveFlights(session.normalizedName)].FlightsValue?
                && outcome.count == |cache.entries[ActiveFlights(session.normalizedName)].flights.result|
    {
      if upstream.None? {
        return FetchFailed;
      }
      var items := upstream.value;
      var r := cache.GetJSON(ActiveFlights(session.normalizedName));
      var read := DecodeFlights(r);
      var existing := if read.Hit? then read.value.result else [];
      var existingByID := IndexByID(existing);

      var mapped := MapUpstream(session, items, existing, existingByID, liveries, at);
      var result := UpsertFlights(existing, mapped);
      CacheHistories(existing, existingByID, result);
      var stored := cache.SetJSON(ActiveFlights(session.normalizedName), FlightsValue(FlightsSnapshot(result, at)));
      if !stored {
        return CacheFailed;
      }
      return Refreshed(|result|);
    }

    /** The mapping loop inside refreshSession. */
    method MapUpstream(session: GameSession, items: seq<UpstreamFlight>, ghost existing: seq<Flight>,
                       existingByID: map<string, Flight>, liveries: RunMemo, at: int)
      returns (mapped: seq<Flight>)
      requires Indexes(existingByID, existing)
      modifies liveries
      ensures Mapping(mapped, liveries.known) ==
              MapFlights(cache.entries, cache.faults, old(liveries.known), session, items, existing, at)
    {
      mapped := [];
      for i := 0 to |items|
        invariant Mapping(mapped, liveries.known) ==
                  MapFlights(cache.entries, cache.faults, old(liveries.known), session, items[..i], existing, at)
      {
        assert items[..i + 1][..i] == items[..i];
        var item := items[i];
        var livery := liveries.LookupLivery(cache, item.liveryID);
        var prior := if item.flightID in existingByID then Some(existingByID[item.flightID]) else None;
        mapped := mapped + [MapFlight(item, session, livery, prior, at)];
      }
      assert items[..|items|] == items;
    }

    method CacheHistories(ghost existing: seq<Flight>, existingByID: map<string, Flight>, current: seq<Flight>)
      requires Indexes(existingByID, existing)
      modifies cache`entries
      ensures cache.entries == WithHistories(old(cache.entries), cache.faults, existing, IDs(current))
    {
      for i := 0 to |current|
        invariant cache.entries == WithHistories(old(cache.entries), cache.faults, existing, IDs(current)[..i])
      {
        WithHistoriesSnoc(old(cache.entries), cache.faults, existing, IDs(current), i);
        var id := current[i].flightID;
        if id == "" {
          continue;
        }
        if id !in existingByID {
          continue;
        }
        var prior := existingByID[id];
        var history := LoadHistory(id, prior);
        var _ := cache.SetJSON(FlightHistory(id), HistoryValue(NextHistory(history, prior)));
      }
      assert IDs(current)[..|current|] == IDs(current);
    }

    method LoadHistory(flightID: string, prior: Flight) returns (history: seq<Flight>)
      ensures history == LoadedHistory(cache.entries, cache.faults, flightID, prior)
      ensures var key := FlightHistory(flightID);
              if key !in cache.faults.failedReads && key in cache.entries && cache.entries[key].HistoryValue?
              then history == cache.entries[key].observations
              else history == prior.history
    {
      var r := cache.GetJSON(FlightHistory(flightID));
      match DecodeHistory(r) {
        case Hit(stored) =>
          return stored;
        case _ =>
          if |prior.history| > 0 {
            return prior.history;
          }
          return [];
      }
    }
  }
}
