/** The read side of the flight snapshots: filtered pages, trimmed map markers and marker details
    (internal/transport/http/api/gameflights/handler.go, internal/game/flights/filter.go,
    internal/game/flights/token.go). */
module FlightViews {
  import opened Sequences
  import opened Keys
  import opened GameData
  import opened Cache
  import opened Dedup
  import opened FlightMapper
  import opened FlightsJob
  import opened FlightRuns
  import opened Text
  import opened Paging

  datatype Query = Query(serverID: string, pilotStates: seq<string>, userName: string, callSign: string)

  function Username(flight: Flight): string {
    if flight.username.None? then "" else flight.username.value
  }

  predicate ContainsFold(value: string, query: string) {
    var trimmed := TrimSpace(query);
    trimmed == "" || Contains(ToLower(value), ToLower(trimmed))
  }

  // ----- Filtering

  /** No pilot state named means every pilot state. */
  predicate Wanted(flight: Flight, states: seq<string>, userName: string, callSign: string) {
    && (states == [] || flight.pilotStateName in states)
    && ContainsFold(Username(flight), userName)
    && ContainsFold(flight.callsign, callSign)
  }

  function Filtered(flights: seq<Flight>, states: seq<string>, userName: string, callSign: string): seq<Flight> {
    if flights == [] then []
    else
      var before, last := Filtered(flights[..|flights| - 1], states, userName, callSign), flights[|flights| - 1];
      if Wanted(last, states, userName, callSign) then before + [last] else before
  }

  /** Without an effective filter the loop would keep everything: the handler's shortcut is sound. */
  lemma {:induction false} NoFilterKeepsAll(flights: seq<Flight>, userName: string, callSign: string)
    requires TrimSpace(userName) == "" && TrimSpace(callSign) == ""
    ensures Filtered(flights, [], userName, callSign) == flights
  {
    if flights != [] {
      NoFilterKeepsAll(flights[..|flights| - 1], userName, callSign);
    }
  }

  lemma {:induction false} FilteredSelects(flights: seq<Flight>, states: seq<string>, userName: string, callSign: string)
    ensures forall f :: f in Filtered(flights, states, userName, callSign) <==> f in flights && Wanted(f, states, userName, callSign)
  {
    if flights != [] {
      var init, last := flights[..|flights| - 1], flights[|flights| - 1];
      FilteredSelects(init, states, userName, callSign);
      assert flights == init + [last];
    }
  }

  /** A listed flight is one of the snapshot whose pilot state is asked for, or any if none is, and whose
      user name and call sign contain the texts asked for, white space around those and case aside. */
  lemma FilteredMeans(flights: seq<Flight>, states: seq<string>, userName: string, callSign: string, f: Flight)
    ensures var user, call := TrimSpace(userName), TrimSpace(callSign);
            f in Filtered(flights, states, userName, callSign) <==>
            && f in flights
            && (|states| > 0 ==> f.pilotStateName in states)
            && (user != "" ==> Contains(ToLower(if f.username.Some? then f.username.value else ""), ToLower(user)))
            && (call != "" ==> Contains(ToLower(f.callsign), ToLower(call)))
  {
    FilteredSelects(flights, states, userName, callSign);
    ContainsNothing(ToLower(Username(f)));
    ContainsNothing(ToLower(f.callsign));
  }

  lemma ContainsNothing(s: string)
    ensures Contains(s, "")
  {
    assert OccursAt(s, "", 0);
  }

  lemma {:induction false} SameWanted(flights: seq<Flight>, states: seq<string>, states': seq<string>, u: string, u': string, c: string, c': string)
    requires forall f :: f in flights ==> (Wanted(f, states, u, c) <==> Wanted(f, states', u', c'))
    ensures Filtered(flights, states, u, c) == Filtered(flights, states', u', c')
  {
    if flights != [] {
      SameWanted(flights[..|flights| - 1], states, states', u, u', c, c');
    }
  }

  predicate KnownState(name: string) {
    ParsePilotStateName(name).Some?
  }

  predicate AllKnown(names: seq<string>) {
    names == [] || (AllKnown(names[..|names| - 1]) && KnownState(names[|names| - 1]))
  }

  lemma {:induction false} AllKnownMeans(names: seq<string>)
    ensures AllKnown(names) <==> forall i :: 0 <= i < |names| ==> KnownState(names[i])
  {
    if names != [] {
      AllKnownMeans(names[..|names| - 1]);
    }
  }

  lemma {:induction false} PrefixKnown(names: seq<string>, i: nat)
    requires AllKnown(names) && i <= |names|
    ensures AllKnown(names[..i])
  {
    if i < |names| {
      PrefixKnown(names[..|names| - 1], i);
      assert names[..|names| - 1][..i] == names[..i];
    } else {
      assert names[..i] == names;
    }
  }

  /** Every snapshot the refresh produces names each flight's pilot state by one of the four names. */
  lemma NextNamesStates(refresh: Refresh, entries: Entries)
    requires refresh.upstream.Some?
    ensures forall f :: f in refresh.Next(entries) ==> KnownState(f.pilotStateName)
  {
    var existing, mapped := refresh.Existing(entries), refresh.Mapped(entries).flights;
    MappedNamesStates(entries, refresh.faults, refresh.memo, refresh.session, refresh.upstream.value, existing, refresh.at);
    forall f | f in refresh.Next(entries)
      ensures KnownState(f.pilotStateName)
    {
      var i :| 0 <= i < |Upsert(existing, mapped)| && Upsert(existing, mapped)[i] == f;
      var j := LastIndex(IDs(mapped), FirstKeys(IDs(mapped))[i]);
      assert f == Merged(existing, mapped[j]) && mapped[j] in mapped;
    }
  }

  lemma {:induction false} MappedNamesStates(entries: Entries, faults: Faults, memo: Liveries.Memo, session: GameSession,
                                             upstream: seq<UpstreamFlight>, existing: seq<Flight>, at: int)
    ensures forall f :: f in MapFlights(entries, faults, memo, session, upstream, existing, at).flights ==> KnownState(f.pilotStateName)
  {
    if upstream != [] {
      MappedNamesStates(entries, faults, memo, session, upstream[..|upstream| - 1], existing, at);
    }
  }

  lemma WantedInState(flight: Flight, state: string, userName: string, callSign: string)
    ensures Wanted(flight, [state], userName, callSign) <==>
            Wanted(flight, [], userName, callSign) && flight.pilotStateName == state
  {
  }

  /** A filtered list holds each wanted flight as often as the snapshot does, and nothing else. */
  lemma {:induction false} FilteredCounts(flights: seq<Flight>, states: seq<string>, userName: string, callSign: string, f: Flight)
    ensures multiset(Filtered(flights, states, userName, callSign))[f] ==
            if Wanted(f, states, userName, callSign) then multiset(flights)[f] else 0
  {
    if flights != [] {
      var init, last := flights[..|flights| - 1], flights[|flights| - 1];
      FilteredCounts(init, states, userName, callSign, f);
      assert flights == init + [last];
    }
  }

  /** How often `f` is listed when only `state` is asked for. */
  function TimesInState(flights: seq<Flight>, state: string, userName: string, callSign: string, f: Flight): nat {
    multiset(Filtered(flights, [state], userName, callSign))[f]
  }

  lemma CountInState(flights: seq<Flight>, state: string, userName: string, callSign: string, f: Flight)
    ensures TimesInState(flights, state, userName, callSign, f) ==
            if Wanted(f, [], userName, callSign) && f.pilotStateName == state then multiset(flights)[f] else 0
  {
    WantedInState(f, state, userName, callSign);
    FilteredCounts(flights, [state], userName, callSign, f);
  }

  /** The four single-state queries partition any snapshot whose states are named: each flight is listed
      by exactly one of them, as often as the stateless query lists it. */
  lemma {:induction false} StatesPartition(flights: seq<Flight>, userName: string, callSign: string, f: Flight)
    requires f in flights ==> KnownState(f.pilotStateName)
    ensures var all := multiset(Filtered(flights, [], userName, callSign))[f];
            var a, b := TimesInState(flights, "active", userName, callSign, f), TimesInState(flights, "away_in_flight", userName, callSign, f);
            var c, d := TimesInState(flights, "away_parked", userName, callSign, f), TimesInState(flights, "in_background", userName, callSign, f);
            && a + b + c + d == all
            && (a == all || a == 0) && (b == all || b == 0) && (c == all || c == 0) && (d == all || d == 0)
  {
    assert |"active"| == 6 && |"away_in_flight"| == 14 && |"away_parked"| == 11 && |"in_background"| == 13;
    FilteredCounts(flights, [], userName, callSign, f);
    CountInState(flights, "active", userName, callSign, f);
    CountInState(flights, "away_in_flight", userName, callSign, f);
    CountInState(flights, "away_parked", userName, callSign, f);
    CountInState(flights, "in_background", userName, callSign, f);
  }

  // ----- Loading

  datatype Load =
    | Loaded(result: seq<Flight>, selected: seq<string>, lastCached: int)
    | BadRequest
    | Unavailable
    | InternalError

  datatype ServerCheck = Known | Unknown | CheckFailed

  function CheckServer(entries: Entries, faults: Faults, serverID: string): ServerCheck {
    match DecodeNames(ReadFrom(entries, faults, SessionNames))
    case Miss => Known
    case Failed => CheckFailed
    case Hit(names) => if serverID in names then Known else Unknown
  }

  /** A snapshot without a refresh time counts as unreadable. */
  function ReadSnapshot(entries: Entries, faults: Faults, serverID: string): Read<FlightsSnapshot> {
    var r := DecodeFlights(ReadFrom(entries, faults, ActiveFlights(serverID)));
    if r.Hit? && r.value.lastCached == 0 then Read.Failed else r
  }

  /** What both list endpoints show: the query's flights of the snapshot, in its order.  The server names
      are read first, from the cache as it is then, the snapshot afterwards. */
  function LoadOf(names: Entries, entries: Entries, faults: Faults, query: Query): Load {
    if query.serverID == "" then BadRequest
    else if !AllKnown(query.pilotStates) then BadRequest
    else
      match CheckServer(names, faults, query.serverID)
      case CheckFailed => InternalError
      case Unknown => BadRequest
      case Known =>
        match ReadSnapshot(entries, faults, query.serverID)
        case Miss => Unavailable
        case Failed => InternalError
        case Hit(snapshot) =>
          var selected := FirstKeys(query.pilotStates);
          Loaded(Filtered(snapshot.result, selected, query.userName, query.callSign), selected, snapshot.lastCached)
  }

  const STATE_NAMES: set<string> := {"active", "away_in_flight", "away_parked", "in_background"}

  /** The server names are cached and readable, and these are they. */
  predicate NamesAre(entries: Entries, faults: Faults, names: seq<string>) {
    SessionNames !in faults.failedReads && SessionNames in entries && entries[SessionNames] == NamesValue(names)
  }

  predicate NamesUnreadable(entries: Entries, faults: Faults) {
    SessionNames in faults.failedReads || (SessionNames in entries && !entries[SessionNames].NamesValue?)
  }

  /** The snapshot of this server is cached and readable, with a refresh time, and this is it. */
  predicate SnapshotIs(entries: Entries, faults: Faults, server: string, snapshot: FlightsSnapshot) {
    var key := ActiveFlights(server);
    key !in faults.failedReads && key in entries && entries[key] == FlightsValue(snapshot) && snapshot.lastCached != 0
  }

  predicate SnapshotUnreadable(entries: Entries, faults: Faults, server: string) {
    var key := ActiveFlights(server);
    key in faults.failedReads
    || (key in entries && (!entries[key].FlightsValue? || entries[key].flights.lastCached == 0))
  }

  lemma {:induction false} AllKnownMeansNamed(names: seq<string>)
    ensures AllKnown(names) <==> forall i :: 0 <= i < |names| ==> names[i] in STATE_NAMES
  {
    if names != [] {
      AllKnownMeansNamed(names[..|names| - 1]);
    }
  }

  /** The server is asked for by name, with known pilot states, and is one of the cached names; when no names
      are cached every server passes. */
  ghost predicate Acceptable(names: Entries, faults: Faults, query: Query) {
    && query.serverID != ""
    && (forall i :: 0 <= i < |query.pilotStates| ==> query.pilotStates[i] in STATE_NAMES)
    && (forall listed :: NamesAre(names, faults, listed) ==> query.serverID in listed)
  }

  /** Which answer the list endpoints give when, said on the cache. */
  lemma LoadMeans(names: Entries, entries: Entries, faults: Faults, query: Query)
    ensures var load := LoadOf(names, entries, faults, query);
            && (load.BadRequest? <==> !Acceptable(names, faults, query))
            && (Acceptable(names, faults, query) ==>
                  && (load.InternalError? <==> NamesUnreadable(names, faults) || SnapshotUnreadable(entries, faults, query.serverID))
                  && (load.Unavailable? ==> ActiveFlights(query.serverID) !in entries)
                  && (load.Loaded? <==> !NamesUnreadable(names, faults) && ActiveFlights(query.serverID) in entries
                                        && !SnapshotUnreadable(entries, faults, query.serverID)))
    ensures var load := LoadOf(names, entries, faults, query);
            load.Loaded? ==>
              && SnapshotIs(entries, faults, query.serverID, FlightsSnapshot(entries[ActiveFlights(query.serverID)].flights.result, load.lastCached))
              && load.selected == FirstKeys(query.pilotStates)
              && load.result == Filtered(entries[ActiveFlights(query.serverID)].flights.result, load.selected, query.userName, query.callSign)
  {
    AllKnownMeansNamed(query.pilotStates);
    ServerCheckMeans(names, faults, query.serverID);
  }

  lemma ServerCheckMeans(names: Entries, faults: Faults, server: string)
    ensures CheckServer(names, faults, server).CheckFailed? <==> NamesUnreadable(names, faults)
    ensures CheckServer(names, faults, server).Unknown? <==> exists listed :: NamesAre(names, faults, listed) && server !in listed
  {
    if SessionNames in names && names[SessionNames].NamesValue? && SessionNames !in faults.failedReads {
      assert NamesAre(names, faults, names[SessionNames].names);
    }
  }

  function SetOf(names: seq<string>): set<string> {
    set name | name in names
  }

  lemma SelectStep(names: seq<string>, i: nat)
    requires i < |names|
    ensures FirstKeys(names[..i + 1]) ==
            if names[i] in SetOf(names[..i]) then FirstKeys(names[..i]) else FirstKeys(names[..i]) + [names[i]]
    ensures SetOf(names[..i + 1]) == SetOf(names[..i]) + {names[i]}
  {
    assert names[..i + 1] == names[..i] + [names[i]];
    FirstKeysSnoc(names[..i], names[i]);
  }

  lemma KnownSnoc(names: seq<string>, name: string)
    ensures AllKnown(names + [name]) <==> AllKnown(names) && KnownState(name)
  {
    assert (names + [name])[..|names|] == names;
  }

  lemma KnownStep(names: seq<string>, i: nat)
    requires i < |names|
    ensures AllKnown(names[..i + 1]) <==> AllKnown(names[..i]) && KnownState(names[i])
    ensures AllKnown(names) ==> AllKnown(names[..i + 1])
    ensures KnownState(names[i]) ==> ParsePilotStateName(names[i]) == Some(names[i])
  {
    KnownSnoc(names[..i], names[i]);
    assert names[..i + 1] == names[..i] + [names[i]];
    if AllKnown(names) {
      PrefixKnown(names, i + 1);
    }
  }

  class Handler {
    const cache: Store

    constructor (cache: Store)
      ensures this.cache == cache
    {
      this.cache := cache;
    }

    method SelectStates(names: seq<string>) returns (selected: seq<string>, seen: set<string>, ok: bool)
      ensures ok <==> AllKnown(names)
      ensures ok ==> selected == FirstKeys(names) && seen == SetOf(names)
    {
      selected, seen := [], {};
      for i := 0 to |names|
        invariant AllKnown(names[..i])
        invariant selected == FirstKeys(names[..i]) && seen == SetOf(names[..i])
      {
        var parsed := ParsePilotStateName(names[i]);
        SelectStep(names, i);
        KnownStep(names, i);
        if parsed.None? {
          return selected, seen, false;
        }
        if parsed.value !in seen {
          seen := seen + {parsed.value};
          selected := selected + [parsed.value];
        }
      }
      assert names[..|names|] == names;
      ok := true;
    }

    method FilterFlights(flights: seq<Flight>, selected: seq<string>, seen: set<string>, userName: string, callSign: string)
      returns (result: seq<Flight>)
      requires seen == SetOf(selected)
      ensures result == Filtered(flights, selected, userName, callSign)
    {
      if |selected| == 0 && TrimSpace(userName) == "" && TrimSpace(callSign) == "" {
        NoFilterKeepsAll(flights, userName, callSign);
        return flights;
      }
      result := [];
      for i := 0 to |flights|
        invariant result == Filtered(flights[..i], selected, userName, callSign)
      {
        assert flights[..i + 1][..i] == flights[..i];
        var flight := flights[i];
        if |selected| > 0 && flight.pilotStateName !in seen {
          continue;
        }
        if !ContainsFold(Username(flight), userName) {
          continue;
        }
        if !ContainsFold(flight.callsign, callSign) {
          continue;
        }
        result := result + [flight];
      }
      assert flights[..|flights|] == flights;
    }

    method KnownServer(serverID: string) returns (check: ServerCheck)
      ensures check == CheckServer(cache.entries, cache.faults, serverID)
    {
      var r := cache.GetJSON(SessionNames);
      match DecodeNames(r) {
        case Miss =>
          return Known;
        case Failed =>
          return CheckFailed;
        case Hit(names) =>
          for i := 0 to |names|
            invariant serverID !in names[..i]
          {
            assert names[..i + 1] == names[..i] + [names[i]];
            if names[i] == serverID {
              return Known;
            }
          }
          assert names[..|names|] == names;
          return Unknown;
      }
    }

    method LoadSnapshot(serverID: string) returns (r: Read<FlightsSnapshot>)
      ensures r == ReadSnapshot(cache.entries, cache.faults, serverID)
    {
      var raw := cache.GetJSON(ActiveFlights(serverID));
      r := DecodeFlights(raw);
      if r.Hit? && r.value.lastCached == 0 {
        return Read.Failed;
      }
    }

    /** Others act between the two reads: entries expire, others are written. */
    method LoadFiltered(query: Query, expired: set<CacheKey>, written: Entries) returns (load: Load)
      modifies cache`entries
      ensures cache.entries in {old(cache.entries), Meanwhile(old(cache.entries), expired, written)}
      ensures load == LoadOf(old(cache.entries), Meanwhile(old(cache.entries), expired, written), cache.faults, query)
    {
      if query.serverID == "" {
        return BadRequest;
      }
      var selected, seen, ok := SelectStates(query.pilotStates);
      if !ok {
        return BadRequest;
      }
      var userName, callSign := TrimSpace(query.userName), TrimSpace(query.callSign);
      var check := KnownServer(query.serverID);
      if check.CheckFailed? {
        return InternalError;
      }
      if check.Unknown? {
        return BadRequest;
      }
      cache.OthersAct(expired, written);
      var snapshot := LoadSnapshot(query.serverID);
      match snapshot {
        case Miss =>
          return Unavailable;
        case Failed =>
          return InternalError;
        case Hit(s) =>
          var result := FilterFlights(s.result, selected, seen, userName, callSign);
          TrimIsIdempotent(query.userName);
          TrimIsIdempotent(query.callSign);
          SameWanted(s.result, selected, selected, userName, query.userName, callSign, query.callSign);
          return Loaded(result, selected, s.lastCached);
      }
    }

    /** One page of the query's flights, nested history stripped; None is the panic of `Paginate`. */
    method GetActiveFlights(query: Query, pageNumber: int, pageLength: int, maxLength: int, expired: set<CacheKey>, written: Entries)
      returns (page: Option<PageResponse>)
      requires MachineInt(pageNumber) && MachineInt(pageLength) && maxLength <= MAX_INT
      requires SnapshotsFit(cache.entries, maxLength) && SnapshotsFit(written, maxLength)
      modifies cache`entries
      ensures pageNumber < 1 || pageLength < 1 ==> page == Some(Rejected(BadRequest))
      ensures pageNumber >= 1 && pageLength >= 1 ==>
                var load := LoadOf(old(cache.entries), Meanwhile(old(cache.entries), expired, written), cache.faults, query);
                if !load.Loaded? then page == Some(Rejected(load))
                else
                  var items := PageFrom(load.result, Wrapped((pageNumber - 1) * pageLength), pageLength);
                  if items.None? then page.None?
                  else page == Some(Page(WithoutHistory(items.value), |load.result|))
    {
      if pageNumber < 1 || pageLength < 1 {
        return Some(Rejected(BadRequest));
      }
      LoadedFits(cache.entries, Meanwhile(cache.entries, expired, written), cache.faults, query, maxLength);
      var load := LoadFiltered(query, expired, written);
      if !load.Loaded? {
        return Some(Rejected(load));
      }
      var items := Paginate(load.result, pageNumber, pageLength, maxLength);
      if items.None? {
        return None;
      }
      var paged := items.value;
      for i := 0 to |paged|
        invariant |paged| == |items.value|
        invariant forall k :: 0 <= k < |paged| ==> paged[k] == if k < i then items.value[k].(history := []) else items.value[k]
      {
        paged := paged[i := paged[i].(history := [])];
      }
      assert paged == WithoutHistory(items.value);
      return Some(Page(paged, |load.result|));
    }

    /** The markers of the query's flights, or an error when some flight cannot be given a token. */
    method GetTrimmedActiveFlights(query: Query, secretSize: nat, nonce: nat -> nat, expired: set<CacheKey>, written: Entries)
      returns (r: TrimmedResponse)
      modifies cache`entries
      ensures var load := LoadOf(old(cache.entries), Meanwhile(old(cache.entries), expired, written), cache.faults, query);
              if !load.Loaded? then r == TrimmedRejected(load)
              else if forall f :: f in load.result ==> secretSize == 32 && f.flightID != "" && query.serverID != ""
                then r == Trimmed(Markers(load.result, query.serverID, nonce))
              else r == TokenFailed
    {
      var load := LoadFiltered(query, expired, written);
      if !load.Loaded? {
        return TrimmedRejected(load);
      }
      var trimmed := TrimFlights(load.result, query.serverID, secretSize, nonce);
      return if trimmed.None? then TokenFailed else Trimmed(trimmed.value);
    }

    /** The loop of getTrimmedActiveFlights; None when some flight cannot be given a token. */
    method TrimFlights(flights: seq<Flight>, serverID: string, secretSize: nat, nonce: nat -> nat) returns (r: Option<seq<Marker>>)
      ensures r == if forall f :: f in flights ==> Sealable(secretSize, f, serverID) then Some(Markers(flights, serverID, nonce)) else None
    {
      var trimmed: seq<Marker> := [];
      for i := 0 to |flights|
        invariant |trimmed| == i
        invariant forall k :: 0 <= k < i ==> Sealable(secretSize, flights[k], serverID) && trimmed[k] == MarkerOf(flights[k], serverID, nonce(k))
      {
        var flight := flights[i];
        var token := Encode(secretSize, MarkerToken(flight.flightID, serverID), nonce(i));
        if token.None? {
          assert flight in flights && !Sealable(secretSize, flight, serverID);
          return None;
        }
        trimmed := trimmed + [Marker(token.value, flight.callsign, flight.telemetry.latitude, flight.telemetry.longitude, flight.telemetry.heading)];
      }
      assert trimmed == Markers(flights, serverID, nonce);
      return Some(trimmed);
    }

    /** The flight a marker stands for, in the snapshot cached now. */
    method GetActiveFlight(secretSize: nat, raw: RawToken) returns (r: Detail)
      ensures r == DetailOf(cache.entries, cache.faults, secretSize, Unpadded(raw))
    {
      var token := Decode(secretSize, Unpadded(raw));
      if token.None? {
        return InvalidToken;
      }
      var snapshot := LoadSnapshot(token.value.serverID);
      match snapshot {
        case Miss =>
          return DetailUnavailable;
        case Failed =>
          return DetailError;
        case Hit(s) =>
          for i := 0 to |s.result|
            invariant forall k :: 0 <= k < i ==> s.result[k].flightID != token.value.flightID
            invariant FirstWith(s.result, token.value.flightID) == FirstWith(s.result[i..], token.value.flightID)
          {
            assert s.result[i..][1..] == s.result[i + 1..];
            if s.result[i].flightID == token.value.flightID {
              return Found(s.result[i].(history := []), s.lastCached);
            }
          }
          return NotFound;
      }
    }
  }

  /** No cached snapshot is longer than a list of flights can be. */
  ghost predicate SnapshotsFit(entries: Entries, maxLength: int) {
    forall key :: key in entries && entries[key].FlightsValue? ==> |entries[key].flights.result| <= maxLength
  }

  lemma LoadedFits(names: Entries, entries: Entries, faults: Faults, query: Query, maxLength: int)
    requires SnapshotsFit(entries, maxLength)
    ensures var load := LoadOf(names, entries, faults, query); load.Loaded? ==> |load.result| <= maxLength
  {
    if LoadOf(names, entries, faults, query).Loaded? {
      FilteredShrinks(entries[ActiveFlights(query.serverID)].flights.result, FirstKeys(query.pilotStates), query.userName, query.callSign);
    }
  }

  lemma {:induction false} FilteredShrinks(flights: seq<Flight>, states: seq<string>, userName: string, callSign: string)
    ensures |Filtered(flights, states, userName, callSign)| <= |flights|
  {
    if flights != [] {
      FilteredShrinks(flights[..|flights| - 1], states, userName, callSign);
    }
  }

  datatype PageResponse = Rejected(why: Load) | Page(result: seq<Flight>, totalLength: nat)

  function WithoutHistory(flights: seq<Flight>): (r: seq<Flight>)
    ensures |r| == |flights|
    ensures forall i :: 0 <= i < |r| ==> r[i] == flights[i].(history := [])
  {
    seq(|flights|, i requires 0 <= i < |flights| => flights[i].(history := []))
  }

  // ----- Markers and their tokens

  datatype MarkerToken = MarkerToken(flightID: string, serverID: string)

  /** The wire form of a token: a box sealed under the server's secret, or any other text. */
  datatype Wire = Box(payload: MarkerToken, nonce: nat) | Other(text: string)

  /** A token as it stands in a request, with text around it. */
  datatype RawToken = RawToken(lead: string, wire: Wire, trail: string)

  /** White space around a token is trimmed; anything else makes it some other text. */
  function Unpadded(raw: RawToken): Wire {
    if TrimSpace(raw.lead) == "" && TrimSpace(raw.trail) == "" then raw.wire else Other(raw.lead + raw.trail)
  }

  function Encode(secretSize: nat, token: MarkerToken, nonce: nat): Option<Wire> {
    if secretSize != 32 then None
    else if token.flightID == "" || token.serverID == "" then None
    else Some(Box(token, nonce))
  }

  function Decode(secretSize: nat, raw: Wire): Option<MarkerToken> {
    if secretSize != 32 then None
    else match raw
      case Other(_) => None
      case Box(token, _) => if token.flightID == "" || token.serverID == "" then None else Some(token)
  }

  predicate Sealable(secretSize: nat, flight: Flight, serverID: string) {
    secretSize == 32 && flight.flightID != "" && serverID != ""
  }

  datatype Marker = Marker(flightID: Wire, callsign: string, latitude: real, longitude: real, heading: real)

  datatype TrimmedResponse = TrimmedRejected(why: Load) | TokenFailed | Trimmed(markers: seq<Marker>)

  function MarkerOf(flight: Flight, serverID: string, nonce: nat): (r: Marker)
    ensures r.flightID == Box(MarkerToken(flight.flightID, serverID), nonce) && r.callsign == flight.callsign
    ensures r.latitude == flight.telemetry.latitude && r.longitude == flight.telemetry.longitude && r.heading == flight.telemetry.heading
  {
    Marker(Box(MarkerToken(flight.flightID, serverID), nonce), flight.callsign,
           flight.telemetry.latitude, flight.telemetry.longitude, flight.telemetry.heading)
  }

  function Markers(flights: seq<Flight>, serverID: string, nonce: nat -> nat): (r: seq<Marker>)
    ensures |r| == |flights|
    ensures forall i :: 0 <= i < |r| ==> r[i] == MarkerOf(flights[i], serverID, nonce(i))
    ensures forall i :: 0 <= i < |r| ==>
              && r[i].callsign == flights[i].callsign && r[i].latitude == flights[i].telemetry.latitude
              && r[i].longitude == flights[i].telemetry.longitude && r[i].heading == flights[i].telemetry.heading
  {
    seq(|flights|, i requires 0 <= i < |flights| => MarkerOf(flights[i], serverID, nonce(i)))
  }

  datatype Detail = InvalidToken | DetailUnavailable | DetailError | NotFound | Found(flight: Flight, lastCached: int)

  function FirstWith(flights: seq<Flight>, id: string): Option<Flight> {
    if flights == [] then None
    else if flights[0].flightID == id then Some(flights[0])
    else FirstWith(flights[1..], id)
  }

  function DetailOf(entries: Entries, faults: Faults, secretSize: nat, raw: Wire): Detail {
    match Decode(secretSize, raw)
    case None => InvalidToken
    case Some(token) =>
      match ReadSnapshot(entries, faults, token.serverID)
      case Miss => DetailUnavailable
      case Failed => DetailError
      case Hit(snapshot) =>
        var found := FirstWith(snapshot.result, token.flightID);
        if found.None? then NotFound else Found(found.value.(history := []), snapshot.lastCached)
  }

  lemma {:induction false} FirstWithMeans(flights: seq<Flight>, id: string) returns (k: nat)
    ensures FirstWith(flights, id).None? <==> forall i :: 0 <= i < |flights| ==> flights[i].flightID != id
    ensures FirstWith(flights, id).Some? ==>
              && k < |flights| && FirstWith(flights, id) == Some(flights[k]) && flights[k].flightID == id
              && forall i :: 0 <= i < k ==> flights[i].flightID != id
  {
    k := 0;
    if flights != [] && flights[0].flightID != id {
      var rest := FirstWithMeans(flights[1..], id);
      k := rest + 1;
      assert forall i :: 1 <= i < |flights| ==> flights[i] == flights[1..][i - 1];
    }
  }

  /** White space around a token does not matter, and anything else around it makes it no token. */
  lemma UnpaddedMeans(raw: RawToken)
    ensures AllSpace(raw.lead) && AllSpace(raw.trail) ==> Unpadded(raw) == raw.wire
    ensures !(AllSpace(raw.lead) && AllSpace(raw.trail)) ==> Unpadded(raw).Other?
  {
    BlankIffSpace(raw.lead);
    BlankIffSpace(raw.trail);
  }

  /** Which answer the detail endpoint gives when, said on the cache. */
  lemma DetailMeans(entries: Entries, faults: Faults, secretSize: nat, raw: Wire) returns (k: nat)
    ensures var detail := DetailOf(entries, faults, secretSize, raw);
            && (detail.InvalidToken? <==> secretSize != 32 || raw.Other? || raw.payload.flightID == "" || raw.payload.serverID == "")
            && (!detail.InvalidToken? ==>
                  && (detail.DetailError? <==> SnapshotUnreadable(entries, faults, raw.payload.serverID))
                  && (detail.DetailUnavailable? ==> ActiveFlights(raw.payload.serverID) !in entries))
    ensures var detail := DetailOf(entries, faults, secretSize, raw);
            detail.NotFound? || detail.Found? ==>
              && ActiveFlights(raw.payload.serverID) in entries && entries[ActiveFlights(raw.payload.serverID)].FlightsValue?
              && var flights := entries[ActiveFlights(raw.payload.serverID)].flights.result;
                 if detail.Found? then
                   && k < |flights| && flights[k].flightID == raw.payload.flightID
                   && (forall i :: 0 <= i < k ==> flights[i].flightID != raw.payload.flightID)
                   && detail.flight == flights[k].(history := [])
                   && SnapshotIs(entries, faults, raw.payload.serverID, FlightsSnapshot(flights, detail.lastCached))
                 else forall i :: 0 <= i < |flights| ==> flights[i].flightID != raw.payload.flightID
  {
    k := 0;
    var detail := DetailOf(entries, faults, secretSize, raw);
    if detail.Found? || detail.NotFound? {
      k := FirstWithMeans(entries[ActiveFlights(raw.payload.serverID)].flights.result, raw.payload.flightID);
    }
  }

  lemma {:induction false} FirstWithDistinct(flights: seq<Flight>, i: nat)
    requires Distinct(IDs(flights)) && i < |flights|
    ensures FirstWith(flights, flights[i].flightID) == Some(flights[i])
  {
    if i > 0 {
      assert IDs(flights)[0] != IDs(flights)[i];
      assert forall k :: 0 <= k < |flights[1..]| ==> IDs(flights[1..])[k] == IDs(flights)[k + 1];
      FirstWithDistinct(flights[1..], i - 1);
    }
  }

  /** Unique IDs and no nested histories. */
  ghost predicate Resolvable(flights: seq<Flight>) {
    Distinct(IDs(flights)) && forall f :: f in flights ==> f.history == []
  }

  /** Marker round trip: over any resolvable snapshot, resolving the i-th marker of any query's trimmed
      view against that same snapshot returns exactly the flight the marker came from. */
  lemma MarkerResolvesToItsFlight(names: Entries, entries: Entries, faults: Faults, query: Query, nonce: nat -> nat, i: nat)
    requires var load, snapshot := LoadOf(names, entries, faults, query), ReadSnapshot(entries, NO_FAULTS, query.serverID);
             && load.Loaded? && i < |load.result| && load.result[i].flightID != "" && query.serverID != ""
             && (snapshot.Hit? ==> Resolvable(snapshot.value.result))
    ensures var load := LoadOf(names, entries, faults, query);
            DetailOf(entries, NO_FAULTS, 32, Markers(load.result, query.serverID, nonce)[i].flightID) == Found(load.result[i], load.lastCached)
  {
    var load, snapshot := LoadOf(names, entries, faults, query), ReadSnapshot(entries, NO_FAULTS, query.serverID);
    assert snapshot.Hit? && ReadSnapshot(entries, faults, query.serverID) == snapshot;
    var flights, flight := snapshot.value.result, load.result[i];
    ResolvesInSnapshot(flights, load, query, i);
    var k :| 0 <= k < |flights| && flights[k] == flight;
    FirstWithDistinct(flights, k);
    assert flight in flights && flight.(history := []) == flight;
    assert Decode(32, Markers(load.result, query.serverID, nonce)[i].flightID) == Some(MarkerToken(flight.flightID, query.serverID));
  }

  /** Every snapshot a refresh computes is of that kind. */
  lemma NextIsResolvable(refresh: Refresh, entries: Entries)
    requires refresh.upstream.Some?
    ensures Resolvable(refresh.Next(entries))
  {
    UpsertIdentities(refresh.Existing(entries), refresh.Mapped(entries).flights);
  }

  lemma RefreshedSnapshotIsResolvable(refresh: Refresh, entries: Entries)
    requires refresh.upstream.Some? && refresh.at != 0
    requires ActiveFlights(refresh.session.normalizedName) !in refresh.faults.lostWrites
    ensures ReadSnapshot(refresh.Effect(entries), NO_FAULTS, refresh.session.normalizedName) ==
            Hit(FlightsSnapshot(refresh.Next(entries), refresh.at))
    ensures Resolvable(refresh.Next(entries))
  {
    NextIsResolvable(refresh, entries);
  }

  lemma {:induction false} StoredAreResolvable(start: Entries, steps: seq<Step>, server: string)
    ensures forall k :: 0 <= k < |Stored(start, steps, server)| ==> Resolvable(Stored(start, steps, server)[k])
  {
    if steps != [] {
      var before, step := steps[..|steps| - 1], steps[|steps| - 1];
      StoredAreResolvable(start, before, server);
      if Stores(step, server) {
        NextIsResolvable(step.refresh, Replay(start, before));
      }
    }
  }

  lemma CachedIsResolvable(start: Entries, steps: seq<Step>, server: string)
    requires NoFlightData(start) && AllLawful(steps)
    ensures var r := ReadSnapshot(Replay(start, steps), NO_FAULTS, server);
            r.Hit? ==> r.value.result == LastStored(start, steps, server) && Resolvable(r.value.result)
  {
    SnapshotIsLastStored(start, steps, server);
    StoredAreResolvable(start, steps, server);
  }

  /** After every run of the refresh, under all faults, expiries and writes of others: each marker of
      each query that loads resolves, while that snapshot is cached, to exactly the flight it was made
      for -- unless that flight's ID or the server's is empty, and then no marker is made. */
  lemma MarkersResolveInRuns(start: Entries, steps: seq<Step>, names: Entries, faults: Faults, query: Query, nonce: nat -> nat, i: nat)
    requires NoFlightData(start) && AllLawful(steps)
    requires var load := LoadOf(names, Replay(start, steps), faults, query);
             load.Loaded? && i < |load.result| && load.result[i].flightID != "" && query.serverID != ""
    ensures var load := LoadOf(names, Replay(start, steps), faults, query);
            DetailOf(Replay(start, steps), NO_FAULTS, 32, Markers(load.result, query.serverID, nonce)[i].flightID) ==
            Found(load.result[i], load.lastCached)
  {
    CachedIsResolvable(start, steps, query.serverID);
    MarkerResolvesToItsFlight(names, Replay(start, steps), faults, query, nonce, i);
  }

  lemma {:induction false} FirstWithIsLookup(flights: seq<Flight>, id: string)
    requires Distinct(IDs(flights))
    ensures FirstWith(flights, id) == Lookup(flights, id)
  {
    if id in IDs(flights) {
      var k :| 0 <= k < |flights| && IDs(flights)[k] == id;
      FirstWithDistinct(flights, k);
      DistinctLookup(flights, k);
    } else {
      FirstWithNone(flights, id);
    }
  }

  lemma {:induction false} FirstWithNone(flights: seq<Flight>, id: string)
    requires forall k :: 0 <= k < |flights| ==> flights[k].flightID != id
    ensures FirstWith(flights, id).None?
  {
    if flights != [] {
      FirstWithNone(flights[1..], id);
    }
  }

  /** However many refreshes lie between making a token and resolving it: it stands for the flight of its
      ID in the snapshot stored last, and for nothing exactly when that snapshot no longer lists the ID. */
  lemma TokensFollowTheirFlight(start: Entries, steps: seq<Step>, token: MarkerToken, nonce: nat)
    requires NoFlightData(start) && AllLawful(steps) && token.flightID != "" && token.serverID != ""
    ensures var detail := DetailOf(Replay(start, steps), NO_FAULTS, 32, Box(token, nonce));
            var listed := Lookup(LastStored(start, steps, token.serverID), token.flightID);
            && (detail.Found? ==> listed == Some(detail.flight))
            && (detail.NotFound? ==> listed.None?)
            && (detail.Found? || detail.NotFound? <==> ReadSnapshot(Replay(start, steps), NO_FAULTS, token.serverID).Hit?)
  {
    CachedIsResolvable(start, steps, token.serverID);
    var r := ReadSnapshot(Replay(start, steps), NO_FAULTS, token.serverID);
    if r.Hit? {
      FirstWithIsLookup(r.value.result, token.flightID);
      var listed := Lookup(r.value.result, token.flightID);
      assert listed.Some? ==> listed.value in r.value.result && listed.value.(history := []) == listed.value;
    }
  }

  lemma ResolvesInSnapshot(flights: seq<Flight>, load: Load, query: Query, i: nat)
    requires load.Loaded? && i < |load.result|
    requires load.result == Filtered(flights, FirstKeys(query.pilotStates), query.userName, query.callSign)
    ensures load.result[i] in flights
  {
    FilteredSelects(flights, FirstKeys(query.pilotStates), query.userName, query.callSign);
  }

  /** The two list endpoints agree: the pages of a query, joined, are the flights its markers stand for,
      in order and each once. */
  lemma {:induction false} PagesMatchMarkers(load: Load, serverID: string, nonce: nat -> nat, pageLength: nat, i: nat)
    requires load.Loaded? && |load.result| <= MAX_INT && 1 <= pageLength <= MAX_INT
    requires PageCount(|load.result|, pageLength) * pageLength <= MAX_INT
    requires i < |load.result|
    ensures var joined := Windows(load.result, pageLength, PageCount(|load.result|, pageLength));
            |joined| == |Markers(load.result, serverID, nonce)|
            && Markers(load.result, serverID, nonce)[i].flightID.payload == MarkerToken(joined[i].flightID, serverID)
    ensures forall p :: 1 <= p <= PageCount(|load.result|, pageLength) ==>
              PageFrom(load.result, Wrapped((p - 1) * pageLength), pageLength) == Some(Window(load.result, p, pageLength))
  {
    var last := PageCount(|load.result|, pageLength);
    PageCountCovers(|load.result|, pageLength);
    WindowsArePrefix(load.result, pageLength, last);
    forall p | 1 <= p <= last
      ensures PageFrom(load.result, Wrapped((p - 1) * pageLength), pageLength) == Some(Window(load.result, p, pageLength))
    {
      ProductGrows(p, last, pageLength);
      ProductGrows(1, pageLength, p);
      PagesJoinToList(load.result, pageLength, p);
    }
  }
}
