/** What one call of the flights job's Run does, from the cached sessions to the cached snapshots, said on
    the fields of sessions, upstream rows and stored flights. */
module FlightsRefreshed {
  import opened Sequences
  import opened Keys
  import opened GameData
  import opened Cache
  import opened FlightMapper
  import opened FlightsJob
  import opened FlightRuns
  import opened FlightNames
  import opened FlightCalls
  import opened RunLiveries

  // ----- Which sessions are refreshed

  predicate Named(session: GameSession) {
    session.id != "" && session.normalizedName != ""
  }

  /** Positions of the first `n` sessions that have an ID and a name. */
  function Turns(sessions: seq<GameSession>, n: nat): (r: seq<nat>)
    requires n <= |sessions|
    ensures forall k :: 0 <= k < |r| ==> r[k] < n
  {
    if n == 0 then []
    else if sessions[n - 1].id != "" && sessions[n - 1].normalizedName != "" then Turns(sessions, n - 1) + [n - 1]
    else Turns(sessions, n - 1)
  }

  /** In order, and exactly those. */
  lemma {:induction false} TurnsMean(sessions: seq<GameSession>, n: nat)
    requires n <= |sessions|
    ensures Increasing(Turns(sessions, n))
    ensures forall m: nat :: m in Turns(sessions, n) <==> m < n && sessions[m].id != "" && sessions[m].normalizedName != ""
  {
    if n > 0 {
      TurnsMean(sessions, n - 1);
    }
  }

  function Refreshes(steps: seq<Step>): seq<Refresh> {
    if steps == [] then []
    else if steps[|steps| - 1].Refreshing? then Refreshes(steps[..|steps| - 1]) + [steps[|steps| - 1].refresh]
    else Refreshes(steps[..|steps| - 1])
  }

  lemma {:induction false} RefreshesAppend(steps: seq<Step>, more: seq<Step>)
    ensures Refreshes(steps + more) == Refreshes(steps) + Refreshes(more)
  {
    if more == [] {
      assert steps + more == steps;
    } else {
      assert (steps + more)[..|steps + more| - 1] == steps + more[..|more| - 1];
      RefreshesAppend(steps, more[..|more| - 1]);
    }
  }

  lemma RefreshesOfOne(during: Conditions, refresh: Refresh)
    ensures Refreshes(StepsOfRefresh(during, refresh)) == [refresh]
  {
    var a, b, c := Expiring(during.expired), Foreign(during.written), Refreshing(refresh);
    assert StepsOfRefresh(during, refresh) == [a] + [b] + [c];
    RefreshesAppend([a] + [b], [c]);
    RefreshesAppend([a], [b]);
    assert [c][..0] == [] && [b][..0] == [] && [a][..0] == [];
  }

  /** The refresh of turn `m` asks for session `m`, with what upstream and the network do at that turn. */
  predicate OfTurn(refresh: Refresh, sessions: seq<GameSession>, at: int, world: nat -> Conditions, m: nat) {
    && m < |sessions|
    && refresh.session == sessions[m] && refresh.at == at
    && refresh.upstream == world(m).upstream && refresh.faults == world(m).faults
  }

  ghost predicate OfTurns(refreshes: seq<Refresh>, turns: seq<nat>, sessions: seq<GameSession>, at: int, world: nat -> Conditions) {
    |refreshes| == |turns| && forall k :: 0 <= k < |turns| ==> OfTurn(refreshes[k], sessions, at, world, turns[k])
  }

  /** A run refreshes exactly the sessions that have an ID and a name, each once, in order. */
  lemma {:induction false} RunRefreshesNamedSessions(entries: Entries, sessions: seq<GameSession>, at: int, world: nat -> Conditions, n: nat)
    requires n <= |sessions|
    ensures OfTurns(Refreshes(StepsOfRun(entries, sessions, at, world, n)), Turns(sessions, n), sessions, at, world)
  {
    if n > 0 {
      var m := n - 1;
      RunRefreshesNamedSessions(entries, sessions, at, world, m);
      if Named(sessions[m]) {
        var p := RefreshAll(entries, sessions, at, world, m);
        var refresh := RefreshOf(sessions[m], p.memo, at, world(m));
        OneMoreTurn(StepsOfRun(entries, sessions, at, world, m), Turns(sessions, m), sessions, at, world, m, refresh);
      } else {
        assert StepsOfRun(entries, sessions, at, world, m) + [] == StepsOfRun(entries, sessions, at, world, m);
      }
    }
  }

  lemma OneMoreTurn(steps: seq<Step>, turns: seq<nat>, sessions: seq<GameSession>, at: int, world: nat -> Conditions, m: nat, refresh: Refresh)
    requires OfTurns(Refreshes(steps), turns, sessions, at, world) && OfTurn(refresh, sessions, at, world, m)
    ensures OfTurns(Refreshes(steps + StepsOfRefresh(world(m), refresh)), turns + [m], sessions, at, world)
  {
    RefreshesAppend(steps, StepsOfRefresh(world(m), refresh));
    RefreshesOfOne(world(m), refresh);
  }

  // ----- What is cached afterwards

  /** Turn `m` leaves the snapshot of `server` alone: nothing happens in it, or its entry neither expires
      nor is written by others nor by the turn's own refresh. */
  predicate Passes(session: GameSession, during: Conditions, server: string) {
    session.id == "" || session.normalizedName == ""
    || (ActiveFlights(server) !in during.expired && ActiveFlights(server) !in during.written
        && (session.normalizedName != server || during.upstream.None? || ActiveFlights(server) in during.faults.lostWrites))
  }

  lemma AdvancePasses(p: Progress, session: GameSession, at: int, during: Conditions, server: string)
    requires Named(session) && Passes(session, during, server)
    ensures At(Advance(p, session, at, during).entries, ActiveFlights(server)) == At(p.entries, ActiveFlights(server))
  {
    if during.upstream.Some? {
      SnapshotAcrossRefresh(RefreshOf(session, p.memo, at, during), EntriesFor(p, during), server);
    }
  }

  function SnapshotAt(progress: nat -> Progress, server: string, n: nat): Option<Value> {
    At(progress(n).entries, ActiveFlights(server))
  }

  predicate KeepsSnapshot(progress: nat -> Progress, server: string, n: nat) {
    SnapshotAt(progress, server, n + 1) == SnapshotAt(progress, server, n)
  }

  lemma {:induction false} KeptThroughout(progress: nat -> Progress, server: string, n: nat, m: nat)
    requires n <= m && forall k: nat :: n <= k < m ==> KeepsSnapshot(progress, server, k)
    ensures SnapshotAt(progress, server, m) == SnapshotAt(progress, server, n)
  {
    if n < m {
      KeptThroughout(progress, server, n, m - 1);
      assert KeepsSnapshot(progress, server, m - 1);
    }
  }

  lemma TurnPasses(entries: Entries, sessions: seq<GameSession>, at: int, world: nat -> Conditions, server: string, m: nat)
    requires m < |sessions| && Passes(sessions[m], world(m), server)
    ensures KeepsSnapshot(ProgressOf(entries, sessions, at, world), server, m)
  {
    if Named(sessions[m]) {
      AdvancePasses(RefreshAll(entries, sessions, at, world, m), sessions[m], at, world(m), server);
    }
  }

  lemma LaterTurnsPass(entries: Entries, sessions: seq<GameSession>, at: int, world: nat -> Conditions, server: string, n: nat)
    requires n <= |sessions| && forall k :: n <= k < |sessions| ==> Passes(sessions[k], world(k), server)
    ensures var progress := ProgressOf(entries, sessions, at, world);
            SnapshotAt(progress, server, |sessions|) == SnapshotAt(progress, server, n)
  {
    forall k: nat | n <= k < |sessions|
      ensures KeepsSnapshot(ProgressOf(entries, sessions, at, world), server, k)
    {
      TurnPasses(entries, sessions, at, world, server, k);
    }
    KeptThroughout(ProgressOf(entries, sessions, at, world), server, n, |sessions|);
  }

  lemma TurnStores(entries: Entries, sessions: seq<GameSession>, at: int, world: nat -> Conditions, n: nat) returns (refresh: Refresh, now: Entries)
    requires n < |sessions| && sessions[n].id != "" && sessions[n].normalizedName != ""
    requires world(n).upstream.Some? && ActiveFlights(sessions[n].normalizedName) !in world(n).faults.lostWrites
    ensures OfTurn(refresh, sessions, at, world, n)
    ensures SnapshotAt(ProgressOf(entries, sessions, at, world), sessions[n].normalizedName, n + 1) ==
            Some(FlightsValue(FlightsSnapshot(refresh.Next(now), at)))
  {
    TurnAdvances(entries, sessions, at, world, n);
    refresh, now := AdvanceStores(ProgressOf(entries, sessions, at, world)(n), sessions[n], at, world(n));
  }

  lemma TurnAdvances(entries: Entries, sessions: seq<GameSession>, at: int, world: nat -> Conditions, n: nat)
    requires n < |sessions| && sessions[n].id != "" && sessions[n].normalizedName != ""
    ensures var progress := ProgressOf(entries, sessions, at, world);
            progress(n + 1) == Advance(progress(n), sessions[n], at, world(n))
  {
  }

  lemma RunEndsAt(entries: Entries, start: Faults, at: int, world: nat -> Conditions, sessions: seq<GameSession>, server: string)
    requires sessions == SessionsToRefresh(entries, start)
    ensures At(RunEffect(entries, start, at, world), ActiveFlights(server)) ==
            SnapshotAt(ProgressOf(entries, sessions, at, world), server, |sessions|)
  {
  }

  lemma AdvanceStores(p: Progress, session: GameSession, at: int, during: Conditions) returns (refresh: Refresh, now: Entries)
    requires during.upstream.Some? && ActiveFlights(session.normalizedName) !in during.faults.lostWrites
    ensures refresh.session == session && refresh.at == at && refresh.upstream == during.upstream && refresh.faults == during.faults
    ensures At(Advance(p, session, at, during).entries, ActiveFlights(session.normalizedName)) ==
            Some(FlightsValue(FlightsSnapshot(refresh.Next(now), at)))
  {
    refresh, now := RefreshOf(session, p.memo, at, during), EntriesFor(p, during);
    SnapshotAcrossRefresh(refresh, now, session.normalizedName);
  }

  /** A snapshot that lists exactly the upstream flights, each once, refreshed at `at`. */
  ghost predicate ListsExactly(snapshot: FlightsSnapshot, rows: seq<UpstreamFlight>, at: int) {
    && snapshot.lastCached == at
    && (forall i, j :: 0 <= i < j < |snapshot.result| ==> snapshot.result[i].flightID != snapshot.result[j].flightID)
    && (forall g :: g in snapshot.result ==> exists u :: u in rows && u.flightID == g.flightID)
    && (forall u :: u in rows ==> exists g :: g in snapshot.result && g.flightID == u.flightID)
  }

  lemma NextListsExactly(refresh: Refresh, entries: Entries)
    requires refresh.upstream.Some?
    ensures ListsExactly(FlightsSnapshot(refresh.Next(entries), refresh.at), refresh.upstream.value, refresh.at)
  {
    var next, mapped := refresh.Next(entries), refresh.Mapped(entries).flights;
    UpsertIdentities(refresh.Existing(entries), mapped);
    forall i, j | 0 <= i < j < |next|
      ensures next[i].flightID != next[j].flightID
    {
      assert IDs(next)[i] != IDs(next)[j];
    }
    forall g | g in next
      ensures exists u :: u in refresh.upstream.value && u.flightID == g.flightID
    {
      NextIsListed(refresh, entries, g.flightID);
    }
    forall u | u in refresh.upstream.value
      ensures exists g :: g in next && g.flightID == u.flightID
    {
      RowIsStored(next, mapped, refresh.upstream.value, u);
    }
  }

  lemma RowIsStored(next: seq<Flight>, mapped: seq<Flight>, rows: seq<UpstreamFlight>, u: UpstreamFlight)
    requires forall id :: id in IDs(mapped) ==> id in IDs(next)
    requires IDs(mapped) == seq(|rows|, i requires 0 <= i < |rows| => rows[i].flightID)
    requires u in rows
    ensures exists g :: g in next && g.flightID == u.flightID
  {
    var i :| 0 <= i < |rows| && rows[i] == u;
    assert IDs(mapped)[i] == u.flightID && u.flightID in IDs(mapped);
    var k :| 0 <= k < |next| && IDs(next)[k] == u.flightID;
    assert next[k] in next;
  }

  lemma RunStoresNext(entries: Entries, start: Faults, at: int, world: nat -> Conditions, sessions: seq<GameSession>, n: nat)
    returns (refresh: Refresh, now: Entries)
    requires sessions == SessionsToRefresh(entries, start)
    requires n < |sessions| && sessions[n].id != "" && sessions[n].normalizedName != ""
    requires world(n).upstream.Some? && ActiveFlights(sessions[n].normalizedName) !in world(n).faults.lostWrites
    requires forall m :: n < m < |sessions| ==> Passes(sessions[m], world(m), sessions[n].normalizedName)
    ensures OfTurn(refresh, sessions, at, world, n)
    ensures At(RunEffect(entries, start, at, world), ActiveFlights(sessions[n].normalizedName)) ==
            Some(FlightsValue(FlightsSnapshot(refresh.Next(now), at)))
  {
    refresh, now := TurnStores(entries, sessions, at, world, n);
    LaterTurnsPass(entries, sessions, at, world, sessions[n].normalizedName, n + 1);
    RunEndsAt(entries, start, at, world, sessions, sessions[n].normalizedName);
  }

  /** Each upstream flight is stored as the last row of its ID says, for this session. */
  ghost predicate StoresRows(stored: seq<Flight>, rows: seq<UpstreamFlight>, session: GameSession, at: int) {
    forall i: nat :: LastRow(rows, i) ==> StoresRowFor(Lookup(stored, rows[i].flightID), rows[i], session, at)
  }

  predicate StoresRowFor(stored: Option<Flight>, u: UpstreamFlight, session: GameSession, at: int) {
    stored.Some? && StoresRow(stored.value, u, at) && stored.value.sessionID == session.id && stored.value.server == session.normalizedName
  }

  lemma NextStoresRows(refresh: Refresh, entries: Entries)
    requires refresh.upstream.Some?
    ensures StoresRows(refresh.Next(entries), refresh.upstream.value, refresh.session, refresh.at)
  {
    forall i: nat | LastRow(refresh.upstream.value, i)
      ensures StoresRowFor(Lookup(refresh.Next(entries), refresh.upstream.value[i].flightID), refresh.upstream.value[i], refresh.session, refresh.at)
    {
      StoredFields(refresh, entries, i);
    }
  }

  /** From the cached sessions to the cached flights.  When the sessions can be read, and the n-th of them
      has an ID and a name, upstream answers it, its snapshot write is not lost and no later turn touches
      the snapshot, then afterwards the server's snapshot lists exactly the upstream flights, and each of
      them is stored as the last row of its ID says. */
  lemma RunStoresUpstream(entries: Entries, start: Faults, at: int, world: nat -> Conditions, sessions: SessionsSnapshot, n: nat)
    returns (snapshot: FlightsSnapshot)
    requires ActiveSessions in entries && ActiveSessions !in start.failedReads && entries[ActiveSessions] == SessionsValue(sessions)
    requires n < |sessions.result| && sessions.result[n].id != "" && sessions.result[n].normalizedName != ""
    requires world(n).upstream.Some? && ActiveFlights(sessions.result[n].normalizedName) !in world(n).faults.lostWrites
    requires forall m :: n < m < |sessions.result| ==> Passes(sessions.result[m], world(m), sessions.result[n].normalizedName)
    ensures At(RunEffect(entries, start, at, world), ActiveFlights(sessions.result[n].normalizedName)) == Some(FlightsValue(snapshot))
    ensures ListsExactly(snapshot, world(n).upstream.value, at)
    ensures StoresRows(snapshot.result, world(n).upstream.value, sessions.result[n], at)
  {
    var refresh, now := RunStoresNext(entries, start, at, world, sessions.result, n);
    snapshot := FlightsSnapshot(refresh.Next(now), at);
    NextListsExactly(refresh, now);
    NextStoresRows(refresh, now);
  }
}
