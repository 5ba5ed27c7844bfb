/** When a flight's history lists one stored observation twice, and when it never does. */
module FlightRepeats {
  import opened Sequences
  import opened Keys
  import opened GameData
  import opened Cache
  import opened FlightMapper
  import opened FlightsJob
  import opened FlightRuns
  import opened FlightFaults

  /** The newest two entries are the same stored observation. */
  predicate RepeatsNewest(at: seq<nat>) {
    |at| >= 2 && at[|at| - 2] == at[|at| - 1]
  }

  /** After `before`, the step records `f` but its snapshot is lost. */
  ghost predicate RecordsUnsettled(start: Entries, before: seq<Step>, step: Step, server: string, f: string) {
    Records(Replay(start, before), step, server, f) && Loses(step, server)
  }

  /** No snapshot of the server is stored and the history does not expire. */
  predicate Quiet(step: Step, server: string, f: string) {
    !Stores(step, server) && !HistoryExpires(step, f)
  }

  /** Step `e` recorded `f` but lost its snapshot, and since then no snapshot was stored and the history
      did not expire. */
  ghost predicate UnsettledSince(start: Entries, steps: seq<Step>, server: string, f: string, e: nat) {
    && e < |steps|
    && RecordsUnsettled(start, steps[..e], steps[e], server, f)
    && QuietSince(steps, server, f, e)
  }

  predicate QuietSince(steps: seq<Step>, server: string, f: string, e: nat) {
    forall k :: e < k < |steps| ==> Quiet(steps[k], server, f)
  }

  /** An observation is on record whose successor never reached the cache. */
  ghost predicate Unsettled(start: Entries, steps: seq<Step>, server: string, f: string) {
    exists e: nat :: UnsettledSince(start, steps, server, f, e)
  }

  lemma UnsettledNow(start: Entries, before: seq<Step>, step: Step, server: string, f: string)
    ensures UnsettledSince(start, before + [step], server, f, |before|) <==> RecordsUnsettled(start, before, step, server, f)
  {
    assert (before + [step])[..|before|] == before;
  }

  lemma UnsettledStill(start: Entries, before: seq<Step>, step: Step, server: string, f: string, e: nat)
    requires e < |before|
    ensures UnsettledSince(start, before + [step], server, f, e) <==>
            UnsettledSince(start, before, server, f, e) && Quiet(step, server, f)
  {
    assert (before + [step])[..e] == before[..e];
    QuietSinceSnoc(before, step, server, f, e);
  }

  lemma QuietSinceSnoc(before: seq<Step>, step: Step, server: string, f: string, e: nat)
    requires e < |before|
    ensures QuietSince(before + [step], server, f, e) <==> QuietSince(before, server, f, e) && Quiet(step, server, f)
  {
    var steps := before + [step];
    assert steps[|before|] == step && forall k :: e < k < |before| ==> steps[k] == before[k];
  }

  lemma UnsettledSnoc(start: Entries, before: seq<Step>, step: Step, server: string, f: string)
    ensures Unsettled(start, before + [step], server, f) <==>
            RecordsUnsettled(start, before, step, server, f) || (Quiet(step, server, f) && Unsettled(start, before, server, f))
  {
    UnsettledNow(start, before, step, server, f);
    forall e: nat | e < |before|
      ensures UnsettledSince(start, before + [step], server, f, e) <==>
              UnsettledSince(start, before, server, f, e) && Quiet(step, server, f)
    {
      UnsettledStill(start, before, step, server, f, e);
    }
  }

  // ----- The newest position is the newest stored one exactly while a record is unsettled

  lemma PendingStep(at: seq<nat>, log: seq<seq<Flight>>, next: seq<Flight>, records: bool, readable: bool, expires: bool, stores: bool)
    requires UpTo(at, |log| - 1) && (records ==> log != [])
    ensures Pending(NextPositions(at, records, readable, expires, NewestPosition(log)), if stores then log + [next] else log) == 1 <==>
            !stores && (records || (!expires && Pending(at, log) == 1))
  {
  }

  lemma PositionsBelow(start: Entries, steps: seq<Step>, server: string, f: string)
    requires HistoryTraced(start, steps, server, f)
    ensures UpTo(Positions(start, steps, server, f), |Stored(start, steps, server)| - 1)
  {
    var at, cached := Positions(start, steps, server, f), At(Replay(start, steps), FlightHistory(f));
    if at != [] {
      ObservedIsStored(cached.value.observations, Stored(start, steps, server), f, at);
    }
  }

  /** A recording refresh found a stored snapshot. */
  lemma RecordsFindsSnapshot(start: Entries, before: seq<Step>, step: Step, server: string, f: string)
    requires NoFlightData(start) && AllLawful(before)
    requires Records(Replay(start, before), step, server, f)
    ensures Stored(start, before, server) != []
  {
    OwnRefreshReads(start, before, step.refresh, server, f);
  }

  lemma PendingAcrossStep(start: Entries, before: seq<Step>, step: Step, server: string, f: string)
    requires NoFlightData(start) && AllLawful(before) && ListedOnlyOn(before, server, f) && f != ""
    ensures var steps := before + [step];
            Pending(Positions(start, steps, server, f), Stored(start, steps, server)) == 1 <==>
            !Stores(step, server) &&
            (Records(Replay(start, before), step, server, f)
             || (!HistoryExpires(step, f) && Pending(Positions(start, before, server, f), Stored(start, before, server)) == 1))
  {
    var entries := Replay(start, before);
    HistoryObservesPositions(start, before, server, f);
    PositionsBelow(start, before, server, f);
    StoredSnoc(start, before, step, server);
    PositionsSnoc(start, before, step, server, f);
    var records := Records(entries, step, server, f);
    if records {
      RecordsFindsSnapshot(start, before, step, server, f);
    }
    var next := if Stores(step, server) then step.refresh.Next(entries) else [];
    PendingStep(Positions(start, before, server, f), Stored(start, before, server), next,
                records, ReadsHistory(step, f), HistoryExpires(step, f), Stores(step, server));
  }

  lemma {:induction false} PendingIffUnsettled(start: Entries, steps: seq<Step>, server: string, f: string)
    requires NoFlightData(start) && AllLawful(steps) && ListedOnlyOn(steps, server, f) && f != ""
    ensures Pending(Positions(start, steps, server, f), Stored(start, steps, server)) == 1 <==> Unsettled(start, steps, server, f)
  {
    if steps != [] {
      var before, step := steps[..|steps| - 1], steps[|steps| - 1];
      assert steps == before + [step];
      PendingIffUnsettled(start, before, server, f);
      PendingAcrossStep(start, before, step, server, f);
      UnsettledSnoc(start, before, step, server, f);
    }
  }

  // ----- Exactly when an observation is recorded twice

  lemma AppendRepeatsIff(at: seq<nat>, log: seq<seq<Flight>>, readable: bool, expires: bool)
    requires log != []
    ensures RepeatsNewest(NextPositions(at, true, readable, expires, NewestPosition(log))) <==> readable && Pending(at, log) == 1
  {
  }

  /** A refresh that records `f` records the newest observation a second time exactly when it could read
      the history and an earlier record is unsettled: some refresh recorded `f` and lost its snapshot,
      with no snapshot stored and no expiry of the history since. */
  lemma RecordingRepeatsIff(start: Entries, before: seq<Step>, step: Step, server: string, f: string)
    requires NoFlightData(start) && AllLawful(before) && ListedOnlyOn(before, server, f) && f != ""
    requires Records(Replay(start, before), step, server, f)
    ensures RepeatsNewest(Positions(start, before + [step], server, f)) <==>
            ReadsHistory(step, f) && Unsettled(start, before, server, f)
  {
    RecordsFindsSnapshot(start, before, step, server, f);
    PositionsSnoc(start, before, step, server, f);
    PendingIffUnsettled(start, before, server, f);
    AppendRepeatsIff(Positions(start, before, server, f), Stored(start, before, server), ReadsHistory(step, f), HistoryExpires(step, f));
  }

  /** Step `e` records an observation that is already the newest on record. */
  ghost predicate RecordsAgain(start: Entries, steps: seq<Step>, server: string, f: string, e: nat) {
    && e < |steps|
    && Records(Replay(start, steps[..e]), steps[e], server, f) && ReadsHistory(steps[e], f)
    && Unsettled(start, steps[..e], server, f)
  }

  lemma AppendIncreases(at: seq<nat>, log: seq<seq<Flight>>, records: bool, readable: bool, expires: bool)
    requires Increasing(at) && UpTo(at, |log| - 1) && (records ==> log != [])
    ensures Increasing(NextPositions(at, records, readable, expires, NewestPosition(log))) <==>
            !(records && readable && Pending(at, log) == 1)
  {
    if records {
      AppendedIncreases(if readable then at else [], |log| - 1);
    }
  }

  lemma AppendedIncreases(at: seq<nat>, p: nat)
    requires Increasing(at) && UpTo(at, p)
    ensures Increasing(LastN(at + [p], MAX_HISTORY)) <==> !(at != [] && at[|at| - 1] == p)
  {
    IncreasingSnoc(at, p);
    IncreasingCapped(at, p);
  }

  lemma IncreasingSnoc(at: seq<nat>, p: nat)
    requires Increasing(at) && UpTo(at, p)
    ensures Increasing(at + [p]) <==> !(at != [] && at[|at| - 1] == p)
  {
    if at != [] && at[|at| - 1] == p {
      assert (at + [p])[|at| - 1] == (at + [p])[|at|];
    }
  }

  lemma IncreasingCapped(at: seq<nat>, p: nat)
    requires Increasing(at)
    ensures Increasing(LastN(at + [p], MAX_HISTORY)) <==> Increasing(at + [p])
  {
    var s, t := at + [p], LastN(at + [p], MAX_HISTORY);
    assert Increasing(s) <==> (at != [] ==> at[|at| - 1] < p) by {
      if at != [] { assert s[|at| - 1] == at[|at| - 1] && s[|at|] == p; }
    }
    if at != [] {
      assert t[|t| - 1] == p && t[|t| - 2] == at[|at| - 1];
    }
  }

  lemma IncreasesAcrossStep(start: Entries, before: seq<Step>, step: Step, server: string, f: string)
    requires NoFlightData(start) && AllLawful(before) && ListedOnlyOn(before, server, f) && f != ""
    requires Increasing(Positions(start, before, server, f))
    ensures Increasing(Positions(start, before + [step], server, f)) <==>
            !(Records(Replay(start, before), step, server, f) && ReadsHistory(step, f) && Unsettled(start, before, server, f))
  {
    var entries := Replay(start, before);
    HistoryObservesPositions(start, before, server, f);
    PositionsBelow(start, before, server, f);
    PositionsSnoc(start, before, step, server, f);
    PendingIffUnsettled(start, before, server, f);
    if Records(entries, step, server, f) {
      RecordsFindsSnapshot(start, before, step, server, f);
    }
    AppendIncreases(Positions(start, before, server, f), Stored(start, before, server),
                    Records(entries, step, server, f), ReadsHistory(step, f), HistoryExpires(step, f));
  }

  /** The history is strictly increasing in refresh order after the first `m` steps. */
  ghost predicate IncreasingAfter(start: Entries, steps: seq<Step>, server: string, f: string, m: nat) {
    m <= |steps| ==> Increasing(Positions(start, steps[..m], server, f))
  }

  lemma PrefixLawful(steps: seq<Step>, server: string, f: string, n: nat)
    requires AllLawful(steps) && ListedOnlyOn(steps, server, f) && n <= |steps|
    ensures AllLawful(steps[..n]) && ListedOnlyOn(steps[..n], server, f)
  {
    assert forall step :: step in steps[..n] ==> step in steps;
  }

  lemma IncreasesAtStep(start: Entries, steps: seq<Step>, server: string, f: string, m: nat)
    requires NoFlightData(start) && AllLawful(steps) && ListedOnlyOn(steps, server, f) && f != "" && m < |steps|
    requires IncreasingAfter(start, steps, server, f, m)
    ensures IncreasingAfter(start, steps, server, f, m + 1) <==> !RecordsAgain(start, steps, server, f, m)
  {
    PrefixLawful(steps, server, f, m);
    assert steps[..m + 1] == steps[..m] + [steps[m]];
    IncreasesAcrossStep(start, steps[..m], steps[m], server, f);
  }

  /** A property that starts out true and is lost exactly at the `breaks`. */
  lemma {:induction false} HoldsWhileUnbroken(holds: nat -> bool, breaks: nat -> bool, n: nat)
    requires holds(0)
    requires forall m: nat :: m < n && holds(m) ==> (holds(m + 1) <==> !breaks(m))
    ensures (forall m: nat :: m <= n ==> holds(m)) <==> (forall e: nat :: e < n ==> !breaks(e))
  {
    if n > 0 {
      HoldsWhileUnbroken(holds, breaks, n - 1);
      assert (forall m: nat :: m <= n ==> holds(m)) <==> (forall m: nat :: m <= n - 1 ==> holds(m)) && holds(n);
      assert (forall m: nat :: m <= n - 1 ==> holds(m)) ==> holds(n - 1);
    }
  }

  lemma IncreasingAtFirst(start: Entries, steps: seq<Step>, server: string, f: string)
    ensures IncreasingAfter(start, steps, server, f, 0)
  {
    assert steps[..0] == [];
  }

  /** A flight's history is strictly increasing throughout a run exactly when none of its steps records
      again: no other pattern of faults ever repeats or reorders an observation. */
  lemma IncreasingThroughoutIff(start: Entries, steps: seq<Step>, server: string, f: string)
    requires NoFlightData(start) && AllLawful(steps) && ListedOnlyOn(steps, server, f) && f != ""
    ensures (forall m: nat :: m <= |steps| ==> IncreasingAfter(start, steps, server, f, m)) <==>
            (forall e: nat :: e < |steps| ==> !RecordsAgain(start, steps, server, f, e))
  {
    var holds, breaks := (m: nat) => IncreasingAfter(start, steps, server, f, m), (e: nat) => RecordsAgain(start, steps, server, f, e);
    IncreasingAtFirst(start, steps, server, f);
    forall m: nat | m < |steps| && holds(m)
      ensures holds(m + 1) <==> !breaks(m)
    {
      IncreasesAtStep(start, steps, server, f, m);
    }
    HoldsWhileUnbroken(holds, breaks, |steps|);
    assert forall m: nat :: IncreasingAfter(start, steps, server, f, m) <==> holds(m);
    assert forall e: nat :: RecordsAgain(start, steps, server, f, e) <==> breaks(e);
  }

  /** In particular a run that loses no snapshot of the server keeps its histories strictly increasing. */
  lemma HistoryIncreasesUnlessSnapshotLost(start: Entries, steps: seq<Step>, server: string, f: string)
    requires NoFlightData(start) && AllLawful(steps) && ListedOnlyOn(steps, server, f)
    requires f != "" && LostSnapshots(steps, server) == 0
    ensures Increasing(Positions(start, steps, server, f))
  {
    HistoryObservesPositions(start, steps, server, f);
    if Positions(start, steps, server, f) != [] {
      NoRepeatsIncreasing(Positions(start, steps, server, f));
    }
  }

  // ----- A run in which it happens

  /** A refresh that lists just the one flight. */
  function Listing(session: GameSession, u: UpstreamFlight, faults: Faults): Step {
    Refreshing(Refresh(session, Some([u]), map[], 1, faults))
  }

  /** Three refreshes; only the second one's snapshot write is lost. */
  function SlippedRun(session: GameSession, u: UpstreamFlight): seq<Step> {
    [Listing(session, u, NO_FAULTS)]
    + [Listing(session, u, Faults({}, {ActiveFlights(session.normalizedName)}, {}))]
    + [Listing(session, u, NO_FAULTS)]
  }

  lemma ListingLists(session: GameSession, u: UpstreamFlight, faults: Faults, entries: Entries)
    ensures Lookup(Listing(session, u, faults).refresh.Next(entries), u.flightID).Some?
  {
    var refresh := Listing(session, u, faults).refresh;
    var mapped := refresh.Mapped(entries).flights;
    UpsertIdentities(refresh.Existing(entries), mapped);
    assert IDs(mapped)[0] == u.flightID;
  }

  /** With no snapshot cached, nothing is recorded. */
  lemma ListingFirst(session: GameSession, u: UpstreamFlight, entries: Entries)
    requires NoFlightData(entries)
    ensures !Records(entries, Listing(session, u, NO_FAULTS), session.normalizedName, u.flightID)
  {
    assert FlightsKey(ActiveFlights(session.normalizedName));
  }

  /** With the last stored snapshot cached and readable, a listed flight that it holds is recorded. */
  lemma ListingRecords(session: GameSession, u: UpstreamFlight, faults: Faults, entries: Entries, snapshot: FlightsSnapshot)
    requires faults.failedReads == {} && FlightHistory(u.flightID) !in faults.lostWrites
    requires At(entries, ActiveFlights(session.normalizedName)) == Some(FlightsValue(snapshot))
    requires Lookup(snapshot.result, u.flightID).Some?
    ensures Records(entries, Listing(session, u, faults), session.normalizedName, u.flightID)
  {
    ListingLists(session, u, faults, entries);
  }

  lemma ListingStoresSnapshot(session: GameSession, u: UpstreamFlight, entries: Entries) returns (snapshot: FlightsSnapshot)
    ensures At(After(entries, Listing(session, u, NO_FAULTS)), ActiveFlights(session.normalizedName)) == Some(FlightsValue(snapshot))
    ensures Lookup(snapshot.result, u.flightID).Some?
  {
    var refresh := Listing(session, u, NO_FAULTS).refresh;
    snapshot := FlightsSnapshot(refresh.Next(entries), refresh.at);
    SnapshotAcrossRefresh(refresh, entries, session.normalizedName);
    ListingLists(session, u, NO_FAULTS, entries);
  }

  lemma ListingLosesSnapshot(session: GameSession, u: UpstreamFlight, faults: Faults, entries: Entries)
    requires ActiveFlights(session.normalizedName) in faults.lostWrites
    ensures var key := ActiveFlights(session.normalizedName);
            At(After(entries, Listing(session, u, faults)), key) == At(entries, key)
  {
    SnapshotAcrossRefresh(Listing(session, u, faults).refresh, entries, session.normalizedName);
  }

  lemma SlippedRunIsLawful(session: GameSession, u: UpstreamFlight)
    ensures AllLawful(SlippedRun(session, u))
    ensures ListedOnlyOn(SlippedRun(session, u), session.normalizedName, u.flightID)
  {
  }

  lemma FirstStep(step: Step, server: string, f: string)
    requires Stores(step, server) && !Records(map[], step, server, f)
    ensures Positions(map[], [step], server, f) == [] && |Stored(map[], [step], server)| == 1
    ensures Replay(map[], [step]) == After(map[], step)
  {
    SlipStep(map[], [], step, server, f);
    assert [] + [step] == [step];
  }

  /** The first of the three refreshes records nothing and stores the first snapshot. */
  lemma SlipFirst(session: GameSession, u: UpstreamFlight, step: Step) returns (snapshot: FlightsSnapshot)
    requires step == Listing(session, u, NO_FAULTS)
    ensures var server := session.normalizedName;
            && Positions(map[], [step], server, u.flightID) == []
            && |Stored(map[], [step], server)| == 1
            && At(Replay(map[], [step]), ActiveFlights(server)) == Some(FlightsValue(snapshot))
    ensures Lookup(snapshot.result, u.flightID).Some?
  {
    ListingFirst(session, u, map[]);
    snapshot := ListingStoresSnapshot(session, u, map[]);
    FirstStep(step, session.normalizedName, u.flightID);
  }

  /** While the one stored snapshot is cached, every refresh whose history write arrives records position 0. */
  lemma SlipAgain(session: GameSession, u: UpstreamFlight, before: seq<Step>, faults: Faults, snapshot: FlightsSnapshot)
    requires faults.failedReads == {} && FlightHistory(u.flightID) !in faults.lostWrites
    requires At(Replay(map[], before), ActiveFlights(session.normalizedName)) == Some(FlightsValue(snapshot))
    requires Lookup(snapshot.result, u.flightID).Some?
    requires |Stored(map[], before, session.normalizedName)| == 1
    ensures Positions(map[], before + [Listing(session, u, faults)], session.normalizedName, u.flightID) ==
            LastN(Positions(map[], before, session.normalizedName, u.flightID) + [0], MAX_HISTORY)
  {
    ListingRecords(session, u, faults, Replay(map[], before), snapshot);
    SlipStep(map[], before, Listing(session, u, faults), session.normalizedName, u.flightID);
  }

  /** A refresh that loses its snapshot leaves the stored one in place. */
  lemma SlipLoses(session: GameSession, u: UpstreamFlight, before: seq<Step>, faults: Faults)
    requires ActiveFlights(session.normalizedName) in faults.lostWrites
    ensures var server, after := session.normalizedName, before + [Listing(session, u, faults)];
            && Stored(map[], after, server) == Stored(map[], before, server)
            && At(Replay(map[], after), ActiveFlights(server)) == At(Replay(map[], before), ActiveFlights(server))
  {
    ListingLosesSnapshot(session, u, faults, Replay(map[], before));
    SlipStep(map[], before, Listing(session, u, faults), session.normalizedName, u.flightID);
  }

  /** One step of a run. */
  lemma SlipStep(start: Entries, before: seq<Step>, step: Step, server: string, f: string)
    ensures Replay(start, before + [step]) == After(Replay(start, before), step)
    ensures Positions(start, before + [step], server, f) ==
            NextPositions(Positions(start, before, server, f), Records(Replay(start, before), step, server, f),
                          ReadsHistory(step, f), HistoryExpires(step, f), NewestPosition(Stored(start, before, server)))
    ensures |Stored(start, before + [step], server)| == |Stored(start, before, server)| + (if Stores(step, server) then 1 else 0)
    ensures !Stores(step, server) ==> Stored(start, before + [step], server) == Stored(start, before, server)
  {
    ReplaySnoc(start, before, step);
    PositionsSnoc(start, before, step, server, f);
    StoredSnoc(start, before, step, server);
  }

  /** The second refresh, which records but loses its snapshot. */
  lemma SlipSecond(session: GameSession, u: UpstreamFlight, before: seq<Step>, faults: Faults, snapshot: FlightsSnapshot, after: seq<Step>)
    requires faults == Faults({}, {ActiveFlights(session.normalizedName)}, {}) && after == before + [Listing(session, u, faults)]
    requires Positions(map[], before, session.normalizedName, u.flightID) == []
    requires |Stored(map[], before, session.normalizedName)| == 1
    requires At(Replay(map[], before), ActiveFlights(session.normalizedName)) == Some(FlightsValue(snapshot))
    requires Lookup(snapshot.result, u.flightID).Some?
    ensures Positions(map[], after, session.normalizedName, u.flightID) == [0]
    ensures |Stored(map[], after, session.normalizedName)| == 1
    ensures At(Replay(map[], after), ActiveFlights(session.normalizedName)) == Some(FlightsValue(snapshot))
  {
    SlipAgain(session, u, before, faults, snapshot);
    SlipLoses(session, u, before, faults);
  }

  /** The third refresh records the same position again. */
  lemma SlipThird(session: GameSession, u: UpstreamFlight, before: seq<Step>, snapshot: FlightsSnapshot)
    requires Positions(map[], before, session.normalizedName, u.flightID) == [0]
    requires |Stored(map[], before, session.normalizedName)| == 1
    requires At(Replay(map[], before), ActiveFlights(session.normalizedName)) == Some(FlightsValue(snapshot))
    requires Lookup(snapshot.result, u.flightID).Some?
    ensures Positions(map[], before + [Listing(session, u, NO_FAULTS)], session.normalizedName, u.flightID) == [0, 0]
  {
    SlipAgain(session, u, before, NO_FAULTS, snapshot);
  }

  /** The third refresh is a repetition in the sense of the theorems above. */
  lemma SlippedRunRecordsAgain(session: GameSession, u: UpstreamFlight)
    ensures RecordsAgain(map[], SlippedRun(session, u), session.normalizedName, u.flightID, 2)
  {
    var run := SlippedRun(session, u);
    var one, two := run[..1], run[..2];
    assert one == [run[0]] && two == one + [run[1]];
    var snapshot := SlipFirst(session, u, run[0]);
    SlipSecond(session, u, one, run[1].refresh.faults, snapshot, two);
    SlipUnsettled(session, u, one, run[1].refresh.faults, snapshot, two);
    ListingRecords(session, u, NO_FAULTS, Replay(map[], two), snapshot);
  }

  lemma SlipUnsettled(session: GameSession, u: UpstreamFlight, before: seq<Step>, faults: Faults, snapshot: FlightsSnapshot, after: seq<Step>)
    requires faults == Faults({}, {ActiveFlights(session.normalizedName)}, {}) && after == before + [Listing(session, u, faults)]
    requires At(Replay(map[], before), ActiveFlights(session.normalizedName)) == Some(FlightsValue(snapshot))
    requires Lookup(snapshot.result, u.flightID).Some?
    ensures Unsettled(map[], after, session.normalizedName, u.flightID)
  {
    ListingRecords(session, u, faults, Replay(map[], before), snapshot);
    UnsettledNow(map[], before, Listing(session, u, faults), session.normalizedName, u.flightID);
  }

  lemma SlippedPositions(session: GameSession, u: UpstreamFlight, one: seq<Step>, two: seq<Step>)
    requires one == SlippedRun(session, u)[..1] && two == SlippedRun(session, u)[..2]
    ensures Positions(map[], two + [Listing(session, u, NO_FAULTS)], session.normalizedName, u.flightID) == [0, 0]
  {
    var run := SlippedRun(session, u);
    assert one == [run[0]] && two == one + [run[1]];
    var snapshot := SlipFirst(session, u, run[0]);
    SlipSecond(session, u, one, run[1].refresh.faults, snapshot, two);
    SlipThird(session, u, two, snapshot);
  }

  lemma EqualPositionsRepeat(start: Entries, steps: seq<Step>, server: string, f: string) returns (history: seq<Flight>)
    requires NoFlightData(start) && AllLawful(steps) && ListedOnlyOn(steps, server, f) && f != ""
    requires Positions(start, steps, server, f) == [0, 0]
    ensures At(Replay(start, steps), FlightHistory(f)) == Some(HistoryValue(history))
    ensures |history| == 2 && history[0] == history[1]
  {
    HistoryObservesPositions(start, steps, server, f);
    history := At(Replay(start, steps), FlightHistory(f)).value.observations;
  }

  /** From an empty cache, one lost snapshot write between two undisturbed refreshes leaves a history of
      two equal observations, whatever the flight and the server. */
  lemma SlippedRunRepeats(session: GameSession, u: UpstreamFlight) returns (history: seq<Flight>)
    requires u.flightID != ""
    ensures At(Replay(map[], SlippedRun(session, u)), FlightHistory(u.flightID)) == Some(HistoryValue(history))
    ensures |history| == 2 && history[0] == history[1]
  {
    SlippedRunIsLawful(session, u);
    var run := SlippedRun(session, u);
    SlippedPositions(session, u, run[..1], run[..2]);
    assert run == run[..2] + [Listing(session, u, NO_FAULTS)];
    history := EqualPositionsRepeat(map[], SlippedRun(session, u), session.normalizedName, u.flightID);
  }
}
