/** What per-flight history is in runs in which nothing that concerns the flight fails. */
module FlightHistory {
  import opened Sequences
  import opened Keys
  import opened GameData
  import opened Cache
  import opened FlightMapper
  import opened FlightsJob
  import opened FlightRuns
  import opened FlightFaults

  /** Positions of `log` at which `f` is listed and is listed again in the next snapshot. */
  function Recorded(log: seq<seq<Flight>>, f: string): seq<nat> {
    var n := |log|;
    if n < 2 then []
    else if Present(log, f, n - 2) && Present(log, f, n - 1) then Recorded(log[..n - 1], f) + [n - 2]
    else Recorded(log[..n - 1], f)
  }

  lemma {:induction false} RecordedIncreases(log: seq<seq<Flight>>, f: string)
    ensures Increasing(Recorded(log, f))
    ensures forall k :: 0 <= k < |Recorded(log, f)| ==> Recorded(log, f)[k] < |log| - 1
  {
    if |log| >= 2 {
      RecordedIncreases(log[..|log| - 1], f);
    }
  }

  lemma {:induction false} RecordedContains(log: seq<seq<Flight>>, f: string, i: nat)
    ensures i in Recorded(log, f) <==> SeenAgain(log, f, i)
  {
    if |log| >= 2 {
      RecordedContains(log[..|log| - 1], f, i);
    }
  }

  /** Exactly the positions followed by another observation, in order; in particular the observation
      just before a disappearance is never among them. */
  lemma RecordedMeans(log: seq<seq<Flight>>, f: string)
    ensures Increasing(Recorded(log, f))
    ensures forall i: nat :: i in Recorded(log, f) <==> SeenAgain(log, f, i)
  {
    RecordedIncreases(log, f);
    forall i: nat
      ensures i in Recorded(log, f) <==> SeenAgain(log, f, i)
    {
      RecordedContains(log, f, i);
    }
  }

  /** The snapshots of `server` and the history of `f` are read and written without fault and do not
      expire.  Other keys may suffer anything. */
  ghost predicate Undisturbed(steps: seq<Step>, server: string, f: string) {
    forall step :: step in steps ==> Undisturbing(step, ActiveFlights(server)) && Undisturbing(step, FlightHistory(f))
  }

  predicate Undisturbing(step: Step, key: CacheKey) {
    && (step.Refreshing? ==> key !in step.refresh.faults.failedReads && key !in step.refresh.faults.lostWrites)
    && (step.Expiring? ==> key !in step.keys)
  }

  lemma UndisturbedStep(entries: Entries, step: Step, server: string)
    requires Lawful(step) && Undisturbing(step, ActiveFlights(server))
    ensures ActiveFlights(server) in entries || Stores(step, server) ==> ActiveFlights(server) in After(entries, step)
  {
    assert FlightsKey(ActiveFlights(server));
    if step.Refreshing? && step.refresh.upstream.Some? {
      SnapshotAcrossRefresh(step.refresh, entries, server);
    }
  }

  lemma {:induction false} UndisturbedSnapshot(start: Entries, steps: seq<Step>, server: string, f: string)
    requires AllLawful(steps) && Undisturbed(steps, server, f)
    ensures Stored(start, steps, server) != [] ==> ActiveFlights(server) in Replay(start, steps)
  {
    if steps != [] {
      var before, step := steps[..|steps| - 1], steps[|steps| - 1];
      assert step in steps;
      UndisturbedSnapshot(start, before, server, f);
      UndisturbedStep(Replay(start, before), step, server);
    }
  }

  lemma UndisturbedExisting(start: Entries, before: seq<Step>, refresh: Refresh, server: string, f: string)
    requires NoFlightData(start) && AllLawful(before) && Undisturbed(before, server, f)
    requires refresh.session.normalizedName == server && ActiveFlights(server) !in refresh.faults.failedReads
    ensures refresh.Existing(Replay(start, before)) == LastStored(start, before, server)
  {
    UndisturbedSnapshot(start, before, server, f);
    SnapshotIsLastStored(start, before, server);
  }

  lemma RecordedSnoc(log: seq<seq<Flight>>, next: seq<Flight>, f: string)
    ensures Recorded(log + [next], f) ==
            if log != [] && Lookup(log[|log| - 1], f).Some? && Lookup(next, f).Some?
            then Recorded(log, f) + [|log| - 1] else Recorded(log, f)
  {
    assert (log + [next])[..|log|] == log;
  }

  /** An undisturbed refresh of the server appends the position that has just been seen again. */
  lemma PositionsGrow(at: seq<nat>, log: seq<seq<Flight>>, next: seq<Flight>, f: string, records: bool)
    requires at == LastN(Recorded(log, f), MAX_HISTORY)
    requires records <==> log != [] && Lookup(log[|log| - 1], f).Some? && Lookup(next, f).Some?
    ensures NextPositions(at, records, true, false, NewestPosition(log)) == LastN(Recorded(log + [next], f), MAX_HISTORY)
  {
    RecordedSnoc(log, next, f);
    if records {
      CapThenAppend(Recorded(log, f), |log| - 1, MAX_HISTORY);
    }
  }

  lemma OwnStepRecords(start: Entries, before: seq<Step>, step: Step, server: string, f: string)
    requires NoFlightData(start) && AllLawful(before) && Undisturbed(before, server, f)
    requires Attempts(step, server) && Undisturbing(step, ActiveFlights(server)) && Undisturbing(step, FlightHistory(f))
    ensures var log, entries := Stored(start, before, server), Replay(start, before);
            Records(entries, step, server, f) <==>
            log != [] && Lookup(log[|log| - 1], f).Some? && Lookup(step.refresh.Next(entries), f).Some?
  {
    UndisturbedExisting(start, before, step.refresh, server, f);
  }

  lemma UndisturbedOwnStep(start: Entries, before: seq<Step>, step: Step, server: string, f: string, log: seq<seq<Flight>>, next: seq<Flight>)
    requires NoFlightData(start) && AllLawful(before) && Undisturbed(before, server, f)
    requires Attempts(step, server) && Undisturbing(step, ActiveFlights(server)) && Undisturbing(step, FlightHistory(f))
    requires log == Stored(start, before, server) && next == step.refresh.Next(Replay(start, before))
    requires Positions(start, before, server, f) == LastN(Recorded(log, f), MAX_HISTORY)
    ensures PositionsAfter(start, before, step, server, f) == LastN(Recorded(log + [next], f), MAX_HISTORY)
  {
    OwnStepRecords(start, before, step, server, f);
    PositionsGrow(Positions(start, before, server, f), log, next, f, Records(Replay(start, before), step, server, f));
  }

  lemma UndisturbedPositionsStep(start: Entries, before: seq<Step>, step: Step, server: string, f: string)
    requires NoFlightData(start) && AllLawful(before) && Undisturbed(before, server, f)
    requires Undisturbing(step, ActiveFlights(server)) && Undisturbing(step, FlightHistory(f))
    requires Positions(start, before, server, f) == LastN(Recorded(Stored(start, before, server), f), MAX_HISTORY)
    ensures Positions(start, before + [step], server, f) == LastN(Recorded(Stored(start, before + [step], server), f), MAX_HISTORY)
  {
    PositionsSnoc(start, before, step, server, f);
    StoredSnoc(start, before, step, server);
    if Attempts(step, server) {
      UndisturbedOwnStep(start, before, step, server, f, Stored(start, before, server), step.refresh.Next(Replay(start, before)));
    }
  }

  /** Undisturbed, the history's positions are exactly the newest 25 that were seen again. */
  lemma {:induction false} UndisturbedPositions(start: Entries, steps: seq<Step>, server: string, f: string)
    requires NoFlightData(start) && AllLawful(steps) && Undisturbed(steps, server, f)
    ensures Positions(start, steps, server, f) == LastN(Recorded(Stored(start, steps, server), f), MAX_HISTORY)
  {
    if steps != [] {
      var before, step := steps[..|steps| - 1], steps[|steps| - 1];
      assert steps == before + [step] && step in steps;
      UndisturbedPositions(start, before, server, f);
      UndisturbedPositionsStep(start, before, step, server, f);
    }
  }

  /** The cached history holds exactly the newest 25 of the observations at `at`, or is absent when
      there are none. */
  ghost predicate HoldsNewest(cached: Option<Value>, log: seq<seq<Flight>>, f: string, at: seq<nat>) {
    if at == [] then cached.None?
    else cached.Some? && cached.value.HistoryValue? && Observes(cached.value.observations, log, f, LastN(at, 25))
  }

  /** In every run in which the flight's own history and its server's snapshots are neither lost nor
      expired, whatever happens to all other keys, the flight's cached history is exactly the newest 25 of
      those of its observations that were followed by another observation in the next stored snapshot:
      oldest first, none missing, none twice, each stripped. */
  lemma HistoryIsExact(start: Entries, steps: seq<Step>, server: string, f: string)
    requires NoFlightData(start) && AllLawful(steps) && ListedOnlyOn(steps, server, f)
    requires f != "" && Undisturbed(steps, server, f)
    ensures var log := Stored(start, steps, server);
            HoldsNewest(At(Replay(start, steps), FlightHistory(f)), log, f, Recorded(log, f))
  {
    UndisturbedPositions(start, steps, server, f);
    HistoryObservesPositions(start, steps, server, f);
  }
}
