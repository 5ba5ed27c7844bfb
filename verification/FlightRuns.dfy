/** Whole runs of the flights refresh: any number of refreshes, interleaved with expiries and with the
    writes of the other jobs. */
module FlightRuns {
  import opened Sequences
  import opened Keys
  import opened GameData
  import opened Cache
  import opened FlightMapper
  import opened FlightsJob

  /** - Refreshing: the flights job refreshes one server
      - Expiring: entries reach their TTL
      - Foreign: other jobs or handlers write keys of their own */
  datatype Step =
    | Refreshing(refresh: Refresh)
    | Expiring(keys: set<CacheKey>)
    | Foreign(written: Entries)

  /** The keys only the flights job writes. */
  predicate FlightsKey(key: CacheKey) {
    key.ActiveFlights? || key.FlightHistory?
  }

  /** No entry under a key of the flights job. */
  ghost predicate NoFlightData(entries: Entries) {
    forall key :: key in entries ==> !FlightsKey(key)
  }

  ghost predicate Lawful(step: Step) {
    step.Foreign? ==> NoFlightData(step.written)
  }

  function After(entries: Entries, step: Step): Entries {
    match step
    case Refreshing(refresh) => refresh.Effect(entries)
    case Expiring(keys) => entries - keys
    case Foreign(written) => entries + written
  }

  function Replay(start: Entries, steps: seq<Step>): Entries {
    if steps == [] then start
    else After(Replay(start, steps[..|steps| - 1]), steps[|steps| - 1])
  }

  predicate Attempts(step: Step, server: string) {
    step.Refreshing? && step.refresh.upstream.Some? && step.refresh.session.normalizedName == server
  }

  /** The step refreshed `server`, but its snapshot write was lost after its history writes. */
  predicate Loses(step: Step, server: string) {
    Attempts(step, server) && ActiveFlights(server) in step.refresh.faults.lostWrites
  }

  predicate Stores(step: Step, server: string) {
    Attempts(step, server) && !Loses(step, server)
  }

  /** Every snapshot of `server` that reached the cache, oldest first. */
  function Stored(start: Entries, steps: seq<Step>, server: string): seq<seq<Flight>> {
    if steps == [] then []
    else
      var before, step := steps[..|steps| - 1], steps[|steps| - 1];
      if Stores(step, server)
      then Stored(start, before, server) + [step.refresh.Next(Replay(start, before))]
      else Stored(start, before, server)
  }

  function LostSnapshots(steps: seq<Step>, server: string): nat {
    if steps == [] then 0
    else LostSnapshots(steps[..|steps| - 1], server) + if Loses(steps[|steps| - 1], server) then 1 else 0
  }

  lemma ReplaySnoc(start: Entries, steps: seq<Step>, step: Step)
    ensures Replay(start, steps + [step]) == After(Replay(start, steps), step)
  {
    assert (steps + [step])[..|steps|] == steps;
  }

  lemma StoredSnoc(start: Entries, steps: seq<Step>, step: Step, server: string)
    ensures Stored(start, steps + [step], server) ==
            if Stores(step, server) then Stored(start, steps, server) + [step.refresh.Next(Replay(start, steps))]
            else Stored(start, steps, server)
  {
    assert (steps + [step])[..|steps|] == steps;
  }

  lemma LostSnapshotsSnoc(steps: seq<Step>, step: Step, server: string)
    ensures LostSnapshots(steps + [step], server) == LostSnapshots(steps, server) + if Loses(step, server) then 1 else 0
  {
    assert (steps + [step])[..|steps|] == steps;
  }

  // ----- One refresh, key by key

  function At(entries: Entries, key: CacheKey): Option<Value> {
    if key in entries then Some(entries[key]) else None
  }

  lemma WithHistoryElsewhere(entries: Entries, faults: Faults, existing: seq<Flight>, id: string, key: CacheKey)
    requires key != FlightHistory(id)
    ensures At(WithHistory(entries, faults, existing, id), key) == At(entries, key)
  {
  }

  /** What becomes of a history key depends on nothing else in the cache. */
  lemma WithHistoryReadsOwnKey(entries: Entries, entries': Entries, faults: Faults, existing: seq<Flight>, id: string)
    requires At(entries, FlightHistory(id)) == At(entries', FlightHistory(id))
    ensures At(WithHistory(entries, faults, existing, id), FlightHistory(id)) ==
            At(WithHistory(entries', faults, existing, id), FlightHistory(id))
  {
  }

  lemma {:induction false} WithHistoriesAt(entries: Entries, faults: Faults, existing: seq<Flight>, ids: seq<string>, key: CacheKey)
    requires Distinct(ids)
    ensures At(WithHistories(entries, faults, existing, ids), key) ==
            if key.FlightHistory? && key.flightID in ids
            then At(WithHistory(entries, faults, existing, key.flightID), key)
            else At(entries, key)
  {
    if ids != [] {
      var before, last := ids[..|ids| - 1], ids[|ids| - 1];
      assert ids == before + [last] && last !in before;
      WithHistoriesAt(entries, faults, existing, before, key);
      var earlier := WithHistories(entries, faults, existing, before);
      if key == FlightHistory(last) {
        WithHistoryReadsOwnKey(earlier, entries, faults, existing, last);
      } else {
        WithHistoryElsewhere(earlier, faults, existing, last, key);
      }
    }
  }

  /** What a refresh leaves under each key. */
  lemma EffectAt(refresh: Refresh, entries: Entries, key: CacheKey)
    requires refresh.upstream.Some?
    ensures At(refresh.Effect(entries), key) ==
            if key == ActiveFlights(refresh.session.normalizedName) && key !in refresh.faults.lostWrites
            then Some(FlightsValue(FlightsSnapshot(refresh.Next(entries), refresh.at)))
            else if key.FlightHistory? && Lookup(refresh.Next(entries), key.flightID).Some?
            then At(WithHistory(entries, refresh.faults, refresh.Existing(entries), key.flightID), key)
            else At(entries, key)
  {
    UpsertIdentities(refresh.Existing(entries), refresh.Mapped(entries).flights);
    WithHistoriesAt(entries, refresh.faults, refresh.Existing(entries), IDs(refresh.Next(entries)), key);
  }

  /** Refreshing one server touches its own snapshot key and the history keys of the flights that are
      in both its old and its new snapshot, and no other key of the cache. */
  lemma RefreshIsLocal(refresh: Refresh, entries: Entries, key: CacheKey)
    requires refresh.upstream.Some?
    requires At(refresh.Effect(entries), key) != At(entries, key)
    ensures key == ActiveFlights(refresh.session.normalizedName)
            || (key.FlightHistory? && key.flightID != ""
                && Lookup(refresh.Existing(entries), key.flightID).Some?
                && Lookup(refresh.Next(entries), key.flightID).Some?)
  {
    EffectAt(refresh, entries, key);
  }

  lemma WithHistoryAt(entries: Entries, faults: Faults, existing: seq<Flight>, f: string)
    requires f != ""
    ensures var key := FlightHistory(f);
            At(WithHistory(entries, faults, existing, f), key) ==
            if Lookup(existing, f).Some? && key !in faults.lostWrites
            then Some(HistoryValue(NextHistory(LoadedHistory(entries, faults, f, Lookup(existing, f).value), Lookup(existing, f).value)))
            else At(entries, key)
  {
  }

  /** The history of one flight across one refresh. */
  lemma HistoryAcrossRefresh(refresh: Refresh, entries: Entries, f: string)
    requires refresh.upstream.Some? && f != ""
    ensures var key := FlightHistory(f);
            var existing := refresh.Existing(entries);
            At(refresh.Effect(entries), key) ==
            if Lookup(existing, f).Some? && Lookup(refresh.Next(entries), f).Some? && key !in refresh.faults.lostWrites
            then Some(HistoryValue(NextHistory(LoadedHistory(entries, refresh.faults, f, Lookup(existing, f).value), Lookup(existing, f).value)))
            else At(entries, key)
  {
    EffectAt(refresh, entries, FlightHistory(f));
    WithHistoryAt(entries, refresh.faults, refresh.Existing(entries), f);
  }

  lemma SnapshotAcrossRefresh(refresh: Refresh, entries: Entries, server: string)
    requires refresh.upstream.Some?
    ensures var key := ActiveFlights(server);
            At(refresh.Effect(entries), key) ==
            if server == refresh.session.normalizedName && key !in refresh.faults.lostWrites
            then Some(FlightsValue(FlightsSnapshot(refresh.Next(entries), refresh.at)))
            else At(entries, key)
  {
    EffectAt(refresh, entries, ActiveFlights(server));
  }

  // ----- What holds of snapshots in every run

  ghost predicate AllLawful(steps: seq<Step>) {
    forall step :: step in steps ==> Lawful(step)
  }

  /** Upstream lists the flight `f` on `server` only; other flights may be anywhere. */
  ghost predicate ListedOnlyOn(steps: seq<Step>, server: string, f: string) {
    forall step, u :: step in steps && step.Refreshing? && step.refresh.upstream.Some? && u in step.refresh.upstream.value
      ==> u.flightID == f ==> step.refresh.session.normalizedName == server
  }

  lemma SnapshotAcrossStep(entries: Entries, step: Step, server: string)
    requires Lawful(step)
    ensures var before, after := At(entries, ActiveFlights(server)), At(After(entries, step), ActiveFlights(server));
            if Stores(step, server)
            then after == Some(FlightsValue(FlightsSnapshot(step.refresh.Next(entries), step.refresh.at)))
            else after == before || after.None?
  {
    assert FlightsKey(ActiveFlights(server));
    if step.Refreshing? && step.refresh.upstream.Some? {
      SnapshotAcrossRefresh(step.refresh, entries, server);
    }
  }

  /** A cached snapshot, if still there, is the one stored last. */
  lemma {:induction false} SnapshotIsLastStored(start: Entries, steps: seq<Step>, server: string)
    requires NoFlightData(start) && AllLawful(steps)
    ensures var cached := At(Replay(start, steps), ActiveFlights(server));
            cached.Some? ==>
              && Stored(start, steps, server) != []
              && cached.value.FlightsValue?
              && cached.value.flights.result == Stored(start, steps, server)[|Stored(start, steps, server)| - 1]
  {
    if steps != [] {
      var before, step := steps[..|steps| - 1], steps[|steps| - 1];
      SnapshotIsLastStored(start, before, server);
      assert step in steps;
      SnapshotAcrossStep(Replay(start, before), step, server);
    }
  }

  /** Stored snapshots carry no nested history. */
  lemma {:induction false} StoredSnapshotsAreFlat(start: Entries, steps: seq<Step>, server: string, f: string)
    ensures forall i :: 0 <= i < |Stored(start, steps, server)| && Lookup(Stored(start, steps, server)[i], f).Some? ==>
              Lookup(Stored(start, steps, server)[i], f).value.history == []
  {
    if steps != [] {
      var before, step := steps[..|steps| - 1], steps[|steps| - 1];
      StoredSnapshotsAreFlat(start, before, server, f);
      if Stores(step, server) {
        UpsertIdentities(step.refresh.Existing(Replay(start, before)), step.refresh.Mapped(Replay(start, before)).flights);
      }
    }
  }

  lemma NextIsListed(refresh: Refresh, entries: Entries, f: string)
    requires refresh.upstream.Some? && Lookup(refresh.Next(entries), f).Some?
    ensures exists u :: u in refresh.upstream.value && u.flightID == f
  {
    var mapped := refresh.Mapped(entries).flights;
    UpsertIdentities(refresh.Existing(entries), mapped);
    var i :| 0 <= i < |mapped| && IDs(mapped)[i] == f;
    assert refresh.upstream.value[i] in refresh.upstream.value;
  }

  function LastStored(start: Entries, steps: seq<Step>, server: string): seq<Flight> {
    var log := Stored(start, steps, server);
    if log == [] then [] else log[|log| - 1]
  }

  /** A step that is no refresh of the flight's own server leaves the history alone, unless it expires. */
  lemma HistoryAcrossOtherStep(entries: Entries, step: Step, server: string, f: string)
    requires f != "" && Lawful(step) && ListedOnlyOn([step], server, f)
    requires !Attempts(step, server)
    ensures At(After(entries, step), FlightHistory(f)) ==
            if step.Expiring? && FlightHistory(f) in step.keys then None else At(entries, FlightHistory(f))
  {
    assert step in [step] && FlightsKey(FlightHistory(f));
    if step.Refreshing? && step.refresh.upstream.Some? {
      if Lookup(step.refresh.Next(entries), f).Some? {
        NextIsListed(step.refresh, entries, f);
      }
      HistoryAcrossRefresh(step.refresh, entries, f);
    }
  }

  // ----- Observations of a flight in the stored snapshots

  predicate Present(log: seq<seq<Flight>>, f: string, i: nat) {
    i < |log| && Lookup(log[i], f).Some?
  }

  predicate SeenAgain(log: seq<seq<Flight>>, f: string, i: nat) {
    Present(log, f, i) && Present(log, f, i + 1)
  }

  /** `history` lists, in this order, the observations of `f` at the positions `at` of `log`, each without
      its nested history and its path-sync mark. */
  predicate Observes(history: seq<Flight>, log: seq<seq<Flight>>, f: string, at: seq<nat>) {
    && |history| == |at|
    && forall k :: 0 <= k < |at| ==> Present(log, f, at[k]) && history[k] == Lookup(log[at[k]], f).value.(history := [], pathSync := None)
  }

  lemma ObservesMore(history: seq<Flight>, log: seq<seq<Flight>>, f: string, at: seq<nat>, more: seq<seq<Flight>>)
    requires Observes(history, log, f, at)
    ensures Observes(history, log + more, f, at)
  {
  }

  lemma ObservesFrom(history: seq<Flight>, log: seq<seq<Flight>>, f: string, at: seq<nat>, from: nat)
    requires Observes(history, log, f, at) && from <= |at|
    ensures Observes(history[from..], log, f, at[from..])
  {
    forall k | 0 <= k < |at[from..]|
      ensures Present(log, f, at[from..][k]) && history[from..][k] == Stripped(Lookup(log[at[from..][k]], f).value)
    {
      assert at[from..][k] == at[from + k] && history[from..][k] == history[from + k];
    }
  }

  lemma ObservesNewest(history: seq<Flight>, log: seq<seq<Flight>>, f: string, at: seq<nat>, n: nat)
    requires Observes(history, log, f, at)
    ensures Observes(LastN(history, n), log, f, LastN(at, n))
  {
    var from := if |at| > n then |at| - n else 0;
    ObservesFrom(history, log, f, at, from);
    assert LastN(history, n) == history[from..] && LastN(at, n) == at[from..];
  }

  lemma NextHistoryObserves(history: seq<Flight>, prior: Flight, log: seq<seq<Flight>>, f: string, at: seq<nat>)
    requires log != [] && Lookup(log[|log| - 1], f) == Some(prior)
    requires Observes(history, log, f, at)
    ensures Observes(NextHistory(history, prior), log, f, LastN(at + [|log| - 1], MAX_HISTORY))
  {
    ObservesNewest(history + [Stripped(prior)], log, f, at + [|log| - 1], MAX_HISTORY);
  }
}
