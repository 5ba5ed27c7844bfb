/** What per-flight history is under every pattern of failed reads, lost or unacknowledged writes and
    expiries: which stored snapshots it observes, and exactly when one of them stands in it twice. */
module FlightFaults {
  import opened Sequences
  import opened Keys
  import opened GameData
  import opened Cache
  import opened FlightMapper
  import opened FlightsJob
  import opened FlightRuns

  // ----- Which snapshots a history observes

  /** The step writes the history of `f`: its refresh read a prior observation of `f`, lists `f` again,
      and its history write got through. */
  predicate Records(entries: Entries, step: Step, server: string, f: string) {
    && Attempts(step, server)
    && Lookup(step.refresh.Existing(entries), f).Some?
    && Lookup(step.refresh.Next(entries), f).Some?
    && FlightHistory(f) !in step.refresh.faults.lostWrites
  }

  /** The step could read the history of `f`, were it to write it. */
  predicate ReadsHistory(step: Step, f: string) {
    step.Refreshing? && FlightHistory(f) !in step.refresh.faults.failedReads
  }

  predicate HistoryExpires(step: Step, f: string) {
    step.Expiring? && FlightHistory(f) in step.keys
  }

  function NewestPosition(log: seq<seq<Flight>>): nat {
    if log == [] then 0 else |log| - 1
  }

  /** One more step: a recording appends the newest stored position, to nothing if the history could not
      be read; an expiry forgets everything. */
  function NextPositions(at: seq<nat>, records: bool, readable: bool, expires: bool, newest: nat): seq<nat> {
    if records then LastN((if readable then at else []) + [newest], MAX_HISTORY)
    else if expires then []
    else at
  }

  /** The positions in `Stored(start, steps, server)` of the observations that the history of `f` lists. */
  function Positions(start: Entries, steps: seq<Step>, server: string, f: string): seq<nat>
    decreases |steps|, 0
  {
    if steps == [] then []
    else PositionsAfter(start, steps[..|steps| - 1], steps[|steps| - 1], server, f)
  }

  function PositionsAfter(start: Entries, before: seq<Step>, step: Step, server: string, f: string): seq<nat>
    decreases |before|, 1
  {
    NextPositions(
      Positions(start, before, server, f),
      Records(Replay(start, before), step, server, f), ReadsHistory(step, f), HistoryExpires(step, f),
      NewestPosition(Stored(start, before, server)))
  }

  lemma PositionsSnoc(start: Entries, steps: seq<Step>, step: Step, server: string, f: string)
    ensures Positions(start, steps + [step], server, f) == PositionsAfter(start, steps, step, server, f)
  {
    assert (steps + [step])[..|steps|] == steps;
  }

  /** How many neighbours in `at` are equal. */
  function Repeats(at: seq<nat>): nat {
    var n := |at|;
    if n < 2 then 0
    else Repeats(at[..n - 1]) + if at[n - 2] == at[n - 1] then 1 else 0
  }

  lemma {:induction false} RepeatsOfTail(at: seq<nat>)
    requires at != []
    ensures Repeats(at[1..]) <= Repeats(at)
  {
    if |at| > 2 {
      RepeatsOfTail(at[..|at| - 1]);
      assert at[..|at| - 1][1..] == at[1..][..|at| - 2];
    }
  }

  lemma {:induction false} NoRepeatsIncreasing(at: seq<nat>)
    requires NonDecreasing(at) && Repeats(at) == 0
    ensures Increasing(at)
  {
    if |at| >= 2 {
      NoRepeatsIncreasing(at[..|at| - 1]);
    }
  }

  /** 1 when the newest history entry is the observation in the snapshot still to be superseded. */
  function Pending(at: seq<nat>, log: seq<seq<Flight>>): nat {
    if at != [] && at[|at| - 1] == |log| - 1 then 1 else 0
  }

  predicate InOrder(at: seq<nat>) {
    NonDecreasing(at) && |at| <= 25
  }

  /** Repetitions, one still possible included, are no more than `lost`. */
  predicate WithinBudget(at: seq<nat>, log: seq<seq<Flight>>, lost: nat) {
    Repeats(at) + Pending(at, log) <= lost
  }

  // ----- The history observes exactly these positions

  /** The history observes `f` at the positions `at` of `log`, never going backwards, at most 25 of them,
      with repetitions paid for by lost snapshot writes. */
  ghost predicate Follows(history: seq<Flight>, log: seq<seq<Flight>>, f: string, at: seq<nat>, lost: nat) {
    Observes(history, log, f, at) && InOrder(at) && WithinBudget(at, log, lost)
  }

  ghost predicate Traced(cached: Option<Value>, log: seq<seq<Flight>>, f: string, at: seq<nat>, lost: nat) {
    if at == [] then cached.None?
    else cached.Some? && cached.value.HistoryValue? && Follows(cached.value.observations, log, f, at, lost)
  }

  lemma FollowsMore(history: seq<Flight>, log: seq<seq<Flight>>, f: string, at: seq<nat>, lost: nat, next: seq<Flight>)
    requires Follows(history, log, f, at, lost)
    ensures Follows(history, log, f, at, lost + 1) && Follows(history, log + [next], f, at, lost)
  {
    ObservesMore(history, log, f, at, [next]);
    ObservedIsStored(history, log, f, at);
    SupersededBudget(at, log, next, lost);
  }

  lemma SupersededBudget(at: seq<nat>, log: seq<seq<Flight>>, next: seq<Flight>, lost: nat)
    requires WithinBudget(at, log, lost) && UpTo(at, |log| - 1)
    ensures WithinBudget(at, log + [next], lost)
  {
  }

  lemma ObservedIsStored(history: seq<Flight>, log: seq<seq<Flight>>, f: string, at: seq<nat>)
    requires Observes(history, log, f, at)
    ensures UpTo(at, |log| - 1)
  {
  }

  predicate UpTo(at: seq<nat>, p: int) {
    forall k :: 0 <= k < |at| ==> at[k] <= p
  }

  lemma AppendedOrder(at: seq<nat>, p: nat)
    requires InOrder(at) && UpTo(at, p)
    ensures InOrder(LastN(at + [p], MAX_HISTORY))
  {
    OrderSnoc(at, p);
    CappedOrder(at + [p], MAX_HISTORY);
  }

  lemma {:induction false} AppendedRepeats(at: seq<nat>, p: nat)
    requires |at| <= MAX_HISTORY
    ensures Repeats(LastN(at + [p], MAX_HISTORY)) <= Repeats(at) + if at != [] && at[|at| - 1] == p then 1 else 0
  {
    RepeatsSnoc(at, p);
    CappedRepeats(at + [p], MAX_HISTORY);
  }

  lemma OrderSnoc(at: seq<nat>, p: nat)
    requires NonDecreasing(at) && UpTo(at, p)
    ensures NonDecreasing(at + [p])
  {
  }

  lemma CappedOrder(at: seq<nat>, n: nat)
    requires NonDecreasing(at) && n > 0 && at != []
    ensures NonDecreasing(LastN(at, n))
    ensures LastN(at, n) != [] && LastN(at, n)[|LastN(at, n)| - 1] == at[|at| - 1]
  {
  }

  lemma CappedRepeats(at: seq<nat>, n: nat)
    requires |at| <= n + 1
    ensures Repeats(LastN(at, n)) <= Repeats(at)
  {
    if |at| == n + 1 {
      RepeatsOfTail(at);
      assert LastN(at, n) == at[1..];
    }
  }

  lemma RepeatsSnoc(at: seq<nat>, p: nat)
    ensures Repeats(at + [p]) == Repeats(at) + if at != [] && at[|at| - 1] == p then 1 else 0
  {
    assert (at + [p])[..|at|] == at;
  }

  lemma NoLongerPending(at: seq<nat>, log: seq<seq<Flight>>, next: seq<Flight>)
    requires at != [] && log != [] && at[|at| - 1] == |log| - 1
    ensures Pending(at, log) == 1 && Pending(at, log + [next]) == 0
  {
  }

  lemma AppendedBudget(at: seq<nat>, log: seq<seq<Flight>>, next: seq<Flight>, lost: nat)
    requires log != [] && |at| <= MAX_HISTORY && WithinBudget(at, log, lost)
    ensures var at' := LastN(at + [|log| - 1], MAX_HISTORY);
            WithinBudget(at', log, lost + 1) && WithinBudget(at', log + [next], lost)
  {
    AppendedRepeats(at, |log| - 1);
    var at' := LastN(at + [|log| - 1], MAX_HISTORY);
    assert at'[|at'| - 1] == |log| - 1;
    NoLongerPending(at', log, next);
  }

  lemma ObservedAppend(history: seq<Flight>, prior: Flight, log: seq<seq<Flight>>, f: string, at: seq<nat>, next: seq<Flight>, at': seq<nat>)
    requires log != [] && Lookup(log[|log| - 1], f) == Some(prior)
    requires Observes(history, log, f, at) && at' == LastN(at + [|log| - 1], MAX_HISTORY)
    ensures Observes(NextHistory(history, prior), log, f, at') && Observes(NextHistory(history, prior), log + [next], f, at')
  {
    NextHistoryObserves(history, prior, log, f, at);
    ObservesMore(NextHistory(history, prior), log, f, at', [next]);
  }

  /** Order and budget of the positions after an append. */
  lemma AppendedPositions(history: seq<Flight>, log: seq<seq<Flight>>, f: string, at: seq<nat>, lost: nat, next: seq<Flight>)
    requires log != [] && Follows(history, log, f, at, lost)
    ensures var at' := LastN(at + [|log| - 1], MAX_HISTORY);
            InOrder(at') && WithinBudget(at', log, lost + 1) && WithinBudget(at', log + [next], lost)
  {
    ObservedIsStored(history, log, f, at);
    AppendedOrder(at, |log| - 1);
    AppendedBudget(at, log, next, lost);
  }

  /** The history grows by the observation in the newest stored snapshot; whether the new snapshot is
      stored after it (`next`) or lost decides whether that observation may be recorded again. */
  lemma FollowsAppend(history: seq<Flight>, prior: Flight, log: seq<seq<Flight>>, f: string, at: seq<nat>, lost: nat, next: seq<Flight>, at': seq<nat>)
    requires log != [] && Lookup(log[|log| - 1], f) == Some(prior)
    requires Follows(history, log, f, at, lost) && at' == LastN(at + [|log| - 1], MAX_HISTORY)
    ensures Follows(NextHistory(history, prior), log, f, at', lost + 1) && Follows(NextHistory(history, prior), log + [next], f, at', lost)
  {
    AppendedPositions(history, log, f, at, lost, next);
    ObservedAppend(history, prior, log, f, at, next, at');
  }

  /** The history a refresh loads observes the positions of the cached one, or none when unreadable. */
  lemma LoadedFollows(entries: Entries, faults: Faults, prior: Flight, log: seq<seq<Flight>>, f: string, at: seq<nat>, lost: nat)
    requires prior.history == [] && Traced(At(entries, FlightHistory(f)), log, f, at, lost)
    ensures Follows(LoadedHistory(entries, faults, f, prior), log, f, if FlightHistory(f) !in faults.failedReads then at else [], lost)
  {
  }

  lemma TracedMore(cached: Option<Value>, log: seq<seq<Flight>>, f: string, at: seq<nat>, lost: nat, next: seq<Flight>)
    requires Traced(cached, log, f, at, lost)
    ensures Traced(cached, log, f, at, lost + 1) && Traced(cached, log + [next], f, at, lost)
  {
    if at != [] {
      FollowsMore(cached.value.observations, log, f, at, lost, next);
    }
  }

  /** Traced, whether the snapshot write after the history write is lost or stores `next`. */
  ghost predicate TracedEitherWay(cached: Option<Value>, log: seq<seq<Flight>>, next: seq<Flight>, f: string, at: seq<nat>, lost: nat) {
    Traced(cached, log, f, at, lost + 1) && Traced(cached, log + [next], f, at, lost)
  }

  /** The prior snapshot a refresh works with: none, or the newest stored one, with no nested history. */
  ghost predicate ReadsNewest(existing: seq<Flight>, log: seq<seq<Flight>>, f: string) {
    && (existing == [] || (log != [] && existing == log[|log| - 1]))
    && (Lookup(existing, f).Some? ==> Lookup(existing, f).value.history == [])
  }

  /** A refresh that writes the history, from a loaded one that is traced. */
  lemma TracedAfterRecording(cached: Option<Value>, history: seq<Flight>, prior: Flight, log: seq<seq<Flight>>, f: string,
                             at: seq<nat>, lost: nat, next: seq<Flight>)
    requires log != [] && Lookup(log[|log| - 1], f) == Some(prior)
    requires Follows(history, log, f, at, lost)
    requires cached == Some(HistoryValue(NextHistory(history, prior)))
    ensures TracedEitherWay(cached, log, next, f, LastN(at + [|log| - 1], MAX_HISTORY), lost)
  {
    FollowsAppend(history, prior, log, f, at, lost, next, LastN(at + [|log| - 1], MAX_HISTORY));
  }

  lemma RecordingWrites(step: Step, entries: Entries, server: string, f: string)
    requires f != "" && Records(entries, step, server, f)
    ensures var prior := Lookup(step.refresh.Existing(entries), f).value;
            At(After(entries, step), FlightHistory(f)) ==
            Some(HistoryValue(NextHistory(LoadedHistory(entries, step.refresh.faults, f, prior), prior)))
  {
    HistoryAcrossRefresh(step.refresh, entries, f);
  }

  lemma TracedAcrossRefresh(step: Step, entries: Entries, server: string, log: seq<seq<Flight>>, f: string, at: seq<nat>, lost: nat)
    requires f != "" && Attempts(step, server)
    requires ReadsNewest(step.refresh.Existing(entries), log, f)
    requires Traced(At(entries, FlightHistory(f)), log, f, at, lost)
    ensures TracedEitherWay(
              At(After(entries, step), FlightHistory(f)), log, step.refresh.Next(entries), f,
              NextPositions(at, Records(entries, step, server, f), ReadsHistory(step, f), HistoryExpires(step, f), NewestPosition(log)),
              lost)
  {
    var faults, next := step.refresh.faults, step.refresh.Next(entries);
    if Records(entries, step, server, f) {
      var prior := Lookup(step.refresh.Existing(entries), f).value;
      RecordingWrites(step, entries, server, f);
      LoadedFollows(entries, faults, prior, log, f, at, lost);
      TracedAfterRecording(At(After(entries, step), FlightHistory(f)), LoadedHistory(entries, faults, f, prior), prior, log, f,
                           if ReadsHistory(step, f) then at else [], lost, next);
    } else {
      HistoryAcrossRefresh(step.refresh, entries, f);
      TracedMore(At(entries, FlightHistory(f)), log, f, at, lost, next);
    }
  }

  /** What holds of the history of `f` after these steps. */
  ghost predicate HistoryTraced(start: Entries, steps: seq<Step>, server: string, f: string) {
    Traced(At(Replay(start, steps), FlightHistory(f)), Stored(start, steps, server), f,
           Positions(start, steps, server, f), LostSnapshots(steps, server))
  }

  lemma OwnRefreshReads(start: Entries, before: seq<Step>, refresh: Refresh, server: string, f: string)
    requires NoFlightData(start) && AllLawful(before)
    requires refresh.session.normalizedName == server
    ensures ReadsNewest(refresh.Existing(Replay(start, before)), Stored(start, before, server), f)
  {
    SnapshotIsLastStored(start, before, server);
    StoredSnapshotsAreFlat(start, before, server, f);
  }

  lemma OwnRefreshTraced(start: Entries, before: seq<Step>, step: Step, server: string, f: string)
    requires NoFlightData(start) && AllLawful(before)
    requires f != "" && Attempts(step, server)
    requires HistoryTraced(start, before, server, f)
    ensures TracedEitherWay(
              At(After(Replay(start, before), step), FlightHistory(f)),
              Stored(start, before, server), step.refresh.Next(Replay(start, before)), f,
              PositionsAfter(start, before, step, server, f), LostSnapshots(before, server))
  {
    OwnRefreshReads(start, before, step.refresh, server, f);
    TracedAcrossRefresh(step, Replay(start, before), server, Stored(start, before, server), f,
                        Positions(start, before, server, f), LostSnapshots(before, server));
  }

  lemma OwnStepTraced(start: Entries, before: seq<Step>, step: Step, server: string, f: string)
    requires NoFlightData(start) && AllLawful(before)
    requires f != "" && Attempts(step, server)
    requires HistoryTraced(start, before, server, f)
    ensures HistoryTraced(start, before + [step], server, f)
  {
    OwnRefreshTraced(start, before, step, server, f);
    ReplaySnoc(start, before, step);
    StoredSnoc(start, before, step, server);
    PositionsSnoc(start, before, step, server, f);
    LostSnapshotsSnoc(before, step, server);
  }

  lemma OtherStepTraced(start: Entries, before: seq<Step>, step: Step, server: string, f: string)
    requires f != "" && Lawful(step) && ListedOnlyOn([step], server, f) && !Attempts(step, server)
    requires HistoryTraced(start, before, server, f)
    ensures HistoryTraced(start, before + [step], server, f)
  {
    HistoryAcrossOtherStep(Replay(start, before), step, server, f);
    ReplaySnoc(start, before, step);
    StoredSnoc(start, before, step, server);
    PositionsSnoc(start, before, step, server, f);
    LostSnapshotsSnoc(before, step, server);
  }

  /** Under every pattern of failed reads, lost or unacknowledged writes and expiries, the cached history
      of a flight lists exactly the observations at `Positions`, and is absent exactly when there are
      none.  They never go backwards in refresh order, are at most 25, and repeat at most once per lost
      snapshot write of the flight's server. */
  lemma {:induction false} HistoryObservesPositions(start: Entries, steps: seq<Step>, server: string, f: string)
    requires NoFlightData(start) && AllLawful(steps) && ListedOnlyOn(steps, server, f)
    requires f != ""
    ensures HistoryTraced(start, steps, server, f)
  {
    if steps != [] {
      var before, step := steps[..|steps| - 1], steps[|steps| - 1];
      assert steps == before + [step] && step in steps;
      HistoryObservesPositions(start, before, server, f);
      if Attempts(step, server) {
        OwnStepTraced(start, before, step, server, f);
      } else {
        OtherStepTraced(start, before, step, server, f);
      }
    }
  }
}
