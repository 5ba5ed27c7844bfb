/** Calls of the flights job's Run as sequences of steps: what holds of every run of steps holds after any
    number of its calls, with anything happening around them. */
module FlightCalls {
  import opened Sequences
  import opened Keys
  import opened GameData
  import opened Cache
  import opened FlightsJob
  import opened FlightRuns
  import opened FlightFaults
  import opened FlightHistory

  // ----- One call

  /** The steps around and of one server's refresh. */
  function StepsOfRefresh(during: Conditions, refresh: Refresh): seq<Step> {
    [Expiring(during.expired), Foreign(during.written), Refreshing(refresh)]
  }

  /** The steps one call of the job's Run takes. */
  function StepsOfRun(entries: Entries, sessions: seq<GameSession>, at: int, world: nat -> Conditions, n: nat): seq<Step>
    requires n <= |sessions|
  {
    if n == 0 then []
    else
      var p := RefreshAll(entries, sessions, at, world, n - 1);
      StepsOfRun(entries, sessions, at, world, n - 1) +
      if sessions[n - 1].id == "" || sessions[n - 1].normalizedName == "" then []
      else StepsOfRefresh(world(n - 1), RefreshOf(sessions[n - 1], p.memo, at, world(n - 1)))
  }

  /** The other jobs keep to their own keys. */
  ghost predicate LawfulWorld(world: nat -> Conditions) {
    forall n :: NoFlightData(world(n).written)
  }

  lemma {:induction false} ReplayAppends(start: Entries, steps: seq<Step>, more: seq<Step>)
    ensures Replay(start, steps + more) == Replay(Replay(start, steps), more)
  {
    if more == [] {
      assert steps + more == steps;
    } else {
      ReplayAppends(start, steps, more[..|more| - 1]);
      assert (steps + more)[..|steps + more| - 1] == steps + more[..|more| - 1];
    }
  }

  lemma Snocs(steps: seq<Step>, a: Step, b: Step, c: Step)
    ensures steps + [a, b, c] == ((steps + [a]) + [b]) + [c]
  {
  }

  lemma ReplayTwo(start: Entries, steps: seq<Step>, a: Step, b: Step)
    ensures Replay(start, (steps + [a]) + [b]) == After(After(Replay(start, steps), a), b)
  {
    ReplaySnoc(start, steps, a);
    ReplaySnoc(start, steps + [a], b);
  }

  lemma ReplayThree(start: Entries, steps: seq<Step>, a: Step, b: Step, c: Step)
    ensures Replay(start, steps + [a, b, c]) == After(After(After(Replay(start, steps), a), b), c)
  {
    Snocs(steps, a, b, c);
    ReplayTwo(start, steps, a, b);
    ReplaySnoc(start, (steps + [a]) + [b], c);
  }

  lemma AfterInterval(entries: Entries, during: Conditions)
    ensures After(After(entries, Expiring(during.expired)), Foreign(during.written)) ==
            Meanwhile(entries, during.expired, during.written)
  {
  }

  lemma ReplayOfRefresh(start: Entries, steps: seq<Step>, during: Conditions, refresh: Refresh)
    ensures Replay(start, steps + StepsOfRefresh(during, refresh)) ==
            After(Meanwhile(Replay(start, steps), during.expired, during.written), Refreshing(refresh))
  {
    ReplayThree(start, steps, Expiring(during.expired), Foreign(during.written), Refreshing(refresh));
    AfterInterval(Replay(start, steps), during);
  }

  lemma LawfulMore(steps: seq<Step>, during: Conditions, refresh: Refresh)
    requires AllLawful(steps) && NoFlightData(during.written)
    ensures AllLawful(steps + StepsOfRefresh(during, refresh))
  {
  }

  /** The steps of the first sessions of a run. */
  function StepsFor(entries: Entries, sessions: seq<GameSession>, at: int, world: nat -> Conditions): nat -> seq<Step> {
    (n: nat) => if n <= |sessions| then StepsOfRun(entries, sessions, at, world, n) else []
  }

  /** After `n` sessions the run has got as far as a replay of its lawful steps. */
  ghost predicate Matches(entries: Entries, steps: nat -> seq<Step>, progress: nat -> Progress, n: nat) {
    Replay(entries, steps(n)) == progress(n).entries && AllLawful(steps(n))
  }

  lemma RefreshExtends(entries: Entries, steps: seq<Step>, p: Progress, session: GameSession, at: int, during: Conditions)
    requires Replay(entries, steps) == p.entries && AllLawful(steps) && NoFlightData(during.written)
    ensures var more := StepsOfRefresh(during, RefreshOf(session, p.memo, at, during));
            Replay(entries, steps + more) == Advance(p, session, at, during).entries && AllLawful(steps + more)
  {
    var refresh := RefreshOf(session, p.memo, at, during);
    ReplayOfRefresh(entries, steps, during, refresh);
    LawfulMore(steps, during, refresh);
  }

  /** The next session adds its refresh to the steps and to the progress, unless it lacks ID or name. */
  ghost predicate NextTurn(steps: nat -> seq<Step>, progress: nat -> Progress, session: GameSession, at: int, during: Conditions, n: nat) {
    if session.id == "" || session.normalizedName == "" then steps(n + 1) == steps(n) && progress(n + 1) == progress(n)
    else
      && steps(n + 1) == steps(n) + StepsOfRefresh(during, RefreshOf(session, progress(n).memo, at, during))
      && progress(n + 1) == Advance(progress(n), session, at, during)
  }

  lemma RunTakesTurns(entries: Entries, sessions: seq<GameSession>, at: int, world: nat -> Conditions, n: nat)
    requires n < |sessions|
    ensures NextTurn(StepsFor(entries, sessions, at, world), ProgressOf(entries, sessions, at, world), sessions[n], at, world(n), n)
  {
    assert StepsOfRun(entries, sessions, at, world, n) + [] == StepsOfRun(entries, sessions, at, world, n);
  }

  lemma {:induction false} TurnsMatch(entries: Entries, steps: nat -> seq<Step>, progress: nat -> Progress,
                                      sessions: seq<GameSession>, at: int, world: nat -> Conditions, n: nat)
    requires n <= |sessions| && LawfulWorld(world) && Matches(entries, steps, progress, 0)
    requires forall m: nat :: m < n ==> NextTurn(steps, progress, sessions[m], at, world(m), m)
    ensures Matches(entries, steps, progress, n)
  {
    if n > 0 {
      var m := n - 1;
      TurnsMatch(entries, steps, progress, sessions, at, world, m);
      assert NextTurn(steps, progress, sessions[m], at, world(m), m);
      if sessions[m].id != "" && sessions[m].normalizedName != "" {
        RefreshExtends(entries, steps(m), progress(m), sessions[m], at, world(m));
      }
    }
  }

  /** What Run does to the cache is a replay of steps, so everything said of runs holds of any sequence
      of its calls. */
  lemma RunIsSteps(entries: Entries, sessions: seq<GameSession>, at: int, world: nat -> Conditions)
    requires LawfulWorld(world)
    ensures Matches(entries, StepsFor(entries, sessions, at, world), ProgressOf(entries, sessions, at, world), |sessions|)
  {
    forall m: nat | m < |sessions|
      ensures NextTurn(StepsFor(entries, sessions, at, world), ProgressOf(entries, sessions, at, world), sessions[m], at, world(m), m)
    {
      RunTakesTurns(entries, sessions, at, world, m);
    }
    TurnsMatch(entries, StepsFor(entries, sessions, at, world), ProgressOf(entries, sessions, at, world), sessions, at, world, |sessions|);
  }

  /** One more call of Run after any steps: its effect is again a replay, of those steps and its own. */
  lemma RunExtendsReplay(start: Entries, steps: seq<Step>, faults: Faults, at: int, world: nat -> Conditions) returns (more: seq<Step>)
    requires AllLawful(steps) && LawfulWorld(world)
    ensures var entries := Replay(start, steps);
            var sessions := SessionsToRefresh(entries, faults);
            && more == StepsOfRun(entries, sessions, at, world, |sessions|)
            && RunEffect(entries, faults, at, world) == Replay(start, steps + more)
    ensures AllLawful(steps + more)
  {
    var entries := Replay(start, steps);
    var sessions := SessionsToRefresh(entries, faults);
    more := StepsOfRun(entries, sessions, at, world, |sessions|);
    RunIsSteps(entries, sessions, at, world);
    ReplayAppends(start, steps, more);
  }

  // ----- Any number of calls

  /** One call of Run, and what expires and what others write since the call before. */
  datatype Call = Call(expired: set<CacheKey>, written: Entries, faults: Faults, at: int, world: nat -> Conditions) {
    function Before(entries: Entries): Entries {
      Meanwhile(entries, expired, written)
    }

    function Sessions(entries: Entries): seq<GameSession> {
      SessionsToRefresh(Before(entries), faults)
    }

    function Effect(entries: Entries): Entries {
      RunEffect(Before(entries), faults, at, world)
    }

    function Interval(): seq<Step> {
      [Expiring(expired), Foreign(written)]
    }

    function Steps(entries: Entries): seq<Step> {
      Interval() + StepsOfRun(Before(entries), Sessions(entries), at, world, |Sessions(entries)|)
    }

    ghost predicate Lawful() {
      NoFlightData(written) && LawfulWorld(world)
    }
  }

  /** The cache after these calls of Run. */
  function Called(start: Entries, calls: seq<Call>): Entries {
    if calls == [] then start else calls[|calls| - 1].Effect(Called(start, calls[..|calls| - 1]))
  }

  function StepsOfCalls(start: Entries, calls: seq<Call>): seq<Step> {
    if calls == [] then []
    else StepsOfCalls(start, calls[..|calls| - 1]) + calls[|calls| - 1].Steps(Called(start, calls[..|calls| - 1]))
  }

  ghost predicate LawfulCalls(calls: seq<Call>) {
    forall i :: 0 <= i < |calls| ==> calls[i].Lawful()
  }

  lemma ReplayInterval(entries: Entries, call: Call)
    ensures Replay(entries, call.Interval()) == call.Before(entries)
  {
    var a, b := Expiring(call.expired), Foreign(call.written);
    assert call.Interval() == ([] + [a]) + [b];
    ReplaySnoc(entries, [], a);
    ReplaySnoc(entries, [] + [a], b);
  }

  lemma IntervalIsSteps(start: Entries, steps: seq<Step>, call: Call)
    requires AllLawful(steps) && call.Lawful()
    ensures Replay(start, steps + call.Interval()) == call.Before(Replay(start, steps))
    ensures AllLawful(steps + call.Interval())
  {
    ReplayInterval(Replay(start, steps), call);
    ReplayAppends(start, steps, call.Interval());
  }

  lemma CallIsSteps(start: Entries, steps: seq<Step>, call: Call)
    requires AllLawful(steps) && call.Lawful()
    ensures Replay(start, steps + call.Steps(Replay(start, steps))) == call.Effect(Replay(start, steps))
    ensures AllLawful(steps + call.Steps(Replay(start, steps)))
  {
    IntervalIsSteps(start, steps, call);
    var more := RunExtendsReplay(start, steps + call.Interval(), call.faults, call.at, call.world);
    Reassociate(steps, call.Interval(), more);
  }

  lemma Reassociate(a: seq<Step>, b: seq<Step>, c: seq<Step>)
    ensures a + (b + c) == (a + b) + c
  {
  }

  /** Any number of calls of Run is a replay of lawful steps. */
  lemma {:induction false} CallsAreSteps(start: Entries, calls: seq<Call>)
    requires LawfulCalls(calls)
    ensures Called(start, calls) == Replay(start, StepsOfCalls(start, calls))
    ensures AllLawful(StepsOfCalls(start, calls))
  {
    if calls != [] {
      var before, call := calls[..|calls| - 1], calls[|calls| - 1];
      CallsAreSteps(start, before);
      CallIsSteps(start, StepsOfCalls(start, before), call);
    }
  }

  // ----- What the calls list, and what they leave alone

  /** Every refresh of the call that lists `f` is one of `server`. */
  ghost predicate CallListsOnlyOn(entries: Entries, call: Call, server: string, f: string) {
    SessionsListOnlyOn(call.Sessions(entries), call.world, server, f)
  }

  ghost predicate SessionsListOnlyOn(sessions: seq<GameSession>, world: nat -> Conditions, server: string, f: string) {
    forall n: nat, u :: n < |sessions| && sessions[n].id != "" && sessions[n].normalizedName != "" && world(n).upstream.Some? && u in world(n).upstream.value
      ==> u.flightID == f ==> sessions[n].normalizedName == server
  }

  /** So does each of these calls, from the cache that the calls before it left. */
  ghost predicate CallsListOnlyOn(start: Entries, calls: seq<Call>, server: string, f: string) {
    calls == [] ||
    var before, call := calls[..|calls| - 1], calls[|calls| - 1];
    CallsListOnlyOn(start, before, server, f) && CallListsOnlyOn(Called(start, before), call, server, f)
  }

  lemma ListedMore(steps: seq<Step>, more: seq<Step>, server: string, f: string)
    requires ListedOnlyOn(steps, server, f) && ListedOnlyOn(more, server, f)
    ensures ListedOnlyOn(steps + more, server, f)
  {
  }

  /** A world that lists `f` only on `server` gives steps that do. */
  lemma {:induction false} RunListsOnlyOn(entries: Entries, sessions: seq<GameSession>, at: int, world: nat -> Conditions, n: nat, server: string, f: string)
    requires n <= |sessions| && SessionsListOnlyOn(sessions, world, server, f)
    ensures ListedOnlyOn(StepsOfRun(entries, sessions, at, world, n), server, f)
  {
    if n > 0 {
      var m := n - 1;
      RunListsOnlyOn(entries, sessions, at, world, m, server, f);
      if sessions[m].id != "" && sessions[m].normalizedName != "" {
        var p := RefreshAll(entries, sessions, at, world, m);
        var more := StepsOfRefresh(world(m), RefreshOf(sessions[m], p.memo, at, world(m)));
        ListedMore(StepsOfRun(entries, sessions, at, world, m), more, server, f);
      }
    }
  }

  lemma CallLists(entries: Entries, call: Call, server: string, f: string)
    requires CallListsOnlyOn(entries, call, server, f)
    ensures ListedOnlyOn(call.Steps(entries), server, f)
  {
    var before, sessions := call.Before(entries), call.Sessions(entries);
    RunListsOnlyOn(before, sessions, call.at, call.world, |sessions|, server, f);
    ListedMore(call.Interval(), StepsOfRun(before, sessions, call.at, call.world, |sessions|), server, f);
  }

  lemma {:induction false} CallsList(start: Entries, calls: seq<Call>, server: string, f: string)
    requires CallsListOnlyOn(start, calls, server, f)
    ensures ListedOnlyOn(StepsOfCalls(start, calls), server, f)
  {
    if calls != [] {
      var before, call := calls[..|calls| - 1], calls[|calls| - 1];
      CallsList(start, before, server, f);
      CallLists(Called(start, before), call, server, f);
      ListedMore(StepsOfCalls(start, before), call.Steps(Called(start, before)), server, f);
    }
  }

  /** No read or write of `key` fails in the call or is lost, and it does not expire. */
  ghost predicate Spares(call: Call, key: CacheKey) {
    key !in call.expired && WorldSpares(call.world, key)
  }

  ghost predicate WorldSpares(world: nat -> Conditions, key: CacheKey) {
    forall n: nat :: key !in world(n).expired && key !in world(n).faults.failedReads && key !in world(n).faults.lostWrites
  }

  ghost predicate AllSpare(calls: seq<Call>, key: CacheKey) {
    forall i :: 0 <= i < |calls| ==> Spares(calls[i], key)
  }

  ghost predicate AllUndisturbing(steps: seq<Step>, key: CacheKey) {
    forall step :: step in steps ==> Undisturbing(step, key)
  }

  lemma UndisturbingMore(steps: seq<Step>, more: seq<Step>, key: CacheKey)
    requires AllUndisturbing(steps, key) && AllUndisturbing(more, key)
    ensures AllUndisturbing(steps + more, key)
  {
  }

  lemma {:induction false} RunSpares(entries: Entries, sessions: seq<GameSession>, at: int, world: nat -> Conditions, n: nat, key: CacheKey)
    requires n <= |sessions| && WorldSpares(world, key)
    ensures AllUndisturbing(StepsOfRun(entries, sessions, at, world, n), key)
  {
    if n > 0 {
      var m := n - 1;
      RunSpares(entries, sessions, at, world, m, key);
      if sessions[m].id != "" && sessions[m].normalizedName != "" {
        var p := RefreshAll(entries, sessions, at, world, m);
        var more := StepsOfRefresh(world(m), RefreshOf(sessions[m], p.memo, at, world(m)));
        UndisturbingMore(StepsOfRun(entries, sessions, at, world, m), more, key);
      }
    }
  }

  lemma CallSpares(entries: Entries, call: Call, key: CacheKey)
    requires Spares(call, key)
    ensures AllUndisturbing(call.Steps(entries), key)
  {
    var before, sessions := call.Before(entries), call.Sessions(entries);
    RunSpares(before, sessions, call.at, call.world, |sessions|, key);
    UndisturbingMore(call.Interval(), StepsOfRun(before, sessions, call.at, call.world, |sessions|), key);
  }

  lemma {:induction false} CallsSpare(start: Entries, calls: seq<Call>, key: CacheKey)
    requires AllSpare(calls, key)
    ensures AllUndisturbing(StepsOfCalls(start, calls), key)
  {
    if calls != [] {
      var before, call := calls[..|calls| - 1], calls[|calls| - 1];
      CallsSpare(start, before, key);
      CallSpares(Called(start, before), call, key);
      UndisturbingMore(StepsOfCalls(start, before), call.Steps(Called(start, before)), key);
    }
  }

  // ----- Histories after any number of calls

  /** After any number of calls of Run, under all faults and with anything happening around them, the
      cached history of a flight lists exactly the observations at the positions of those calls' steps. */
  lemma CalledHistoryIsTraced(start: Entries, calls: seq<Call>, server: string, f: string)
    requires NoFlightData(start) && LawfulCalls(calls) && CallsListOnlyOn(start, calls, server, f) && f != ""
    ensures var steps := StepsOfCalls(start, calls);
            Traced(At(Called(start, calls), FlightHistory(f)), Stored(start, steps, server), f,
                   Positions(start, steps, server, f), LostSnapshots(steps, server))
  {
    CallsAreSteps(start, calls);
    CallsList(start, calls, server, f);
    HistoryObservesPositions(start, StepsOfCalls(start, calls), server, f);
  }

  /** After any number of calls that spare the flight's history and its server's snapshots, the cached
      history is exactly the newest 25 of the observations that were followed by another. */
  lemma CalledHistoryIsExact(start: Entries, calls: seq<Call>, server: string, f: string)
    requires NoFlightData(start) && LawfulCalls(calls) && CallsListOnlyOn(start, calls, server, f) && f != ""
    requires AllSpare(calls, ActiveFlights(server)) && AllSpare(calls, FlightHistory(f))
    ensures var log := Stored(start, StepsOfCalls(start, calls), server);
            HoldsNewest(At(Called(start, calls), FlightHistory(f)), log, f, Recorded(log, f))
  {
    CallsAreSteps(start, calls);
    CallsList(start, calls, server, f);
    CallsSpare(start, calls, ActiveFlights(server));
    CallsSpare(start, calls, FlightHistory(f));
    HistoryIsExact(start, StepsOfCalls(start, calls), server, f);
  }
}
