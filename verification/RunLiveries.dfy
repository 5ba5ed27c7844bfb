/** The livery memo over a whole call of the flights job's Run: which read each row's livery comes from
    (internal/jobs/flights/job.go). */
module RunLiveries {
  import opened Sequences
  import opened Keys
  import opened GameData
  import opened Cache
  import opened Liveries
  import opened FlightsJob
  import opened FlightRuns
  import opened FlightNames

  /** The lookups that mapping these rows makes. */
  function Asks(rows: seq<UpstreamFlight>, entries: Entries, faults: Faults): (r: seq<Ask>)
    ensures |r| == |rows|
    ensures forall i :: 0 <= i < |r| ==> r[i] == Ask(rows[i].liveryID, entries, faults)
  {
    seq(|rows|, i requires 0 <= i < |rows| => Ask(rows[i].liveryID, entries, faults))
  }

  /** The cache when the refresh that starts from `p` begins. */
  function EntriesFor(p: Progress, during: Conditions): Entries {
    Meanwhile(p.entries, during.expired, during.written)
  }

  /** The n-th session is refreshed and upstream answers. */
  predicate MapsRows(sessions: seq<GameSession>, world: nat -> Conditions, n: nat) {
    n < |sessions| && sessions[n].id != "" && sessions[n].normalizedName != "" && world(n).upstream.Some?
  }

  /** The lookups of one session, after the progress made by those before it. */
  function AsksOf(p: Progress, session: GameSession, during: Conditions): seq<Ask> {
    if session.id == "" || session.normalizedName == "" || during.upstream.None? then []
    else Asks(during.upstream.value, EntriesFor(p, during), during.faults)
  }

  /** The lookups of the first `n` sessions, in order. */
  function AskedBefore(progress: nat -> Progress, sessions: seq<GameSession>, world: nat -> Conditions, n: nat): seq<Ask>
    requires n <= |sessions|
  {
    if n == 0 then []
    else AskedBefore(progress, sessions, world, n - 1) + AsksOf(progress(n - 1), sessions[n - 1], world(n - 1))
  }

  lemma MemoSnoc(asked: seq<Ask>, ask: Ask)
    ensures MemoAfter(asked + [ask]) == Recall(MemoAfter(asked), ask.Reads(), ask.id).memo
  {
    assert (asked + [ask])[..|asked|] == asked;
  }

  lemma AsksSnoc(asked: seq<Ask>, rows: seq<UpstreamFlight>, entries: Entries, faults: Faults)
    requires rows != []
    ensures var n := |rows| - 1;
            asked + Asks(rows, entries, faults) ==
            (asked + Asks(rows[..n], entries, faults)) + [Ask(rows[n].liveryID, entries, faults)]
  {
  }

  /** Mapping the rows of one server makes the next lookups. */
  lemma {:induction false} MappingAsks(entries: Entries, faults: Faults, memo: Memo, session: GameSession, rows: seq<UpstreamFlight>,
                                       existing: seq<Flight>, at: int, asked: seq<Ask>)
    requires memo == MemoAfter(asked)
    ensures MapFlights(entries, faults, memo, session, rows, existing, at).memo == MemoAfter(asked + Asks(rows, entries, faults))
  {
    if rows == [] {
      assert asked + Asks(rows, entries, faults) == asked;
    } else {
      var init, last := rows[..|rows| - 1], rows[|rows| - 1];
      MappingAsks(entries, faults, memo, session, init, existing, at, asked);
      AsksSnoc(asked, rows, entries, faults);
      MemoSnoc(asked + Asks(init, entries, faults), Ask(last.liveryID, entries, faults));
    }
  }

  lemma AdvanceAsks(p: Progress, session: GameSession, at: int, during: Conditions, asked: seq<Ask>)
    requires p.memo == MemoAfter(asked)
    ensures MemoOf(p, session, at, during) == MemoAfter(asked + AsksOf(p, session, during))
  {
    if session.id == "" || session.normalizedName == "" || during.upstream.None? {
      assert asked + [] == asked;
    } else {
      var now := EntriesFor(p, during);
      MappingAsks(now, during.faults, p.memo, session, during.upstream.value, RefreshOf(session, p.memo, at, during).Existing(now), at, asked);
    }
  }

  /** Session `m` adds its lookups to the memo. */
  ghost predicate AddsLookups(progress: nat -> Progress, sessions: seq<GameSession>, world: nat -> Conditions, m: nat)
    requires m < |sessions|
  {
    forall asked :: progress(m).memo == MemoAfter(asked) ==>
      progress(m + 1).memo == MemoAfter(asked + AsksOf(progress(m), sessions[m], world(m)))
  }

  lemma TurnMemo(entries: Entries, sessions: seq<GameSession>, at: int, world: nat -> Conditions, m: nat)
    requires m < |sessions|
    ensures var progress := ProgressOf(entries, sessions, at, world);
            progress(m + 1).memo == MemoOf(progress(m), sessions[m], at, world(m))
  {
  }

  lemma RunAddsLookups(entries: Entries, sessions: seq<GameSession>, at: int, world: nat -> Conditions, m: nat)
    requires m < |sessions|
    ensures AddsLookups(ProgressOf(entries, sessions, at, world), sessions, world, m)
  {
    TurnMemo(entries, sessions, at, world, m);
    MemoAcross(ProgressOf(entries, sessions, at, world)(m), sessions[m], at, world(m));
  }

  /** The memo that one session leaves. */
  function MemoOf(p: Progress, session: GameSession, at: int, during: Conditions): Memo {
    if session.id == "" || session.normalizedName == "" then p.memo else Advance(p, session, at, during).memo
  }

  lemma MemoAcross(p: Progress, session: GameSession, at: int, during: Conditions)
    ensures forall asked :: p.memo == MemoAfter(asked) ==>
              MemoOf(p, session, at, during) == MemoAfter(asked + AsksOf(p, session, during))
  {
    forall asked | p.memo == MemoAfter(asked)
      ensures MemoOf(p, session, at, during) == MemoAfter(asked + AsksOf(p, session, during))
    {
      AdvanceAsks(p, session, at, during, asked);
    }
  }

  lemma {:induction false} MemoOfLookups(progress: nat -> Progress, sessions: seq<GameSession>, world: nat -> Conditions, n: nat)
    requires n <= |sessions| && progress(0).memo == map[]
    requires forall m: nat :: m < n ==> AddsLookups(progress, sessions, world, m)
    ensures progress(n).memo == MemoAfter(AskedBefore(progress, sessions, world, n))
  {
    if n > 0 {
      MemoOfLookups(progress, sessions, world, n - 1);
      assert AddsLookups(progress, sessions, world, n - 1);
    }
  }

  /** The memo shared by a run's servers is the memo of all lookups made so far. */
  lemma RunMemoIsMemoAfter(entries: Entries, sessions: seq<GameSession>, at: int, world: nat -> Conditions, n: nat)
    requires n <= |sessions|
    ensures var progress := ProgressOf(entries, sessions, at, world);
            progress(n).memo == MemoAfter(AskedBefore(progress, sessions, world, n))
  {
    var progress := ProgressOf(entries, sessions, at, world);
    forall m: nat | m < n
      ensures AddsLookups(progress, sessions, world, m)
    {
      RunAddsLookups(entries, sessions, at, world, m);
    }
    MemoOfLookups(progress, sessions, world, n);
  }

  /** What rows of the session that starts from `p` are mapped with. */
  function LiveryFrom(p: Progress, session: GameSession, at: int, during: Conditions, i: nat): Option<Livery>
    requires during.upstream.Some? && i < |during.upstream.value|
  {
    LiveryOfRow(RefreshOf(session, p.memo, at, during), EntriesFor(p, during), i)
  }

  /** The lookup after those of the rows `head`, which their mapping has left in the memo. */
  lemma LookupAfterRows(entries: Entries, faults: Faults, memo: Memo, session: GameSession, head: seq<UpstreamFlight>,
                        existing: seq<Flight>, at: int, asked: seq<Ask>, all: seq<Ask>, k: nat, ask: Ask)
    requires memo == MemoAfter(asked)
    requires k < |all| && all[..k] == asked + Asks(head, entries, faults) && all[k] == ask
    ensures NthLookup(all, k) ==
            Recall(MapFlights(entries, faults, memo, session, head, existing, at).memo, ReadLivery(ask.entries, ask.faults, ask.id), ask.id)
  {
    MappingAsks(entries, faults, memo, session, head, existing, at, asked);
    LookupIs(all, k, asked + Asks(head, entries, faults), ask, MapFlights(entries, faults, memo, session, head, existing, at).memo);
  }

  lemma LookupIs(asked: seq<Ask>, k: nat, before: seq<Ask>, ask: Ask, known: Memo)
    requires k < |asked| && asked[..k] == before && asked[k] == ask && known == MemoAfter(before)
    ensures NthLookup(asked, k) == Recall(known, ReadLivery(ask.entries, ask.faults, ask.id), ask.id)
  {
  }

  lemma AsksPrefix(asked: seq<Ask>, rows: seq<UpstreamFlight>, entries: Entries, faults: Faults, i: nat)
    requires i < |rows|
    ensures (asked + Asks(rows, entries, faults))[..|asked| + i] == asked + Asks(rows[..i], entries, faults)
    ensures (asked + Asks(rows, entries, faults))[|asked| + i] == Ask(rows[i].liveryID, entries, faults)
  {
  }

  /** Row `i` of the n-th server is one of the run's lookups, and is mapped with its answer. */
  lemma RowIsLookup(entries: Entries, sessions: seq<GameSession>, at: int, world: nat -> Conditions, n: nat, i: nat) returns (k: nat)
    requires MapsRows(sessions, world, n) && i < |world(n).upstream.value|
    ensures var progress := ProgressOf(entries, sessions, at, world);
            var asked := AskedBefore(progress, sessions, world, n + 1);
            && k == |AskedBefore(progress, sessions, world, n)| + i
            && k < |asked| && asked[k].id == world(n).upstream.value[i].liveryID
            && LiveryFrom(progress(n), sessions[n], at, world(n), i) == NthLookup(asked, k).answer
  {
    var progress := ProgressOf(entries, sessions, at, world);
    var before := AskedBefore(progress, sessions, world, n);
    k := |before| + i;
    RunMemoIsMemoAfter(entries, sessions, at, world, n);
    var now, during := EntriesFor(progress(n), world(n)), world(n);
    var rows := during.upstream.value;
    AsksPrefix(before, rows, now, during.faults, i);
    LookupAfterRows(now, during.faults, progress(n).memo, sessions[n], rows[..i], RefreshOf(sessions[n], progress(n).memo, at, during).Existing(now),
                    at, before, before + Asks(rows, now, during.faults), k, Ask(rows[i].liveryID, now, during.faults));
  }

  lemma {:induction false} FirstExists(asked: seq<Ask>, k: nat) returns (j: nat)
    requires k < |asked|
    ensures FirstOf(asked, j, k)
  {
    if exists m :: 0 <= m < k && asked[m].id == asked[k].id {
      var m :| 0 <= m < k && asked[m].id == asked[k].id;
      j := FirstExists(asked, m);
    } else {
      j := k;
    }
  }

  /** In a run, every row of every server with a livery ID is mapped with what the run's first direct read
      of that ID answered -- except, exactly, a later row when that read found a livery without an ID.
      Only the first lookup reads the cache. */
  lemma RowsRepeatFirstRead(entries: Entries, sessions: seq<GameSession>, at: int, world: nat -> Conditions, n: nat, i: nat) returns (j: nat, k: nat)
    requires MapsRows(sessions, world, n) && i < |world(n).upstream.value| && world(n).upstream.value[i].liveryID != ""
    ensures var progress := ProgressOf(entries, sessions, at, world);
            var asked := AskedBefore(progress, sessions, world, n + 1);
            && k == |AskedBefore(progress, sessions, world, n)| + i
            && FirstOf(asked, j, k) && asked[k].id == world(n).upstream.value[i].liveryID
            && (NthLookup(asked, k).readCache <==> j == k)
            && (LiveryFrom(progress(n), sessions[n], at, world(n), i) == asked[j].Directly() <==>
                j == k || asked[j].Directly().None? || asked[j].Directly().value.id != "")
  {
    k := RowIsLookup(entries, sessions, at, world, n, i);
    var asked := AskedBefore(ProgressOf(entries, sessions, at, world), sessions, world, n + 1);
    j := FirstExists(asked, k);
    LookupsRepeatFirstRead(asked, j, k);
  }

  // ----- Over a cache that the liveries job filled

  /** Every refresh keeps `good`, and so does whatever happens between two of them. */
  ghost predicate KeptInRun(good: Entries -> bool, world: nat -> Conditions) {
    && (forall refresh: Refresh, e: Entries :: good(e) ==> good(refresh.Effect(e)))
    && (forall n: nat, e: Entries :: good(e) ==> good(Meanwhile(e, world(n).expired, world(n).written)))
  }

  lemma AdvanceKeeps(good: Entries -> bool, world: nat -> Conditions, n: nat, p: Progress, session: GameSession, at: int)
    requires KeptInRun(good, world) && good(p.entries)
    ensures good(Advance(p, session, at, world(n)).entries)
  {
    assert good(Meanwhile(p.entries, world(n).expired, world(n).written));
  }

  lemma {:induction false} RunKeeps(good: Entries -> bool, entries: Entries, sessions: seq<GameSession>, at: int, world: nat -> Conditions, n: nat)
    requires n <= |sessions| && KeptInRun(good, world) && good(entries)
    ensures good(ProgressOf(entries, sessions, at, world)(n).entries)
  {
    if n > 0 {
      RunKeeps(good, entries, sessions, at, world, n - 1);
      AdvanceKeeps(good, world, n - 1, RefreshAll(entries, sessions, at, world, n - 1), sessions[n - 1], at);
    }
  }

  lemma SessionMeets(good: Entries -> bool, p: Progress, session: GameSession, world: nat -> Conditions, n: nat, j: nat)
    requires KeptInRun(good, world) && good(p.entries) && j < |AsksOf(p, session, world(n))|
    ensures good(AsksOf(p, session, world(n))[j].entries)
  {
    assert good(EntriesFor(p, world(n)));
  }

  /** So it holds of the cache at every lookup. */
  lemma {:induction false} LookupMeets(good: Entries -> bool, progress: nat -> Progress, sessions: seq<GameSession>, world: nat -> Conditions, n: nat, j: nat)
    requires n <= |sessions| && KeptInRun(good, world) && forall m: nat :: m < n ==> good(progress(m).entries)
    requires j < |AskedBefore(progress, sessions, world, n)|
    ensures good(AskedBefore(progress, sessions, world, n)[j].entries)
  {
    var before := |AskedBefore(progress, sessions, world, n - 1)|;
    if j < before {
      LookupMeets(good, progress, sessions, world, n - 1, j);
    } else {
      SessionMeets(good, progress(n - 1), sessions[n - 1], world, n - 1, j - before);
    }
  }

  ghost predicate WritesOwnIDs(world: nat -> Conditions) {
    forall n: nat :: OwnIDs(world(n).written)
  }

  lemma RefreshKeepsOwnIDs(refresh: Refresh, entries: Entries)
    requires OwnIDs(entries)
    ensures OwnIDs(refresh.Effect(entries))
  {
    if refresh.upstream.Some? {
      forall id | LiveryKey(id) in refresh.Effect(entries)
        ensures At(refresh.Effect(entries), LiveryKey(id)) == At(entries, LiveryKey(id))
      {
        if At(refresh.Effect(entries), LiveryKey(id)) != At(entries, LiveryKey(id)) {
          RefreshIsLocal(refresh, entries, LiveryKey(id));
        }
      }
    }
  }

  lemma OwnIDsKeptInRun(world: nat -> Conditions)
    requires WritesOwnIDs(world)
    ensures KeptInRun(OwnIDs, world)
  {
    forall refresh: Refresh, e: Entries | OwnIDs(e)
      ensures OwnIDs(refresh.Effect(e))
    {
      RefreshKeepsOwnIDs(refresh, e);
    }
  }

  lemma FirstReadHasID(ask: Ask)
    requires ask.id != "" && OwnIDs(ask.entries)
    ensures ask.Directly().Some? ==> ask.Directly().value.id != ""
  {
  }

  lemma RunReadsOwnIDs(entries: Entries, sessions: seq<GameSession>, at: int, world: nat -> Conditions, n: nat, j: nat)
    requires n <= |sessions| && OwnIDs(entries) && WritesOwnIDs(world)
    requires j < |AskedBefore(ProgressOf(entries, sessions, at, world), sessions, world, n)|
    ensures OwnIDs(AskedBefore(ProgressOf(entries, sessions, at, world), sessions, world, n)[j].entries)
  {
    OwnIDsKeptInRun(world);
    forall m: nat | m < n
      ensures OwnIDs(ProgressOf(entries, sessions, at, world)(m).entries)
    {
      RunKeeps(OwnIDs, entries, sessions, at, world, m);
    }
    LookupMeets(OwnIDs, ProgressOf(entries, sessions, at, world), sessions, world, n, j);
  }

  /** Over a cache that holds each livery under its own ID, as the liveries job leaves it, every row is
      mapped with the first direct read without exception, whatever happens to the cache during the run. */
  lemma RowsUseFirstRead(entries: Entries, sessions: seq<GameSession>, at: int, world: nat -> Conditions, n: nat, i: nat) returns (j: nat, k: nat)
    requires MapsRows(sessions, world, n) && i < |world(n).upstream.value| && world(n).upstream.value[i].liveryID != ""
    requires OwnIDs(entries) && WritesOwnIDs(world)
    ensures var progress := ProgressOf(entries, sessions, at, world);
            var asked := AskedBefore(progress, sessions, world, n + 1);
            && k == |AskedBefore(progress, sessions, world, n)| + i && FirstOf(asked, j, k)
            && asked[j].id == world(n).upstream.value[i].liveryID
            && LiveryFrom(progress(n), sessions[n], at, world(n), i) == asked[j].Directly()
  {
    j, k := RowsRepeatFirstRead(entries, sessions, at, world, n, i);
    RunReadsOwnIDs(entries, sessions, at, world, n + 1, j);
    FirstReadHasID(AskedBefore(ProgressOf(entries, sessions, at, world), sessions, world, n + 1)[j]);
  }
}
