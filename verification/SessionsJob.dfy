/** The sessions refresh (internal/jobs/sessions/job.go) and the history it keeps in its own key. */
module SessionsJob {
  import opened Sequences
  import opened Keys
  import opened GameData
  import opened Cache
  import opened Dedup
  import opened Text

  function NormalizeSessionName(name: string): string {
    SpacesToUnderscores(ToLower(TrimSpace(name)))
  }

  /** The white space around a name goes, its letters become small and its spaces become underscores. */
  lemma NormalizeMeans(lead: string, t: string, trail: string)
    requires AllSpace(lead) && AllSpace(trail)
    requires t == "" || (!IsSpace(t[0]) && !IsSpace(t[|t| - 1]))
    ensures var r := NormalizeSessionName(lead + (t + trail));
            |r| == |t| && forall k :: 0 <= k < |t| ==> r[k] == if t[k] == ' ' then '_' else Lower(t[k])
  {
    TrimMeans(lead, t, trail);
  }

  function Enriched(session: GameSession, at: int): GameSession {
    session.(timestamp := at, normalizedName := NormalizeSessionName(session.name))
  }

  /** What makes two upstream rows the same session. */
  function Identity(session: GameSession): string {
    if session.id == "" then "name:" + NormalizeSessionName(session.name) else session.id
  }

  function Identities(sessions: seq<GameSession>): (r: seq<string>)
    ensures |r| == |sessions|
    ensures forall i :: 0 <= i < |r| ==> r[i] == Identity(sessions[i])
  {
    seq(|sessions|, i requires 0 <= i < |sessions| => Identity(sessions[i]))
  }

  function AllEnriched(sessions: seq<GameSession>, at: int): (r: seq<GameSession>)
    ensures |r| == |sessions|
    ensures forall i :: 0 <= i < |r| ==> r[i] == Enriched(sessions[i], at)
  {
    seq(|sessions|, i requires 0 <= i < |sessions| => Enriched(sessions[i], at))
  }

  /** The current sessions: order of first occurrence upstream, value of last occurrence. */
  function Current(upstream: seq<GameSession>, at: int): seq<GameSession> {
    LastByFirst(Identities(upstream), AllEnriched(upstream, at))
  }

  lemma CurrentIdentities(upstream: seq<GameSession>, at: int)
    ensures Identities(Current(upstream, at)) == FirstKeys(Identities(upstream))
    ensures Distinct(Identities(Current(upstream, at)))
    ensures forall id :: id in Identities(Current(upstream, at)) <==> id in Identities(upstream)
    ensures forall s :: s in Current(upstream, at) ==> s.timestamp == at && s.normalizedName == NormalizeSessionName(s.name)
  {
    assert Identities(Current(upstream, at)) == FirstKeys(Identities(upstream));
  }

  /** Two rows are one session: the same ID; or, where an ID is missing, the same normalized name, which an
      ID can also spell out. */
  predicate SameSession(a: GameSession, b: GameSession) {
    if a.id != "" && b.id != "" then a.id == b.id
    else if a.id == "" && b.id == "" then NormalizeSessionName(a.name) == NormalizeSessionName(b.name)
    else if a.id == "" then b.id == "name:" + NormalizeSessionName(a.name)
    else a.id == "name:" + NormalizeSessionName(b.name)
  }

  lemma IdentityMeans(a: GameSession, b: GameSession)
    ensures Identity(a) == Identity(b) <==> SameSession(a, b)
  {
    var x, y := NormalizeSessionName(a.name), NormalizeSessionName(b.name);
    assert ("name:" + x)[5..] == x && ("name:" + y)[5..] == y;
  }

  /** No later row is the same session. */
  ghost predicate LastOfSession(upstream: seq<GameSession>, i: nat) {
    i < |upstream| && forall j :: i < j < |upstream| ==> !SameSession(upstream[i], upstream[j])
  }

  /** `s` is the last row of a session, stamped with the refresh time and with its normalized name. */
  ghost predicate FromLastRow(s: GameSession, upstream: seq<GameSession>, at: int) {
    exists i: nat :: LastOfSession(upstream, i) && s == upstream[i].(timestamp := at, normalizedName := NormalizeSessionName(upstream[i].name))
  }

  lemma CurrentApart(upstream: seq<GameSession>, at: int, i: nat, j: nat)
    requires i < j < |Current(upstream, at)|
    ensures !SameSession(Current(upstream, at)[i], Current(upstream, at)[j])
  {
    CurrentIdentities(upstream, at);
    assert Identities(Current(upstream, at))[i] != Identities(Current(upstream, at))[j];
    IdentityMeans(Current(upstream, at)[i], Current(upstream, at)[j]);
  }

  lemma CurrentFromLastRow(upstream: seq<GameSession>, at: int, k: nat)
    requires k < |Current(upstream, at)|
    ensures FromLastRow(Current(upstream, at)[k], upstream, at)
  {
    var keys := Identities(upstream);
    var i := LastIndex(keys, FirstKeys(keys)[k]);
    LastIndexIsLast(upstream, i);
    assert Current(upstream, at)[k] == AllEnriched(upstream, at)[i];
  }

  /** The current sessions are exactly the last rows of the upstream sessions, each session once. */
  lemma CurrentSessions(upstream: seq<GameSession>, at: int)
    ensures forall i, j :: 0 <= i < j < |Current(upstream, at)| ==> !SameSession(Current(upstream, at)[i], Current(upstream, at)[j])
    ensures forall s :: s in Current(upstream, at) <==> FromLastRow(s, upstream, at)
  {
    var current := Current(upstream, at);
    forall i, j | 0 <= i < j < |current|
      ensures !SameSession(current[i], current[j])
    {
      CurrentApart(upstream, at, i, j);
    }
    forall s | s in current
      ensures FromLastRow(s, upstream, at)
    {
      var k :| 0 <= k < |current| && current[k] == s;
      CurrentFromLastRow(upstream, at, k);
    }
    forall s | FromLastRow(s, upstream, at)
      ensures s in current
    {
      var i: nat :| LastOfSession(upstream, i) && s == upstream[i].(timestamp := at, normalizedName := NormalizeSessionName(upstream[i].name));
      LastRowIsCurrent(upstream, at, i);
    }
  }

  lemma LastIndexIsLast(upstream: seq<GameSession>, i: nat)
    requires i < |upstream| && forall j :: i < j < |upstream| ==> Identities(upstream)[j] != Identities(upstream)[i]
    ensures LastOfSession(upstream, i)
  {
    forall j | i < j < |upstream|
      ensures !SameSession(upstream[i], upstream[j])
    {
      assert Identities(upstream)[j] != Identities(upstream)[i];
      IdentityMeans(upstream[i], upstream[j]);
    }
  }

  lemma LastRowIsCurrent(upstream: seq<GameSession>, at: int, i: nat)
    requires LastOfSession(upstream, i)
    ensures Enriched(upstream[i], at) in Current(upstream, at)
  {
    var keys, first := Identities(upstream), FirstKeys(Identities(upstream));
    assert keys[i] in first;
    var k :| 0 <= k < |first| && first[k] == keys[i];
    var last := LastIndex(keys, keys[i]);
    if i < last {
      IdentityMeans(upstream[i], upstream[last]);
    }
    assert last == i;
    assert Current(upstream, at)[k] == AllEnriched(upstream, at)[i];
  }

  function Flat(snapshot: SessionsSnapshot): SessionsSnapshot {
    snapshot.(history := [])
  }

  function AllFlat(history: seq<SessionsSnapshot>): (r: seq<SessionsSnapshot>)
    ensures |r| == |history|
    ensures forall i :: 0 <= i < |r| ==> r[i] == Flat(history[i])
  {
    seq(|history|, i requires 0 <= i < |history| => Flat(history[i]))
  }

  /** The stored snapshot a run builds on; None when it starts its history afresh. */
  function Existing(entries: Entries, faults: Faults): Option<SessionsSnapshot> {
    match DecodeSessions(ReadFrom(entries, faults, ActiveSessions))
    case Hit(snapshot) => if snapshot.lastCached == 0 then None else Some(snapshot)
    case _ => None
  }

  function NextSnapshot(existing: Option<SessionsSnapshot>, upstream: seq<GameSession>, at: int): SessionsSnapshot {
    SessionsSnapshot(
      Current(upstream, at), at,
      if existing.None? then []
      else LastN(AllFlat(existing.value.history) + [Flat(existing.value)], MAX_SESSION_HISTORY))
  }

  function Names(sessions: seq<GameSession>): (r: seq<string>)
    ensures |r| == |sessions|
    ensures forall i :: 0 <= i < |r| ==> r[i] == sessions[i].normalizedName
  {
    seq(|sessions|, i requires 0 <= i < |sessions| => sessions[i].normalizedName)
  }

  datatype Outcome = Done | FetchFailed | CacheFailed | NamesFailed

  /** One run; the session names are written only once the snapshot write is acknowledged. */
  function RunEffect(entries: Entries, faults: Faults, upstream: Option<seq<GameSession>>, at: int): Entries {
    if upstream.None? then entries
    else
      var snapshot := NextSnapshot(Existing(entries, faults), upstream.value, at);
      var entries' := WriteTo(entries, faults, ActiveSessions, SessionsValue(snapshot));
      if !Acknowledged(faults, ActiveSessions) then entries'
      else WriteTo(entries', faults, SessionNames, NamesValue(Names(snapshot.result)))
  }

  function RunResult(faults: Faults, upstream: Option<seq<GameSession>>): Outcome {
    if upstream.None? then FetchFailed
    else if !Acknowledged(faults, ActiveSessions) then CacheFailed
    else if !Acknowledged(faults, SessionNames) then NamesFailed
    else Done
  }

  /** Which outcome a run reports when. */
  lemma RunReports(faults: Faults, upstream: Option<seq<GameSession>>)
    ensures var outcome := RunResult(faults, upstream);
            && (outcome.FetchFailed? <==> upstream.None?)
            && (outcome.CacheFailed? <==> upstream.Some? && (ActiveSessions in faults.lostWrites || ActiveSessions in faults.unackedWrites))
            && (outcome.NamesFailed? ==> SessionNames in faults.lostWrites || SessionNames in faults.unackedWrites)
            && (outcome.Done? ==> SessionNames !in faults.lostWrites && SessionNames !in faults.unackedWrites)
  {
  }

  predicate Unchanged(before: Entries, after: Entries, key: CacheKey) {
    (key in after <==> key in before) && (key in after ==> after[key] == before[key])
  }

  /** What a run leaves under each key. */
  lemma RunLeaves(entries: Entries, faults: Faults, upstream: Option<seq<GameSession>>, at: int, key: CacheKey)
    ensures var after := RunEffect(entries, faults, upstream, at);
            && (upstream.None? || (key != ActiveSessions && key != SessionNames) || key in faults.lostWrites ==> Unchanged(entries, after, key))
            && (RunResult(faults, upstream).CacheFailed? && key == SessionNames ==> Unchanged(entries, after, key))
            && (upstream.Some? && key == ActiveSessions && key !in faults.lostWrites ==>
                  && key in after && after[key].SessionsValue?
                  && after[key].sessions.lastCached == at && after[key].sessions.result == Current(upstream.value, at))
  {
  }

  class Job {
    const cache: Store

    constructor (cache: Store)
      ensures this.cache == cache
    {
      this.cache := cache;
    }

    method Run(upstream: Option<seq<GameSession>>, at: int) returns (outcome: Outcome)
      modifies cache`entries
      ensures cache.entries == RunEffect(old(cache.entries), cache.faults, upstream, at)
      ensures outcome == RunResult(cache.faults, upstream)
      // after a successful run the session-names key lists the names of the snapshot just stored
      ensures outcome == Done ==>
                && ActiveSessions in cache.entries && cache.entries[ActiveSessions].SessionsValue?
                && SessionNames in cache.entries
                && cache.entries[SessionNames] == NamesValue(Names(cache.entries[ActiveSessions].sessions.result))
    {
      if upstream.None? {
        return FetchFailed;
      }
      var r := cache.GetJSON(ActiveSessions);
      var existing := DecodeSessions(r);
      var sessions := PrepareCurrentSessions(upstream.value, at);

      var history: seq<SessionsSnapshot> := [];
      if existing.Hit? && existing.value.lastCached != 0 {
        history := ExtendHistory(existing.value);
      }
      var stored := cache.SetJSON(ActiveSessions, SessionsValue(SessionsSnapshot(sessions, at, history)));
      if !stored {
        return CacheFailed;
      }

      var sessionNames := CollectNames(sessions);
      stored := cache.SetJSON(SessionNames, NamesValue(sessionNames));
      if !stored {
        return NamesFailed;
      }
      return Done;
    }
  }

  /** The history loop of Run: predecessors flattened, the prior snapshot appended, the oldest dropped. */
  method ExtendHistory(existing: SessionsSnapshot) returns (history: seq<SessionsSnapshot>)
    ensures history == LastN(AllFlat(existing.history) + [Flat(existing)], MAX_SESSION_HISTORY)
  {
    history := [];
    for i := 0 to |existing.history|
      invariant history == AllFlat(existing.history[..i])
    {
      history := history + [existing.history[i].(history := [])];
    }
    assert existing.history[..|existing.history|] == existing.history;
    history := history + [existing.(history := [])];
    if |history| > MAX_SESSION_HISTORY {
      history := history[|history| - MAX_SESSION_HISTORY..];
    }
  }

  method CollectNames(sessions: seq<GameSession>) returns (names: seq<string>)
    ensures names == Names(sessions)
  {
    names := [];
    for i := 0 to |sessions|
      invariant names == Names(sessions[..i])
    {
      names := names + [sessions[i].normalizedName];
    }
    assert sessions[..|sessions|] == sessions;
  }

  method PrepareCurrentSessions(upstream: seq<GameSession>, refreshedAt: int) returns (current: seq<GameSession>)
    ensures current == Current(upstream, refreshedAt)
  {
    current := [];
    var indexes: map<string, nat> := map[];
    for i := 0 to |upstream|
      invariant current == Current(upstream[..i], refreshedAt)
      invariant PointsAtOwnEntry(indexes, Identities(upstream[..i]))
    {
      var session := upstream[i];
      session := session.(timestamp := refreshedAt);
      session := session.(normalizedName := NormalizeSessionName(session.name));
      var identity := session.id;
      if identity == "" {
        identity := "name:" + session.normalizedName;
      }
      CurrentSnoc(upstream, refreshedAt, i, indexes);
      if identity in indexes {
        current := current[indexes[identity] := session];
      } else {
        indexes := indexes[identity := |current|];
        current := current + [session];
      }
    }
    assert upstream[..|upstream|] == upstream;
  }

  lemma PrefixSnoc(upstream: seq<GameSession>, at: int, i: nat)
    requires i < |upstream|
    ensures Identities(upstream[..i + 1]) == Identities(upstream[..i]) + [Identity(upstream[i])]
    ensures AllEnriched(upstream[..i + 1], at) == AllEnriched(upstream[..i], at) + [Enriched(upstream[i], at)]
  {
    assert upstream[..i + 1] == upstream[..i] + [upstream[i]];
  }

  lemma CurrentSnoc(upstream: seq<GameSession>, at: int, i: nat, indexes: map<string, nat>)
    requires i < |upstream|
    requires PointsAtOwnEntry(indexes, Identities(upstream[..i]))
    ensures |Current(upstream[..i], at)| == |FirstKeys(Identities(upstream[..i]))|
    ensures var id, before := Identity(upstream[i]), Current(upstream[..i], at);
            && PointsAtOwnEntry(if id in indexes then indexes else indexes[id := |before|], Identities(upstream[..i + 1]))
            && Current(upstream[..i + 1], at) ==
               if id in indexes then before[indexes[id] := Enriched(upstream[i], at)]
               else before + [Enriched(upstream[i], at)]
  {
    var keys, id, item := Identities(upstream[..i]), Identity(upstream[i]), Enriched(upstream[i], at);
    PrefixSnoc(upstream, at, i);
    LastByFirstSnoc(keys, AllEnriched(upstream[..i], at), id, item, if id in indexes then indexes[id] else 0);
    IndexSnoc(indexes, keys, id);
  }

  // ----- Whole runs

  /** - Running: one call of Run
      - Expiring: entries reach their TTL
      - Foreign: a write to a key of another owner */
  datatype Step =
    | Running(upstream: Option<seq<GameSession>>, at: int, faults: Faults)
    | Expiring(keys: set<CacheKey>)
    | Foreign(key: CacheKey, value: Value)

  predicate Lawful(step: Step) {
    step.Foreign? ==> step.key != ActiveSessions && step.key != SessionNames
  }

  function After(entries: Entries, step: Step): Entries {
    match step
    case Running(upstream, at, faults) => RunEffect(entries, faults, upstream, at)
    case Expiring(keys) => entries - keys
    case Foreign(key, value) => entries[key := value]
  }

  function Replay(start: Entries, steps: seq<Step>): Entries {
    if steps == [] then start
    else After(Replay(start, steps[..|steps| - 1]), steps[|steps| - 1])
  }

  predicate Stores(step: Step) {
    step.Running? && step.upstream.Some? && ActiveSessions !in step.faults.lostWrites
  }

  /** A run with this cache and these faults has no prior snapshot to build on: none is cached, its read
      fails, the value is no snapshot, or it carries no refresh time. */
  predicate Resets(entries: Entries, faults: Faults) {
    || ActiveSessions !in entries || ActiveSessions in faults.failedReads
    || !entries[ActiveSessions].SessionsValue? || entries[ActiveSessions].sessions.lastCached == 0
  }

  /** The snapshots stored since the last reset, each without its own history, oldest first. */
  function SinceReset(start: Entries, steps: seq<Step>): seq<SessionsSnapshot> {
    if steps == [] then []
    else
      var before, step := steps[..|steps| - 1], steps[|steps| - 1];
      if !Stores(step) then SinceReset(start, before)
      else
        var latest := SessionsSnapshot(Current(step.upstream.value, step.at), step.at, []);
        if Resets(Replay(start, before), step.faults) then [latest] else SinceReset(start, before) + [latest]
  }

  /** The cached snapshot is the newest of `log`, and its history the 50 before it. */
  ghost predicate Matches(cached: Value, log: seq<SessionsSnapshot>) {
    && cached.SessionsValue?
    && log != []
    && cached.sessions.(history := []) == log[|log| - 1]
    && cached.sessions.history == LastN(log[..|log| - 1], 50)
  }

  /** The sessions key across one step. */
  lemma ActiveSessionsAcross(entries: Entries, step: Step)
    requires Lawful(step)
    ensures Stores(step) ==>
              && ActiveSessions in After(entries, step)
              && After(entries, step)[ActiveSessions] ==
                 SessionsValue(NextSnapshot(Existing(entries, step.faults), step.upstream.value, step.at))
    ensures !Stores(step) && ActiveSessions in After(entries, step) ==>
              ActiveSessions in entries && After(entries, step)[ActiveSessions] == entries[ActiveSessions]
  {
  }

  /** Under every pattern of failed reads, lost or unacknowledged writes and expiries: the history in
      the cached sessions snapshot is exactly the last 50 snapshots stored before it since the last
      reset, in order, each once and each flat. */
  lemma {:induction false} SessionHistoryIsExact(start: Entries, steps: seq<Step>)
    requires ActiveSessions !in start && forall step :: step in steps ==> Lawful(step)
    ensures ActiveSessions in Replay(start, steps) ==> Matches(Replay(start, steps)[ActiveSessions], SinceReset(start, steps))
    ensures forall s :: s in SinceReset(start, steps) ==> s.history == []
  {
    if steps != [] {
      var before, step := steps[..|steps| - 1], steps[|steps| - 1];
      SessionHistoryIsExact(start, before);
      assert step in steps;
      ActiveSessionsAcross(Replay(start, before), step);
      if Stores(step) {
        StoreMatches(Replay(start, before), SinceReset(start, before), step);
      }
    }
  }

  lemma StoreMatches(entries: Entries, log: seq<SessionsSnapshot>, step: Step)
    requires Stores(step)
    requires ActiveSessions in entries ==> Matches(entries[ActiveSessions], log)
    requires forall s :: s in log ==> s.history == []
    ensures var existing := Existing(entries, step.faults);
            var latest := SessionsSnapshot(Current(step.upstream.value, step.at), step.at, []);
            Matches(SessionsValue(NextSnapshot(existing, step.upstream.value, step.at)),
                    if Resets(entries, step.faults) then [latest] else log + [latest])
  {
    var existing := Existing(entries, step.faults);
    if existing.Some? {
      StoredMatches(existing.value, log, step.upstream.value, step.at);
    }
  }

  lemma StoredMatches(existing: SessionsSnapshot, log: seq<SessionsSnapshot>, upstream: seq<GameSession>, at: int)
    requires Matches(SessionsValue(existing), log)
    requires forall s :: s in log ==> s.history == []
    ensures Matches(SessionsValue(NextSnapshot(Some(existing), upstream, at)), log + [SessionsSnapshot(Current(upstream, at), at, [])])
  {
    var init := log[..|log| - 1];
    assert AllFlat(existing.history) == existing.history;
    assert init + [Flat(existing)] == log;
    CapThenAppend(init, Flat(existing), MAX_SESSION_HISTORY);
    assert (log + [SessionsSnapshot(Current(upstream, at), at, [])])[..|log|] == log;
  }

  // ----- Runs without trouble

  /** The refresh carries a time, the snapshot is read and written without fault and does not expire. */
  predicate Untroubled(step: Step) {
    && (step.Running? ==> step.at != 0 && ActiveSessions !in step.faults.failedReads && ActiveSessions !in step.faults.lostWrites)
    && (step.Expiring? ==> ActiveSessions !in step.keys)
  }

  /** Every snapshot ever stored, without its history, oldest first. */
  function AllStored(steps: seq<Step>): seq<SessionsSnapshot> {
    if steps == [] then []
    else
      var before, step := steps[..|steps| - 1], steps[|steps| - 1];
      if step.Running? && step.upstream.Some?
      then AllStored(before) + [SessionsSnapshot(Current(step.upstream.value, step.at), step.at, [])]
      else AllStored(before)
  }

  ghost predicate HoldsAll(entries: Entries, log: seq<SessionsSnapshot>) {
    if log == [] then ActiveSessions !in entries
    else ActiveSessions in entries && Matches(entries[ActiveSessions], log) && entries[ActiveSessions].sessions.lastCached != 0
  }

  lemma UntroubledStep(entries: Entries, log: seq<SessionsSnapshot>, step: Step)
    requires Lawful(step) && Untroubled(step) && HoldsAll(entries, log) && forall s :: s in log ==> s.history == []
    ensures var latest := SessionsSnapshot(if step.Running? && step.upstream.Some? then Current(step.upstream.value, step.at) else [],
                                           if step.Running? then step.at else 0, []);
            HoldsAll(After(entries, step), if step.Running? && step.upstream.Some? then log + [latest] else log)
  {
    ActiveSessionsAcross(entries, step);
    if Stores(step) {
      StoreMatches(entries, log, step);
    }
  }

  /** When every refresh carries a time and the snapshot is never lost, misread or expired, nothing ever
      resets: the cached history is exactly the last 50 of all snapshots stored before the cached one. */
  lemma {:induction false} UntroubledHistoryIsComplete(start: Entries, steps: seq<Step>)
    requires ActiveSessions !in start && forall step :: step in steps ==> Lawful(step) && Untroubled(step)
    ensures HoldsAll(Replay(start, steps), AllStored(steps))
    ensures forall s :: s in AllStored(steps) ==> s.history == []
  {
    if steps != [] {
      var before, step := steps[..|steps| - 1], steps[|steps| - 1];
      UntroubledHistoryIsComplete(start, before);
      assert step in steps;
      UntroubledStep(Replay(start, before), AllStored(before), step);
    }
  }
}
