/** The API-key status cache (internal/apikeys/lookup.go) against the database behind it.

    Lookups run concurrently.  Each takes up to three atomic actions -- cache read, database read, cache
    write -- between which others act, time passes, and entries expire or are evicted. */
module ApiKeys {
  const SECOND: int := 1_000_000_000
  const CACHE_TTL: int := 60 * SECOND

  datatype Status = Status(active: bool, found: bool)

  function Granted(status: Status): bool {
    status.found && status.active
  }

  /** The status of every key at every instant: any history of the api_keys table. */
  type Database = (int, string) -> Status

  datatype Entry = Entry(status: Status, expires: int)

  /** What a lookup that went to the database has read, and when. */
  datatype Observed = Observed(key: string, status: Status, at: int)

  datatype State = State(now: int, cache: map<string, Entry>, pending: map<nat, Observed>)

  const INITIAL := State(0, map[], map[])

  /** - Hit: a lookup answers from an unexpired cache entry
      - QueryDatabase: a lookup whose cache read missed or failed reads the database
      - WriteBack: it writes what it read to the cache, if the write gets through, and answers
      - Evict: entries leave the cache early */
  datatype Event =
    | Tick(elapsed: nat)
    | Hit(key: string)
    | QueryDatabase(lookup: nat, key: string)
    | WriteBack(lookup: nat, applied: bool)
    | Evict(keys: set<string>)

  predicate Enabled(s: State, e: Event) {
    match e
    case Hit(key) => key in s.cache && s.now < s.cache[key].expires
    case QueryDatabase(lookup, _) => lookup !in s.pending
    case WriteBack(lookup, _) => lookup in s.pending
    case _ => true
  }

  function Step(db: Database, s: State, e: Event): State
    requires Enabled(s, e)
  {
    match e
    case Tick(elapsed) => s.(now := s.now + elapsed)
    case Hit(_) => s
    case QueryDatabase(lookup, key) => s.(pending := s.pending[lookup := Observed(key, db(s.now, key), s.now)])
    case WriteBack(lookup, applied) =>
      var seen := s.pending[lookup];
      s.(pending := s.pending - {lookup},
         cache := if applied then s.cache[seen.key := Entry(seen.status, s.now + CACHE_TTL)] else s.cache)
    case Evict(keys) => s.(cache := s.cache - keys)
  }

  /** The answer a lookup gives with this event, and the key it is about. */
  datatype Reply = NoReply | Reply(key: string, granted: bool)

  function ReplyOf(s: State, e: Event): Reply
    requires Enabled(s, e)
  {
    match e
    case Hit(key) => Reply(key, Granted(s.cache[key].status))
    case WriteBack(lookup, _) => Reply(s.pending[lookup].key, Granted(s.pending[lookup].status))
    case _ => NoReply
  }

  predicate Possible(db: Database, trace: seq<Event>)
    decreases |trace|, 0
  {
    trace == [] ||
    var before, e := trace[..|trace| - 1], trace[|trace| - 1];
    Possible(db, before) && Enabled(Replay(db, before), e)
  }

  function Replay(db: Database, trace: seq<Event>): State
    requires Possible(db, trace)
    decreases |trace|, 1
  {
    if trace == [] then INITIAL else Step(db, Replay(db, trace[..|trace| - 1]), trace[|trace| - 1])
  }

  /** No write reaches the cache more than `delay` after its database read. */
  predicate WritesWithin(db: Database, trace: seq<Event>, delay: int)
    requires Possible(db, trace)
  {
    trace == [] ||
    var before, e := trace[..|trace| - 1], trace[|trace| - 1];
    && WritesWithin(db, before, delay)
    && (e.WriteBack? ==> Replay(db, before).now - Replay(db, before).pending[e.lookup].at <= delay)
  }

  /** `status` was the key's status in the database at some instant from `from` to `to`. */
  ghost predicate StatusWithin(db: Database, key: string, status: Status, from: int, to: int) {
    exists at :: from <= at <= to && db(at, key) == status
  }

  /** What lookups hold was read at the instant they say; what the cache holds was read no earlier than
      `delay` before it was written. */
  ghost predicate Truthful(db: Database, s: State, delay: int) {
    && (forall l :: l in s.pending ==> s.pending[l].at <= s.now && s.pending[l].status == db(s.pending[l].at, s.pending[l].key))
    && (forall k :: k in s.cache ==>
          && s.cache[k].expires <= s.now + CACHE_TTL
          && StatusWithin(db, k, s.cache[k].status, s.cache[k].expires - CACHE_TTL - delay, s.now))
  }

  lemma TruthfulStep(db: Database, s: State, e: Event, delay: int)
    requires Truthful(db, s, delay) && Enabled(s, e)
    requires e.WriteBack? ==> s.now - s.pending[e.lookup].at <= delay
    ensures Truthful(db, Step(db, s, e), delay)
  {
    var s' := Step(db, s, e);
    forall k | k in s'.cache
      ensures StatusWithin(db, k, s'.cache[k].status, s'.cache[k].expires - CACHE_TTL - delay, s'.now)
    {
      if k in s.cache && s'.cache[k] == s.cache[k] {
        assert StatusWithin(db, k, s.cache[k].status, s.cache[k].expires - CACHE_TTL - delay, s.now);
        var at :| s.cache[k].expires - CACHE_TTL - delay <= at <= s.now && db(at, k) == s.cache[k].status;
        assert at <= s'.now;
      } else {
        var seen := s.pending[e.lookup];
        assert db(seen.at, k) == s'.cache[k].status;
      }
    }
  }

  lemma {:induction false} TruthfulAlways(db: Database, trace: seq<Event>, delay: int)
    requires Possible(db, trace) && WritesWithin(db, trace, delay)
    ensures Truthful(db, Replay(db, trace), delay)
  {
    if trace != [] {
      TruthfulAlways(db, trace[..|trace| - 1], delay);
      TruthfulStep(db, Replay(db, trace[..|trace| - 1]), trace[|trace| - 1], delay);
    }
  }

  /** Bounded staleness: in every interleaving, with any failed reads, failed writes and evictions, a key
      is granted exactly if the database listed it as active at some one instant less than one minute plus
      the largest read-to-write delay ago. */
  lemma AnswersAreFresh(db: Database, trace: seq<Event>, e: Event, delay: int) returns (at: int)
    requires Possible(db, trace + [e]) && WritesWithin(db, trace + [e], delay) && delay >= 0
    requires Possible(db, trace) && Enabled(Replay(db, trace), e)
    requires ReplyOf(Replay(db, trace), e).Reply?
    ensures var s := Replay(db, trace);
            && s.now - 60 * 1_000_000_000 - delay < at <= s.now
            && (ReplyOf(s, e).granted <==> db(at, ReplyOf(s, e).key).found && db(at, ReplyOf(s, e).key).active)
  {
    assert (trace + [e])[..|trace|] == trace;
    TruthfulAlways(db, trace, delay);
    var s := Replay(db, trace);
    if e.Hit? {
      assert StatusWithin(db, e.key, s.cache[e.key].status, s.cache[e.key].expires - CACHE_TTL - delay, s.now);
      at :| s.cache[e.key].expires - CACHE_TTL - delay <= at <= s.now && db(at, e.key) == s.cache[e.key].status;
    } else {
      at := s.pending[e.lookup].at;
    }
  }

  /** A key that the database does not list as active at any instant of that time -- an unknown one, or one
      revoked long enough ago -- is granted by no answer. */
  lemma UnlistedIsNeverGranted(db: Database, trace: seq<Event>, e: Event, delay: int, key: string)
    requires Possible(db, trace + [e]) && WritesWithin(db, trace + [e], delay) && delay >= 0
    requires Possible(db, trace) && Enabled(Replay(db, trace), e)
    requires forall at :: Replay(db, trace).now - 60 * 1_000_000_000 - delay < at <= Replay(db, trace).now ==>
               !(db(at, key).found && db(at, key).active)
    ensures ReplyOf(Replay(db, trace), e) != Reply(key, true)
  {
    if ReplyOf(Replay(db, trace), e) == Reply(key, true) {
      var _ := AnswersAreFresh(db, trace, e, delay);
    }
  }

  /** And one that it lists as active throughout is granted by every answer. */
  lemma ActiveIsAlwaysGranted(db: Database, trace: seq<Event>, e: Event, delay: int, key: string)
    requires Possible(db, trace + [e]) && WritesWithin(db, trace + [e], delay) && delay >= 0
    requires Possible(db, trace) && Enabled(Replay(db, trace), e)
    requires forall at :: Replay(db, trace).now - 60 * 1_000_000_000 - delay < at <= Replay(db, trace).now ==>
               db(at, key).found && db(at, key).active
    ensures ReplyOf(Replay(db, trace), e) != Reply(key, false)
  {
    if ReplyOf(Replay(db, trace), e) == Reply(key, false) {
      var _ := AnswersAreFresh(db, trace, e, delay);
    }
  }

  lemma Snoc(db: Database, trace: seq<Event>, e: Event)
    requires Possible(db, trace) && Enabled(Replay(db, trace), e)
    ensures Possible(db, trace + [e]) && Replay(db, trace + [e]) == Step(db, Replay(db, trace), e)
    ensures forall delay :: WritesWithin(db, trace + [e], delay) <==>
                              WritesWithin(db, trace, delay)
                              && (e.WriteBack? ==> Replay(db, trace).now - Replay(db, trace).pending[e.lookup].at <= delay)
  {
    assert (trace + [e])[..|trace|] == trace;
  }

  /** The bound cannot be improved: for every delay there is a run in which a key is revoked right after
      it was read and is still granted one minute plus the delay later, less one tick of the clock. */
  lemma StalenessBoundIsTight(delay: nat, key: string) returns (db: Database, trace: seq<Event>)
    ensures Possible(db, trace) && WritesWithin(db, trace, delay)
    ensures Enabled(Replay(db, trace), Hit(key)) && ReplyOf(Replay(db, trace), Hit(key)) == Reply(key, true)
    ensures Replay(db, trace).now == 60 * 1_000_000_000 + delay - 1
    ensures forall at :: 0 < at ==> !db(at, key).active
  {
    db := (at, _) => Status(at <= 0, true);
    trace := [];
    Snoc(db, trace, QueryDatabase(0, key));
    trace := trace + [QueryDatabase(0, key)];
    Snoc(db, trace, Tick(delay));
    trace := trace + [Tick(delay)];
    Snoc(db, trace, WriteBack(0, true));
    trace := trace + [WriteBack(0, true)];
    Snoc(db, trace, Tick(CACHE_TTL - 1));
    trace := trace + [Tick(CACHE_TTL - 1)];
  }

  // ----- The lookup

  /** An unexpired entry of the key is cached. */
  predicate Cached(s: State, key: string) {
    key in s.cache && s.now < s.cache[key].expires
  }

  datatype Answer = Answered(granted: bool) | Failed

  class Lookups {
    const db: Database
    var state: State
    var trace: seq<Event>

    ghost predicate Valid()
      reads this
    {
      Possible(db, trace) && state == Replay(db, trace)
    }

    constructor (db: Database)
      ensures Valid() && trace == [] && this.db == db
    {
      this.db := db;
      state, trace := INITIAL, [];
    }

    method Perform(e: Event)
      requires Valid() && Enabled(state, e)
      modifies this
      ensures Valid() && trace == old(trace) + [e] && state == Step(db, old(state), e)
    {
      Snoc(db, trace, e);
      state := Step(db, state, e);
      trace := trace + [e];
    }

    /** What other lookups, the clock and the cache do in the meantime. */
    method Others(script: seq<Event>, ghost lookup: nat)
      requires Valid()
      requires forall e :: e in script && (e.QueryDatabase? || e.WriteBack?) ==> e.lookup != lookup
      modifies this
      ensures Valid() && old(trace) <= trace
      ensures lookup in state.pending <==> lookup in old(state.pending)
      ensures lookup in state.pending ==> state.pending[lookup] == old(state.pending)[lookup]
    {
      for i := 0 to |script|
        invariant Valid() && old(trace) <= trace
        invariant lookup in state.pending <==> lookup in old(state.pending)
        invariant lookup in state.pending ==> state.pending[lookup] == old(state.pending)[lookup]
      {
        assert script[i] in script;
        if Enabled(state, script[i]) {
          Perform(script[i]);
        }
      }
    }

    /** One lookup: from the cache when it can be read, else from the database with a write-back whose
        failure is ignored.  Every answer is the reply of the last event of the trace; a database error
        answers nothing and writes nothing. */
    method Active(lookup: nat, key: string, cacheReadFails: bool, databaseFails: bool, writeApplied: bool,
                  beforeQuery: seq<Event>, beforeWrite: seq<Event>) returns (answer: Answer)
      requires Valid() && lookup !in state.pending
      requires forall e :: e in beforeQuery + beforeWrite && (e.QueryDatabase? || e.WriteBack?) ==> e.lookup != lookup
      modifies this
      ensures Valid() && old(trace) <= trace && lookup !in state.pending
      ensures answer.Answered? ==>
                && |trace| > |old(trace)|
                && var before := trace[..|trace| - 1];
                   ReplyOf(Replay(db, before), trace[|trace| - 1]) == Reply(key, answer.granted)
      ensures answer.Failed? <==> databaseFails && !(!cacheReadFails && Cached(old(state), key))
      ensures !cacheReadFails && Cached(old(state), key) ==>
                && trace == old(trace) + [Hit(key)]
                && answer == Answered(old(state).cache[key].status.found && old(state).cache[key].status.active)
    {
      if !cacheReadFails && key in state.cache && state.now < state.cache[key].expires {
        answer := Answered(Granted(state.cache[key].status));
        Perform(Hit(key));
        assert trace[..|trace| - 1] == old(trace);
        return;
      }
      Others(beforeQuery, lookup);
      if databaseFails {
        return Failed;
      }
      Perform(QueryDatabase(lookup, key));
      var seen := state.pending[lookup];
      Others(beforeWrite, lookup);
      Perform(WriteBack(lookup, writeApplied));
      return Answered(Granted(seen.status));
    }
  }
}
