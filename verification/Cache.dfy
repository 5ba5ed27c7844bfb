/** The JSON cache (internal/cache/store.go) with the network's failures made explicit.

    Which operations fail is chosen by an adversary through `Faults`.  What happens to the entries between
    two operations -- expiry, the writes of other jobs -- is chosen through `OthersAct`. */
module Cache {
  import opened Keys
  import opened GameData

  datatype Value =
    | FlightsValue(flights: FlightsSnapshot)
    | HistoryValue(observations: seq<Flight>)
    | SessionsValue(sessions: SessionsSnapshot)
    | NamesValue(names: seq<string>)
    | LiveryValue(livery: Livery)

  type Entries = map<CacheKey, Value>

  /** - failedReads: reads of these keys return an error other than a miss
      - lostWrites: writes to these keys return an error and are not applied
      - unackedWrites: writes to these keys are applied, yet return an error */
  datatype Faults = Faults(failedReads: set<CacheKey>, lostWrites: set<CacheKey>, unackedWrites: set<CacheKey>)

  const NO_FAULTS := Faults({}, {}, {})

  /** The three outcomes of GetJSON: a hit, `ErrMiss`, and any other error. */
  datatype Read<+T> = Hit(value: T) | Miss | Failed

  function ReadFrom(entries: Entries, faults: Faults, key: CacheKey): Read<Value> {
    if key in faults.failedReads then Failed
    else if key in entries then Hit(entries[key])
    else Miss
  }

  function WriteTo(entries: Entries, faults: Faults, key: CacheKey, value: Value): Entries {
    if key in faults.lostWrites then entries else entries[key := value]
  }

  /** The entries after some expired and others were written by someone else. */
  function Meanwhile(entries: Entries, expired: set<CacheKey>, written: Entries): Entries {
    (entries - expired) + written
  }

  predicate Acknowledged(faults: Faults, key: CacheKey) {
    key !in faults.lostWrites && key !in faults.unackedWrites
  }

  // A value of another shape does not decode into the destination and reads as an error.

  function DecodeFlights(r: Read<Value>): Read<FlightsSnapshot> {
    match r
    case Hit(FlightsValue(s)) => Hit(s)
    case Miss => Miss
    case _ => Failed
  }

  function DecodeHistory(r: Read<Value>): Read<seq<Flight>> {
    match r
    case Hit(HistoryValue(h)) => Hit(h)
    case Miss => Miss
    case _ => Failed
  }

  function DecodeSessions(r: Read<Value>): Read<SessionsSnapshot> {
    match r
    case Hit(SessionsValue(s)) => Hit(s)
    case Miss => Miss
    case _ => Failed
  }

  function DecodeNames(r: Read<Value>): Read<seq<string>> {
    match r
    case Hit(NamesValue(n)) => Hit(n)
    case Miss => Miss
    case _ => Failed
  }

  function DecodeLivery(r: Read<Value>): Read<Livery> {
    match r
    case Hit(LiveryValue(l)) => Hit(l)
    case Miss => Miss
    case _ => Failed
  }

  class Store {
    var entries: Entries
    var faults: Faults

    constructor (entries: Entries)
      ensures this.entries == entries && faults == NO_FAULTS
    {
      this.entries, this.faults := entries, NO_FAULTS;
    }

    /** The network conditions from now on. */
    method SetConditions(faults: Faults)
      modifies this`faults
      ensures this.faults == faults
    {
      this.faults := faults;
    }

    /** Expiries and the writes of others, between two operations. */
    method OthersAct(expired: set<CacheKey>, written: Entries)
      modifies this`entries
      ensures entries == Meanwhile(old(entries), expired, written)
    {
      entries := (entries - expired) + written;
    }

    method GetJSON(key: CacheKey) returns (r: Read<Value>)
      ensures r == ReadFrom(entries, faults, key)
      ensures r.Failed? <==> key in faults.failedReads
      ensures r.Hit? <==> key !in faults.failedReads && key in entries
      ensures r.Hit? ==> r.value == entries[key]
    {
      if key in faults.failedReads {
        return Failed;
      }
      if key !in entries {
        return Miss;
      }
      return Hit(entries[key]);
    }

    /** `ok` is false when the caller sees an error, whether or not the write took effect. */
    method SetJSON(key: CacheKey, value: Value) returns (ok: bool)
      modifies this`entries
      ensures entries == WriteTo(old(entries), faults, key, value)
      ensures ok == Acknowledged(faults, key)
      ensures key !in faults.lostWrites ==> entries == old(entries)[key := value]
      ensures key in faults.lostWrites ==> entries == old(entries)
      ensures ok <==> key !in faults.lostWrites && key !in faults.unackedWrites
    {
      if key in faults.lostWrites {
        return false;
      }
      entries := entries[key := value];
      ok := key !in faults.unackedWrites;
    }
  }
}
