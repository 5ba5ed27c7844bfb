/** Redis key conventions (internal/cache/keys.go).

    `CacheKey` names each kind of key the application builds; `Render` is the string that reaches
    Redis.  The rest of the project works with `CacheKey`, which is sound because `Parse` undoes
    `Render`: two cache keys are the same Redis key only when they are the same `CacheKey`. */
module Keys {
  import opened Sequences

  datatype CacheKey =
    | ActiveSessions
    | SessionNames
    | APIKeyStatus(apiKey: string)
    | LoginTicket(ticketID: string)
    | BrowserSession(sessionID: string)
    | ActiveFlights(server: string)
    | FlightHistory(flightID: string)
    | LiveryKey(liveryID: string)

  const PREFIX_GAME := "game:"
  const PREFIX_GAME_SESSIONS := PREFIX_GAME + "sessions:"
  const KEY_ACTIVE_SESSIONS := PREFIX_GAME_SESSIONS + "active"
  const KEY_SESSION_NAMES := PREFIX_GAME_SESSIONS + "names"
  const PREFIX_GAME_FLIGHTS := PREFIX_GAME + "flights:"
  const PREFIX_GAME_FLIGHTS_ACTIVE := PREFIX_GAME_FLIGHTS + "active:"
  const PREFIX_GAME_FLIGHTS_HISTORY := PREFIX_GAME_FLIGHTS + "history:"
  const PREFIX_GAME_LIVERY := PREFIX_GAME + "livery:"
  const PREFIX_AUTH := "auth:"
  const PREFIX_API_KEY_STATUS := PREFIX_AUTH + "api_key:"
  const PREFIX_LOGIN_TICKET := PREFIX_AUTH + "login_ticket:"
  const PREFIX_SESSION := "session:"

  function Render(key: CacheKey): string {
    match key
    case ActiveSessions => KEY_ACTIVE_SESSIONS
    case SessionNames => KEY_SESSION_NAMES
    case APIKeyStatus(apiKey) => PREFIX_API_KEY_STATUS + apiKey
    case LoginTicket(ticketID) => PREFIX_LOGIN_TICKET + ticketID
    case BrowserSession(sessionID) => PREFIX_SESSION + sessionID
    case ActiveFlights(server) => PREFIX_GAME_FLIGHTS_ACTIVE + server
    case FlightHistory(flightID) => PREFIX_GAME_FLIGHTS_HISTORY + flightID
    case LiveryKey(liveryID) => PREFIX_GAME_LIVERY + liveryID
  }

  lemma Prefixes()
    ensures PREFIX_GAME_FLIGHTS_ACTIVE == "game:flights:active:" && PREFIX_GAME_FLIGHTS_HISTORY == "game:flights:history:"
    ensures PREFIX_GAME_LIVERY == "game:livery:" && PREFIX_API_KEY_STATUS == "auth:api_key:" && PREFIX_LOGIN_TICKET == "auth:login_ticket:"
  {
  }

  /** The strings that reach Redis. */
  lemma KeysAsWritten(x: string)
    ensures Render(ActiveSessions) == "game:sessions:active" && Render(SessionNames) == "game:sessions:names"
    ensures Render(ActiveFlights(x)) == "game:flights:active:" + x && Render(FlightHistory(x)) == "game:flights:history:" + x
    ensures Render(LiveryKey(x)) == "game:livery:" + x && Render(BrowserSession(x)) == "session:" + x
    ensures Render(APIKeyStatus(x)) == "auth:api_key:" + x && Render(LoginTicket(x)) == "auth:login_ticket:" + x
  {
    Prefixes();
  }

  predicate HasPrefix(s: string, prefix: string) {
    |prefix| <= |s| && s[..|prefix|] == prefix
  }

  /** Reads a Redis key back; the model's partner of `Render`, not code of the source. */
  function Parse(s: string): Option<CacheKey> {
    if s == KEY_ACTIVE_SESSIONS then Some(ActiveSessions)
    else if s == KEY_SESSION_NAMES then Some(SessionNames)
    else if HasPrefix(s, PREFIX_API_KEY_STATUS) then Some(APIKeyStatus(s[|PREFIX_API_KEY_STATUS|..]))
    else if HasPrefix(s, PREFIX_LOGIN_TICKET) then Some(LoginTicket(s[|PREFIX_LOGIN_TICKET|..]))
    else if HasPrefix(s, PREFIX_SESSION) then Some(BrowserSession(s[|PREFIX_SESSION|..]))
    else if HasPrefix(s, PREFIX_GAME_FLIGHTS_ACTIVE) then Some(ActiveFlights(s[|PREFIX_GAME_FLIGHTS_ACTIVE|..]))
    else if HasPrefix(s, PREFIX_GAME_FLIGHTS_HISTORY) then Some(FlightHistory(s[|PREFIX_GAME_FLIGHTS_HISTORY|..]))
    else if HasPrefix(s, PREFIX_GAME_LIVERY) then Some(LiveryKey(s[|PREFIX_GAME_LIVERY|..]))
    else None
  }

  /** Two strings that differ at one position below both prefixes cannot share the prefix. */
  lemma PrefixesClash(s: string, p: string, q: string, i: nat)
    requires HasPrefix(s, p)
    requires i < |p| && i < |q| && p[i] != q[i]
    ensures !HasPrefix(s, q)
  {
    assert s[i] == s[..|p|][i];
    if |q| <= |s| {
      assert s[i] == s[..|q|][i];
    }
  }

  lemma RenderParses(key: CacheKey)
    ensures Parse(Render(key)) == Some(key)
  {
    var s := Render(key);
    match key
    case ActiveSessions =>
    case SessionNames =>
    case APIKeyStatus(x) =>
      assert s[0] == 'a' && HasPrefix(s, PREFIX_API_KEY_STATUS);
    case LoginTicket(x) =>
      assert s[0] == 'a' && HasPrefix(s, PREFIX_LOGIN_TICKET);
      PrefixesClash(s, PREFIX_LOGIN_TICKET, PREFIX_API_KEY_STATUS, 5);
    case BrowserSession(x) =>
      assert s[0] == 's' && HasPrefix(s, PREFIX_SESSION);
      PrefixesClash(s, PREFIX_SESSION, PREFIX_API_KEY_STATUS, 0);
      PrefixesClash(s, PREFIX_SESSION, PREFIX_LOGIN_TICKET, 0);
    case ActiveFlights(x) =>
      GameKey(s, PREFIX_GAME_FLIGHTS_ACTIVE);
    case FlightHistory(x) =>
      GameKey(s, PREFIX_GAME_FLIGHTS_HISTORY);
      PrefixesClash(s, PREFIX_GAME_FLIGHTS_HISTORY, PREFIX_GAME_FLIGHTS_ACTIVE, 13);
    case LiveryKey(x) =>
      GameKey(s, PREFIX_GAME_LIVERY);
      PrefixesClash(s, PREFIX_GAME_LIVERY, PREFIX_GAME_FLIGHTS_ACTIVE, 5);
      PrefixesClash(s, PREFIX_GAME_LIVERY, PREFIX_GAME_FLIGHTS_HISTORY, 5);
  }

  /** A per-flight, per-server or livery key is none of the fixed, auth or browser-session keys. */
  lemma GameKey(s: string, prefix: string)
    requires prefix in {PREFIX_GAME_FLIGHTS_ACTIVE, PREFIX_GAME_FLIGHTS_HISTORY, PREFIX_GAME_LIVERY}
    requires HasPrefix(s, prefix)
    ensures s != KEY_ACTIVE_SESSIONS && s != KEY_SESSION_NAMES
    ensures !HasPrefix(s, PREFIX_API_KEY_STATUS) && !HasPrefix(s, PREFIX_LOGIN_TICKET) && !HasPrefix(s, PREFIX_SESSION)
  {
    assert prefix[0] == 'g' && prefix[5] != 's';
    assert s[0] == s[..|prefix|][0] && s[5] == s[..|prefix|][5];
    PrefixesClash(s, prefix, PREFIX_API_KEY_STATUS, 0);
    PrefixesClash(s, prefix, PREFIX_LOGIN_TICKET, 0);
    PrefixesClash(s, prefix, PREFIX_SESSION, 0);
    assert KEY_ACTIVE_SESSIONS[5] == 's' && KEY_SESSION_NAMES[5] == 's';
  }

  /** All builders are injective, pairwise disjoint, and disjoint from the two fixed keys. */
  lemma KeysSeparate(a: CacheKey, b: CacheKey)
    ensures Render(a) == Render(b) <==> a == b
  {
    RenderParses(a);
    RenderParses(b);
  }

  /** What the application sees of a raw Redis database: the value under each of its keys. */
  ghost predicate Sees<V>(redis: map<string, V>, view: map<CacheKey, V>) {
    && (forall k :: k in view <==> Render(k) in redis)
    && (forall k :: k in view ==> redis[Render(k)] == view[k])
  }

  /** A raw write under one rendered key is exactly the update of that one cache key: this is what
      lets the jobs be modelled over `map<CacheKey, V>`. */
  lemma RawWriteIsLocal<V>(redis: map<string, V>, view: map<CacheKey, V>, key: CacheKey, value: V)
    requires Sees(redis, view)
    ensures Sees(redis[Render(key) := value], view[key := value])
  {
    forall k: CacheKey
      ensures Render(k) == Render(key) <==> k == key
    {
      KeysSeparate(k, key);
    }
  }
}
