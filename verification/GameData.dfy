/** The values kept in the cache (internal/game/flights/cache.go, internal/game/sessions/cache.go,
    internal/game/liveries/cache.go) and the upstream records they are built from. */
module GameData {
  import opened Sequences

  const MAX_HISTORY: nat := 25
  const MAX_SESSION_HISTORY: nat := 50

  /** Position and motion, already rounded. */
  datatype Telemetry = Telemetry(
    latitude: real, longitude: real, altitude: int, speed: int,
    verticalSpeed: real, track: real, heading: real)

  /** One upstream flight; `lastReport` is None when the upstream text does not parse as a time. */
  datatype UpstreamFlight = UpstreamFlight(
    flightID: string, liveryID: string, username: Option<string>, callsign: string,
    telemetry: Telemetry, lastReport: Option<int>, pilotState: int, isConnected: bool)

  datatype Flight = Flight(
    flightID: string, liveryID: string, username: Option<string>, callsign: string,
    telemetry: Telemetry, lastReport: int, pilotState: int, pilotStateName: string, isConnected: bool,
    aircraftName: string, liveryName: string, sessionID: string, server: string,
    pathSync: Option<bool>, history: seq<Flight>)

  datatype FlightsSnapshot = FlightsSnapshot(result: seq<Flight>, lastCached: int)

  datatype Livery = Livery(id: string, aircraftID: string, aircraftName: string, liveryName: string)

  datatype GameSession = GameSession(
    id: string, name: string, userCount: int, normalizedName: string, timestamp: int)

  /** `lastCached == 0` stands for Go's zero time. */
  datatype SessionsSnapshot = SessionsSnapshot(
    result: seq<GameSession>, lastCached: int, history: seq<SessionsSnapshot>)
}
