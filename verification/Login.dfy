/** Login tickets and browser sessions (internal/auth/ticket.go, internal/session/service.go, Login and
    Logout in internal/transport/http/ui/handler.go).

    Each cache operation is atomic; between two operations of one request any other request may act.
    So the protocol is a trace of atomic events over the shared cache, and the theorems speak of every
    such trace.  `Server` carries out the source's methods and is proved to produce such traces. */
module Login {
  // Nanoseconds, as Go's time.Duration.
  const SECOND: int := 1_000_000_000
  const TICKET_TTL: int := 10 * 60 * SECOND
  const SESSION_TTL: int := 7 * 24 * 60 * 60 * SECOND

  datatype Ticket = Ticket(
    userID: string, discordUserID: string, discordServerID: string, username: string, redirectTo: string)

  datatype Session = Session(
    sessionID: string, userID: string, discordID: string, discordServerID: string, username: string,
    createdAt: int, expiresAt: int)

  function NewSession(ticket: Ticket, sessionID: string, clock: int): Session {
    Session(sessionID, ticket.userID, ticket.discordUserID, ticket.discordServerID, ticket.username, clock, clock + SESSION_TTL)
  }

  predicate Expired(session: Session, clock: int) {
    clock > session.expiresAt
  }

  /** A login link's token: the sealed ticket ID, or text that does not open. */
  datatype Token = Sealed(ticketID: string) | Unsealable(text: string)

  datatype StoredTicket = StoredTicket(ticket: Ticket, deadline: int)

  /** The cache's clock and entries, and the tickets of login requests that have redeemed theirs but
      not yet tried to create a session. */
  datatype State = State(
    now: int, tickets: map<string, StoredTicket>, sessions: map<string, Session>, pending: map<nat, Ticket>)

  const INITIAL := State(0, map[], map[], map[])

  /** `applied` tells whether a write took effect; the caller may see an error either way.
      - Issue: Tickets.Issue stores a ticket under a fresh ID
      - Redeem: the get-and-delete of Tickets.Consume hits, in the login request `login`
      - RedeemMiss: it misses or fails, possibly after removing the entry
      - Create: Service.Create stores the session of the request `login`
      - Answer: Service.Get answers with a session
      - Delete: Service.Delete, from a logout or from Get finding the session expired
      - Evict: entries leave the cache on their own */
  datatype Event =
    | Tick(elapsed: nat)
    | Issue(ticketID: string, ticket: Ticket, applied: bool)
    | Redeem(login: nat, ticketID: string)
    | RedeemMiss(ticketID: string, removed: bool)
    | Create(login: nat, sessionID: string, clock: int, applied: bool)
    | Answer(sessionID: string, clock: int)
    | Delete(sessionID: string, applied: bool)
    | Evict(ticketIDs: set<string>, sessionIDs: set<string>)

  predicate Enabled(s: State, e: Event) {
    match e
    case Redeem(_, id) => id in s.tickets && s.now < s.tickets[id].deadline
    case Create(login, _, _, _) => login in s.pending
    case Answer(id, clock) => id in s.sessions && !Expired(s.sessions[id], clock)
    case _ => true
  }

  function Step(s: State, e: Event): State
    requires Enabled(s, e)
  {
    match e
    case Tick(elapsed) => s.(now := s.now + elapsed)
    case Issue(id, ticket, applied) =>
      if applied then s.(tickets := s.tickets[id := StoredTicket(ticket, s.now + TICKET_TTL)]) else s
    case Redeem(login, id) => s.(tickets := s.tickets - {id}, pending := s.pending[login := s.tickets[id].ticket])
    case RedeemMiss(id, removed) => if removed then s.(tickets := s.tickets - {id}) else s
    case Create(login, id, clock, applied) =>
      s.(pending := s.pending - {login},
         sessions := if applied then s.sessions[id := NewSession(s.pending[login], id, clock)] else s.sessions)
    case Answer(_, _) => s
    case Delete(id, applied) => if applied then s.(sessions := s.sessions - {id}) else s
    case Evict(ticketIDs, sessionIDs) => s.(tickets := s.tickets - ticketIDs, sessions := s.sessions - sessionIDs)
  }

  /** Random ticket and session IDs are never drawn twice, and every login request is its own. */
  predicate FreshFor(trace: seq<Event>, e: Event) {
    && (e.Issue? ==> forall i :: 0 <= i < |trace| ==> trace[i].Issue? ==> trace[i].ticketID != e.ticketID)
    && (e.Redeem? ==> forall i :: 0 <= i < |trace| ==> trace[i].Redeem? ==> trace[i].login != e.login)
    && (e.Create? ==> forall i :: 0 <= i < |trace| ==> trace[i].Create? ==> trace[i].sessionID != e.sessionID)
  }

  /** The traces that can happen, with the state each leads to. */
  predicate Possible(trace: seq<Event>)
    decreases |trace|, 0
  {
    trace == [] ||
    var before, e := trace[..|trace| - 1], trace[|trace| - 1];
    Possible(before) && Enabled(Replay(before), e) && FreshFor(before, e)
  }

  function Replay(trace: seq<Event>): State
    requires Possible(trace)
    decreases |trace|, 1
  {
    if trace == [] then INITIAL else Step(Replay(trace[..|trace| - 1]), trace[|trace| - 1])
  }

  lemma {:induction false} PrefixPossible(trace: seq<Event>, i: nat)
    requires Possible(trace) && i <= |trace|
    ensures Possible(trace[..i])
    ensures i < |trace| ==> Enabled(Replay(trace[..i]), trace[i]) && FreshFor(trace[..i], trace[i])
  {
    if i == |trace| {
      assert trace[..i] == trace;
    } else if i < |trace| - 1 {
      PrefixPossible(trace[..|trace| - 1], i);
      assert trace[..|trace| - 1][..i] == trace[..i];
    }
  }

  /** The cache's clock when the i-th event happens. */
  function Time(trace: seq<Event>, i: nat): int
    requires Possible(trace) && i <= |trace|
  {
    PrefixPossible(trace, i);
    Replay(trace[..i]).now
  }

  // ----- Where the cached entries come from

  /** A ticket in the cache was issued by the one Issue event of its ID and has not been redeemed. */
  lemma {:induction false} TicketOrigin(trace: seq<Event>, id: string) returns (i: nat)
    requires Possible(trace) && id in Replay(trace).tickets
    ensures i < |trace| && trace[i].Issue? && trace[i].ticketID == id
    ensures Replay(trace).tickets[id] == StoredTicket(trace[i].ticket, Time(trace, i) + TICKET_TTL)
    ensures forall k :: 0 <= k < |trace| && trace[k].Redeem? ==> trace[k].ticketID != id
    decreases |trace|
  {
    var before, e := trace[..|trace| - 1], trace[|trace| - 1];
    if e.Issue? && e.applied && e.ticketID == id {
      i := |trace| - 1;
      forall k | 0 <= k < |trace| && trace[k].Redeem?
        ensures trace[k].ticketID != id
      {
        PrefixPossible(trace, k);
        var origin := TicketOrigin(trace[..k], trace[k].ticketID);
        assert before[origin] == trace[origin];
      }
    } else {
      i := TicketOrigin(before, id);
      assert before[..i] == trace[..i];
    }
  }

  /** The ticket a pending login holds came from its one Redeem event, and it has not tried to create a
      session since. */
  lemma {:induction false} PendingOrigin(trace: seq<Event>, login: nat) returns (i: nat)
    requires Possible(trace) && login in Replay(trace).pending
    ensures i < |trace| && trace[i].Redeem? && trace[i].login == login && Possible(trace[..i])
    ensures trace[i].ticketID in Replay(trace[..i]).tickets
    ensures Replay(trace).pending[login] == Replay(trace[..i]).tickets[trace[i].ticketID].ticket
    ensures forall k :: i < k < |trace| && trace[k].Create? ==> trace[k].login != login
    decreases |trace|
  {
    var before, e := trace[..|trace| - 1], trace[|trace| - 1];
    if e.Redeem? && e.login == login {
      i := |trace| - 1;
    } else {
      i := PendingOrigin(before, login);
      assert before[..i] == trace[..i];
    }
  }

  /** A session in the cache was stored by the one Create event of its ID and not deleted since. */
  lemma {:induction false} SessionOrigin(trace: seq<Event>, id: string) returns (i: nat)
    requires Possible(trace) && id in Replay(trace).sessions
    ensures i < |trace| && trace[i].Create? && trace[i].sessionID == id && trace[i].applied && Possible(trace[..i])
    ensures trace[i].login in Replay(trace[..i]).pending
    ensures Replay(trace).sessions[id] == NewSession(Replay(trace[..i]).pending[trace[i].login], id, trace[i].clock)
    ensures forall k :: i < k < |trace| && trace[k].Delete? && trace[k].applied ==> trace[k].sessionID != id
    decreases |trace|
  {
    var before, e := trace[..|trace| - 1], trace[|trace| - 1];
    if e.Create? && e.applied && e.sessionID == id {
      i := |trace| - 1;
    } else {
      i := SessionOrigin(before, id);
      assert before[..i] == trace[..i];
    }
  }

  // ----- Theorems over every trace

  /** The session signs in the ticket's user, under this ID, for seven days from `clock`. */
  predicate SignsIn(session: Session, ticket: Ticket, sessionID: string, clock: int) {
    && session.sessionID == sessionID
    && session.userID == ticket.userID && session.discordID == ticket.discordUserID
    && session.discordServerID == ticket.discordServerID && session.username == ticket.username
    && session.createdAt == clock && session.expiresAt == clock + 7 * 24 * 60 * 60 * 1_000_000_000
  }

  /** No ticket is redeemed twice, however requests interleave. */
  lemma {:induction false} TicketRedeemedAtMostOnce(trace: seq<Event>, i: nat, j: nat)
    requires Possible(trace) && i < j < |trace| && trace[i].Redeem? && trace[j].Redeem?
    ensures trace[i].ticketID != trace[j].ticketID
  {
    PrefixPossible(trace, j);
    var _ := TicketOrigin(trace[..j], trace[j].ticketID);
    assert trace[..j][i] == trace[i];
  }

  /** A ticket is redeemed only after it was issued, with the content it was issued with, and strictly
      before its ten minutes are over. */
  lemma {:induction false} TicketRedeemedInTime(trace: seq<Event>, j: nat) returns (i: nat)
    requires Possible(trace) && j < |trace| && trace[j].Redeem?
    ensures i < j && trace[i].Issue? && trace[i].ticketID == trace[j].ticketID
    ensures Time(trace, j) < Time(trace, i) + 10 * 60 * 1_000_000_000
    ensures Possible(trace[..j]) && trace[j].ticketID in Replay(trace[..j]).tickets
    ensures Replay(trace[..j]).tickets[trace[j].ticketID].ticket == trace[i].ticket
  {
    PrefixPossible(trace, j);
    i := TicketOrigin(trace[..j], trace[j].ticketID);
    assert trace[..j][..i] == trace[..i];
  }

  /** Every session creation follows a redemption by the same request, and carries the user, Discord
      user, server and name of the ticket that was issued. */
  lemma {:induction false} SessionCarriesItsTicket(trace: seq<Event>, j: nat) returns (issued: nat, redeemed: nat)
    requires Possible(trace) && j < |trace| && trace[j].Create?
    ensures issued < redeemed < j
    ensures trace[issued].Issue? && trace[redeemed].Redeem? && trace[redeemed].login == trace[j].login
    ensures trace[issued].ticketID == trace[redeemed].ticketID
    ensures Possible(trace[..j + 1])
    ensures trace[j].applied ==>
              && trace[j].sessionID in Replay(trace[..j + 1]).sessions
              && SignsIn(Replay(trace[..j + 1]).sessions[trace[j].sessionID], trace[issued].ticket, trace[j].sessionID, trace[j].clock)
    ensures forall k :: redeemed < k < j && trace[k].Create? ==> trace[k].login != trace[j].login
  {
    PrefixPossible(trace, j);
    PrefixPossible(trace, j + 1);
    assert trace[..j + 1][..j] == trace[..j];
    redeemed := PendingOrigin(trace[..j], trace[j].login);
    assert trace[..j][..redeemed] == trace[..redeemed];
    issued := TicketRedeemedInTime(trace, redeemed);
  }

  /** Session creations map injectively to redeemed tickets: no ticket ever yields two. */
  lemma {:induction false} SessionsMapInjectivelyToTickets(trace: seq<Event>, j: nat, j': nat) returns (redeemed: nat, redeemed': nat)
    requires Possible(trace) && j < j' < |trace| && trace[j].Create? && trace[j'].Create?
    ensures redeemed < j && trace[redeemed].Redeem? && trace[redeemed].login == trace[j].login
    ensures redeemed' < j' && trace[redeemed'].Redeem? && trace[redeemed'].login == trace[j'].login
    ensures trace[redeemed].ticketID != trace[redeemed'].ticketID
  {
    var issued, issued';
    issued, redeemed := SessionCarriesItsTicket(trace, j);
    issued', redeemed' := SessionCarriesItsTicket(trace, j');
    if redeemed < redeemed' {
      TicketRedeemedAtMostOnce(trace, redeemed, redeemed');
    } else if redeemed' < redeemed {
      TicketRedeemedAtMostOnce(trace, redeemed', redeemed);
    }
  }

  /** Get answers with a session only if it was created, was not deleted since, and is not past its seven
      days by the clock of the answering process -- however long the cache keeps the entry.  It signs in the
      user of the one ticket that was issued and redeemed for it. */
  lemma {:induction false} AnsweredSessionIsLive(trace: seq<Event>, j: nat) returns (issued: nat, redeemed: nat, i: nat)
    requires Possible(trace) && j < |trace| && trace[j].Answer?
    ensures issued < redeemed < i < j && trace[i].Create? && trace[i].applied && trace[i].sessionID == trace[j].sessionID
    ensures trace[issued].Issue? && trace[redeemed].Redeem? && trace[redeemed].login == trace[i].login
    ensures trace[issued].ticketID == trace[redeemed].ticketID
    ensures forall k :: i < k < j && trace[k].Delete? && trace[k].applied ==> trace[k].sessionID != trace[j].sessionID
    ensures trace[j].clock <= trace[i].clock + 7 * 24 * 60 * 60 * 1_000_000_000
    ensures Possible(trace[..j]) && trace[j].sessionID in Replay(trace[..j]).sessions
    ensures SignsIn(Replay(trace[..j]).sessions[trace[j].sessionID], trace[issued].ticket, trace[j].sessionID, trace[i].clock)
  {
    PrefixPossible(trace, j);
    i := SessionOrigin(trace[..j], trace[j].sessionID);
    assert trace[..j][..i] == trace[..i];
    PrefixPossible(trace, i);
    redeemed := PendingOrigin(trace[..i], trace[i].login);
    assert trace[..i][..redeemed] == trace[..redeemed];
    issued := TicketRedeemedInTime(trace, redeemed);
  }

  // ----- The methods

  datatype Result<+T> = Ok(value: T) | Invalid | CacheError

  datatype Response =
    | SignedIn(sessionID: string, redirectTo: string)
    | LinkExpired
    | CreationFailed

  /** How the network treats one cache operation: whether the caller sees an error, and whether the
      operation took effect nevertheless. */
  datatype Network = Network(errs: bool, applied: bool)

  predicate Usable(network: Network) {
    !network.errs ==> network.applied
  }

  /** The ticket is stored and its deadline has not come. */
  predicate Live(s: State, ticketID: string) {
    ticketID in s.tickets && s.now < s.tickets[ticketID].deadline
  }

  /** Nothing `e` does is in the name of this login or draws this session ID. */
  predicate Unrelated(e: Event, login: nat, sessionID: string) {
    && ((e.Redeem? || e.Create?) ==> e.login != login)
    && (e.Create? ==> e.sessionID != sessionID)
  }

  class Server {
    var state: State
    var trace: seq<Event>

    ghost predicate Valid()
      reads this
    {
      Possible(trace) && state == Replay(trace)
    }

    constructor ()
      ensures Valid() && trace == []
    {
      state, trace := INITIAL, [];
    }

    method Perform(e: Event)
      requires Valid() && Enabled(state, e) && FreshFor(trace, e)
      modifies this
      ensures Valid() && trace == old(trace) + [e] && state == Step(old(state), e)
    {
      state := Step(state, e);
      trace := trace + [e];
      assert trace[..|trace| - 1] == old(trace);
    }

    /** Whatever the other requests do in the meantime; what they cannot do is skipped. */
    method Others(script: seq<Event>, ghost login: nat, ghost sessionID: string)
      requires Valid() && login in state.pending
      requires forall e :: e in script ==> Unrelated(e, login, sessionID)
      modifies this
      ensures Valid() && old(trace) <= trace
      ensures forall k :: |old(trace)| <= k < |trace| ==> Unrelated(trace[k], login, sessionID)
      ensures login in state.pending && state.pending[login] == old(state.pending[login])
    {
      for i := 0 to |script|
        invariant Valid() && old(trace) <= trace
        invariant forall k :: |old(trace)| <= k < |trace| ==> Unrelated(trace[k], login, sessionID)
        invariant login in state.pending && state.pending[login] == old(state.pending[login])
      {
        assert script[i] in script;
        if Enabled(state, script[i]) && FreshFor(trace, script[i]) {
          Perform(script[i]);
        }
      }
    }

    /** `ticketID` is the fresh random ID.  The token is returned only when the write is acknowledged. */
    method IssueTicket(ticketID: string, ticket: Ticket, network: Network) returns (r: Result<Token>)
      requires Valid() && Usable(network) && FreshFor(trace, Issue(ticketID, ticket, network.applied))
      modifies this
      ensures Valid() && trace == old(trace) + [Issue(ticketID, ticket, network.applied)]
      ensures network.applied ==> state.tickets == old(state).tickets[ticketID := StoredTicket(ticket, old(state).now + 10 * 60 * 1_000_000_000)]
      ensures r == if network.errs then CacheError else Ok(Sealed(ticketID))
    {
      Perform(Issue(ticketID, ticket, network.applied));
      if network.errs {
        return CacheError;
      }
      return Ok(Sealed(ticketID));
    }

    method Consume(login: nat, token: Token, network: Network) returns (r: Result<Ticket>)
      requires Valid() && Usable(network)
      requires token.Sealed? ==> FreshFor(trace, Redeem(login, token.ticketID))
      modifies this
      ensures Valid() && old(trace) <= trace
      ensures r.Ok? <==> token.Sealed? && !network.errs && Live(old(state), token.ticketID)
      ensures r.Ok? ==> state.tickets == old(state).tickets - {token.ticketID}
      ensures r.Ok? ==>
                && trace == old(trace) + [Redeem(login, token.ticketID)]
                && r.value == old(state).tickets[token.ticketID].ticket
                && state.pending == old(state).pending[login := r.value]
      ensures !r.Ok? ==> forall k :: |old(trace)| <= k < |trace| ==> trace[k].RedeemMiss?
    {
      if token.Unsealable? {
        return Invalid;
      }
      var id := token.ticketID;
      if network.errs {
        Perform(RedeemMiss(id, network.applied));
        return CacheError;
      }
      if id in state.tickets && state.now < state.tickets[id].deadline {
        r := Ok(state.tickets[id].ticket);
        Perform(Redeem(login, id));
      } else {
        Perform(RedeemMiss(id, false));
        r := Invalid;
      }
    }

    method CreateSession(login: nat, sessionID: string, clock: int, network: Network) returns (r: Result<Session>)
      requires Valid() && Usable(network) && login in state.pending
      requires FreshFor(trace, Create(login, sessionID, clock, network.applied))
      modifies this
      ensures Valid() && trace == old(trace) + [Create(login, sessionID, clock, network.applied)]
      ensures network.errs ==> r == CacheError
      ensures !network.errs ==> r.Ok? && SignsIn(r.value, old(state).pending[login], sessionID, clock)
      ensures network.applied ==> sessionID in state.sessions && SignsIn(state.sessions[sessionID], old(state).pending[login], sessionID, clock)
    {
      var session := NewSession(state.pending[login], sessionID, clock);
      Perform(Create(login, sessionID, clock, network.applied));
      if network.errs {
        return CacheError;
      }
      return Ok(session);
    }

    /** The login handler: redeem first, then create, with other requests acting in between.  A token
        that does not redeem creates nothing; a failed creation leaves the ticket spent. */
    method Login(login: nat, token: Token, sessionID: string, clock: int,
                 consuming: Network, meanwhile: seq<Event>, creating: Network) returns (response: Response)
      requires Valid() && Usable(consuming) && Usable(creating)
      requires token.Sealed? ==> FreshFor(trace, Redeem(login, token.ticketID))
      requires FreshFor(trace, Create(login, sessionID, clock, creating.applied))
      requires forall e :: e in meanwhile ==> Unrelated(e, login, sessionID)
      modifies this
      ensures Valid() && old(trace) <= trace
      ensures response.LinkExpired? <==> !(token.Sealed? && !consuming.errs && Live(old(state), token.ticketID))
      ensures response.LinkExpired? ==> forall k :: |old(trace)| <= k < |trace| ==> !trace[k].Create? && !trace[k].Redeem?
      ensures !response.LinkExpired? ==>
                && |trace| >= |old(trace)| + 2
                && trace[|old(trace)|] == Redeem(login, token.ticketID)
                && trace[|trace| - 1] == Create(login, sessionID, clock, creating.applied)
                && (response.CreationFailed? <==> creating.errs)
      ensures response.SignedIn? ==>
                && response == SignedIn(sessionID, old(state).tickets[token.ticketID].ticket.redirectTo)
                && sessionID in state.sessions
                && SignsIn(state.sessions[sessionID], old(state).tickets[token.ticketID].ticket, sessionID, clock)
    {
      var ticket := Consume(login, token, consuming);
      if !ticket.Ok? {
        return LinkExpired;
      }
      Others(meanwhile, login, sessionID);
      var created := CreateSession(login, sessionID, clock, creating);
      assert state == Step(Replay(trace[..|trace| - 1]), trace[|trace| - 1]);
      if !created.Ok? {
        return CreationFailed;
      }
      return SignedIn(created.value.sessionID, ticket.value.redirectTo);
    }

    /** What other requests do between two operations of one that has no login of its own to protect. */
    method Interleave(script: seq<Event>)
      requires Valid()
      modifies this
      ensures Valid() && old(trace) <= trace
    {
      for i := 0 to |script|
        invariant Valid() && old(trace) <= trace
      {
        if Enabled(state, script[i]) && FreshFor(trace, script[i]) {
          Perform(script[i]);
        }
      }
    }

    /** Answers exactly the stored sessions that are not past their own expiry; an expired one is reported
        as missing and deleted, others acting between the read and the delete. */
    method Get(sessionID: string, clock: int, readFails: bool, meanwhile: seq<Event>, deleted: bool) returns (r: Result<Session>)
      requires Valid()
      modifies this
      ensures Valid() && old(trace) <= trace
      ensures r.CacheError? <==> readFails
      ensures r.Ok? <==> !readFails && sessionID in old(state).sessions && clock <= old(state).sessions[sessionID].expiresAt
      ensures r.Ok? ==> r.value == old(state).sessions[sessionID] && trace == old(trace) + [Answer(sessionID, clock)]
      ensures !r.Ok? ==>
                if !readFails && sessionID in old(state).sessions && sessionID != "" then
                  && |trace| > |old(trace)| && trace[|trace| - 1] == Delete(sessionID, deleted)
                  && (deleted ==> sessionID !in state.sessions)
                else trace == old(trace)
    {
      if readFails {
        return CacheError;
      }
      if sessionID !in state.sessions {
        return Invalid;
      }
      var session := state.sessions[sessionID];
      if Expired(session, clock) {
        if sessionID != "" {
          Interleave(meanwhile);
          Perform(Delete(sessionID, deleted));
        }
        return Invalid;
      }
      Perform(Answer(sessionID, clock));
      return Ok(session);
    }

    method Logout(sessionID: string, network: Network)
      requires Valid()
      modifies this
      ensures Valid()
      ensures trace == if sessionID == "" then old(trace) else old(trace) + [Delete(sessionID, network.applied)]
      ensures sessionID != "" && network.applied ==> sessionID !in state.sessions
    {
      if sessionID == "" {
        return;
      }
      Perform(Delete(sessionID, network.applied));
    }
  }
}
