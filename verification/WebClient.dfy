/** The browser client's session state (web/src/auth.ts, web/src/api.ts).  Each function is what the
    code does between two awaits; nothing else of the page runs in between. */
module WebClient {
  import opened RtrRedis

  // refreshInFlight: the one refresh whose request is out, and the token it presented.
  datatype Flight = NoFlight | InFlight(c: nat, rt: Token)

  // An apiFetch: waiting for its response, waiting for the shared refresh, or over.
  datatype Fetch = Sent(retried: bool) | Parked | Ended(ok: bool)

  // How the refresh request ends: a token pair, a status that is not ok, a network failure.
  datatype Reply = Tokens(t: Token) | Refused | NetworkError

  datatype Client = Client(
    access: Token,        // the access token, named by the refresh token it came with
    stored: Token,        // localStorage; NoToken when the item is absent
    flight: Flight,
    fetches: map<nat, Fetch>)

  function Stored(cl: Client, t: Token): Client {
    cl.(access := t, stored := t)
  }

  function Cleared(cl: Client): Client {
    Stored(cl, NoToken)
  }

  /** refreshSession: a refresh in flight is shared; without a stored token nothing is sent. */
  function Refreshing(cl: Client, c: nat): Client {
    if cl.flight.NoFlight? && cl.stored != NoToken then cl.(flight := InFlight(c, cl.stored)) else cl
  }

  /** The shared promise resolves: every parked apiFetch retries once, or gives up with its 401. */
  function Wake(f: Fetch, ok: bool): Fetch {
    if !f.Parked? then f else if ok then Sent(true) else Ended(false)
  }

  function Resolved(cl: Client, ok: bool): Client {
    cl.(flight := NoFlight, fetches := map i | i in cl.fetches :: Wake(cl.fetches[i], ok))
  }

  /** doRefresh after its await: a pair is stored, a refusal clears, a network failure keeps. */
  function Replied(cl: Client, reply: Reply): Client {
    match reply
    case Tokens(t) => Resolved(Stored(cl, t), true)
    case Refused => Resolved(Cleared(cl), false)
    case NetworkError => Resolved(cl, false)
  }

  /** apiFetch after its first await.  A 401 of a first try parks behind a refresh when a session
      is stored; anything else ends the call. */
  function Responded(cl: Client, i: nat, unauthorized: bool, ok: bool, c: nat): Client {
    if i !in cl.fetches || !cl.fetches[i].Sent? then cl
    else if unauthorized && !cl.fetches[i].retried && cl.stored != NoToken then
      Refreshing(cl.(fetches := cl.fetches[i := Parked]), c)
    else cl.(fetches := cl.fetches[i := Ended(ok && !unauthorized)])
  }

  /** A page load keeps localStorage and nothing else. */
  function Reloaded(cl: Client): Client {
    Client(NoToken, cl.stored, NoFlight, map[])
  }

  class Tab {
    var accessToken: Token
    var refreshToken: Token // localStorage
    var refreshInFlight: Flight
    var fetches: map<nat, Fetch>

    function State(): Client
      reads this
    {
      Client(accessToken, refreshToken, refreshInFlight, fetches)
    }

    /** A page load, after whatever the tab was before. */
    constructor (before: Client)
      ensures State() == Reloaded(before)
      ensures accessToken == NoToken && refreshToken == before.stored && refreshInFlight == NoFlight && fetches == map[]
    {
      accessToken, refreshToken, refreshInFlight, fetches := NoToken, before.stored, NoFlight, map[];
    }

    method SetTokens(t: Token)
      modifies this`accessToken, this`refreshToken
      ensures State() == Stored(old(State()), t)
      ensures accessToken == t && refreshToken == t
    {
      accessToken := t;
      refreshToken := t;
    }

    method ClearTokens()
      modifies this`accessToken, this`refreshToken
      ensures State() == Cleared(old(State()))
      ensures accessToken == NoToken && refreshToken == NoToken
    {
      accessToken := NoToken;
      refreshToken := NoToken;
    }

    /** Returns the token to send, or NoToken when no request goes out. */
    method RefreshSession(c: nat) returns (request: Token)
      modifies this`refreshInFlight
      ensures State() == Refreshing(old(State()), c)
      ensures request != NoToken ==> old(refreshInFlight).NoFlight? && refreshInFlight == InFlight(c, request)
      ensures request == NoToken ==> refreshInFlight == old(refreshInFlight)
      ensures request == if old(refreshInFlight).NoFlight? then refreshToken else NoToken
    {
      request := NoToken;
      if refreshInFlight.NoFlight? {
        request := refreshToken;
        if request != NoToken {
          refreshInFlight := InFlight(c, request);
        }
      }
    }

    method FinishRefresh(reply: Reply)
      modifies this
      ensures State() == Replied(old(State()), reply)
      ensures refreshInFlight == NoFlight && fetches.Keys == old(fetches).Keys
      ensures match reply
              case Tokens(t) => accessToken == t && refreshToken == t
              case Refused => accessToken == NoToken && refreshToken == NoToken
              case NetworkError => accessToken == old(accessToken) && refreshToken == old(refreshToken)
      ensures forall i :: i in fetches ==>
                fetches[i] == if !old(fetches)[i].Parked? then old(fetches)[i] else if reply.Tokens? then Sent(true) else Ended(false)
    {
      var ok := false;
      match reply {
        case Tokens(t) =>
          SetTokens(t);
          ok := true;
        case Refused => ClearTokens();
        case NetworkError =>
      }
      refreshInFlight := NoFlight;
      fetches := map i | i in fetches :: Wake(fetches[i], ok);
    }

    method FinishFetch(i: nat, unauthorized: bool, ok: bool, c: nat)
      modifies this`refreshInFlight, this`fetches
      ensures State() == Responded(old(State()), i, unauthorized, ok, c)
      ensures i !in old(fetches) || !old(fetches)[i].Sent? ==> fetches == old(fetches) && refreshInFlight == old(refreshInFlight)
      ensures i in old(fetches) && old(fetches)[i].Sent? ==>
                var parks := unauthorized && old(fetches)[i] == Sent(false) && refreshToken != NoToken;
                && fetches == old(fetches)[i := if parks then Parked else Ended(ok && !unauthorized)]
                && refreshInFlight == if parks && old(refreshInFlight).NoFlight? then InFlight(c, refreshToken) else old(refreshInFlight)
    {
      if i in fetches && fetches[i].Sent? {
        if unauthorized && !fetches[i].retried && refreshToken != NoToken {
          fetches := fetches[i := Parked];
          var _ := RefreshSession(c);
        } else {
          fetches := fetches[i := Ended(ok && !unauthorized)];
        }
      }
    }
  }
}
