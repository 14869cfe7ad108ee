/** One browser tab against the refresh token store.  The tab starts refreshes, logs in and out,
    reloads and gives up on requests at any time; other clients use the same store. */
module ClientServer {
  import opened RtrRedis
  import opened WebClient

  datatype System = System(
    server: World,
    tab: Client,
    own: set<Family>,             // families of this tab's logins
    owned: set<Token>,            // every token that was generated for them
    mail: set<Token>,             // login responses on their way
    requests: map<nat, Token>,    // every refresh request the tab ever sent
    abandoned: set<nat>,          // requests the tab gave up on
    lostCommit: bool,             // a rotation was committed whose reply the tab does not get
    stale: bool)                  // the tab sent a token that was rotated before

  datatype Move =
    | Elsewhere(e: Event)                        // another client, a revocation, time
    | Login(f: Family, t: Token, user: int)      // the server issues a first token to the tab
    | LoginArrives(t: Token)
    | LoginLost(t: Token)
    | Logout
    | FetchStart(i: nat)
    | FetchEnds(i: nat, unauthorized: bool, ok: bool, c: nat)
    | Restore(c: nat)                            // the refresh a page load starts
    | Reload
    | ServerGet(c: nat)
    | ServerScript(c: nat, next: Token)
    | ReplyArrives(served: bool)                 // not served: the server failed after the rotation
    | GiveUp                                     // the refresh request fails on the network

  const Init := System(Start, Client(NoToken, NoToken, NoFlight, map[]), {}, {}, {}, map[], {}, false, false)

  /** Others present what they were given: no token of this tab. */
  predicate IsForeign(s: System, e: Event) {
    match e
    case Lookup(c, t) => c !in s.requests && t !in s.owned
    case Script(c, _) => c !in s.requests
    case _ => true
  }

  // The refresh request `c` leaves the tab, if the client starts one.
  ghost function Send(s: System, tab: Client, c: nat): System {
    if tab.flight == s.tab.flight then s.(tab := tab)
    else s.(tab := tab, requests := s.requests[c := s.tab.stored], stale := s.stale || Spent(s.server, s.tab.stored))
  }

  predicate Unused(s: System, c: nat) {
    c !in s.requests && c !in s.server.calls
  }

  predicate HasRotated(w: World, c: nat) {
    c in w.calls && w.calls[c].Done? && w.calls[c].out.Rotated?
  }

  /** The tab stops listening for its refresh and goes on as `tab`. */
  function Drop(s: System, tab: Client): System {
    if s.tab.flight.NoFlight? then s.(tab := tab)
    else
      var c := s.tab.flight.c;
      s.(tab := tab, abandoned := s.abandoned + {c},
         lostCommit := s.lostCommit || HasRotated(s.server, c))
  }

  function Execute(s: System, c: nat, next: Token): System
    requires c in s.server.calls && s.server.calls[c].Looked?
  {
    var call := s.server.calls[c];
    var w := RunScript(s.server, c, call.held, call.rec, next);
    var rotated := HasRotated(w, c);
    s.(server := w,
       owned := if rotated then s.owned + {next} else s.owned,
       lostCommit := s.lostCommit || (c in s.abandoned && rotated))
  }

  function Receive(s: System, served: bool): System {
    if s.tab.flight.InFlight? && s.tab.flight.c in s.server.calls && s.server.calls[s.tab.flight.c].Done? then
      var out := s.server.calls[s.tab.flight.c].out;
      s.(tab := Replied(s.tab, if out.Rotated? && served then Tokens(out.next) else Refused))
    else s
  }

  /** As in the store, a move that cannot happen changes nothing. */
  ghost function Play(s: System, m: Move): System {
    match m
    case Elsewhere(e) => if IsForeign(s, e) then s.(server := Apply(s.server, e)) else s
    case Login(f, t, user) =>
      if Fresh(s.server, t) && f !in s.server.founded then
        s.(server := Apply(s.server, Issue(f, t, user)), own := s.own + {f}, owned := s.owned + {t}, mail := s.mail + {t})
      else s
    case LoginArrives(t) => if t in s.mail then s.(mail := s.mail - {t}, tab := Stored(s.tab, t)) else s
    case LoginLost(t) => s.(mail := s.mail - {t})
    case Logout => s.(tab := Cleared(s.tab))
    case FetchStart(i) =>
      if i !in s.tab.fetches then s.(tab := s.tab.(fetches := s.tab.fetches[i := WebClient.Sent(false)])) else s
    case FetchEnds(i, unauthorized, ok, c) =>
      if Unused(s, c) then Send(s, Responded(s.tab, i, unauthorized, ok, c), c) else s
    case Restore(c) => if Unused(s, c) then Send(s, Refreshing(s.tab, c), c) else s
    case Reload => Drop(s, Reloaded(s.tab))
    case ServerGet(c) =>
      if c in s.requests then s.(server := Apply(s.server, Lookup(c, s.requests[c]))) else s
    case ServerScript(c, next) =>
      if c in s.requests && c in s.server.calls && s.server.calls[c].Looked? && Fresh(s.server, next) then
        Execute(s, c, next)
      else s
    case ReplyArrives(served) => Receive(s, served)
    case GiveUp => if s.tab.flight.InFlight? then Drop(s, Replied(s.tab, NetworkError)) else s
  }

  ghost function Run(s: System, ms: seq<Move>): System
    decreases |ms|
  {
    if ms == [] then s else Run(Play(s, ms[0]), ms[1..])
  }

  // ---- the invariant

  /** The store keeps this tab's families and tokens apart from everybody else's. */
  ghost predicate Apart(s: System) {
    && s.owned <= s.server.minted && s.own <= s.server.founded
    && (forall t :: t in s.server.db.tokens ==>
          && t in s.server.minted && s.server.db.tokens[t].value.family in s.server.founded
          && (t in s.owned <==> s.server.db.tokens[t].value.family in s.own))
    && (forall f :: f in s.server.db.families ==>
          && f in s.server.founded && s.server.db.families[f].value in s.server.minted
          && (f in s.own <==> s.server.db.families[f].value in s.owned))
  }

  /** Calls that hold or rotated a token of this tab are requests of this tab. */
  ghost predicate CallsApart(s: System) {
    forall c :: c in s.server.calls ==> CallApart(s, c)
  }

  ghost predicate CallApart(s: System, c: nat)
    requires c in s.server.calls
  {
    var call := s.server.calls[c];
    && (c in s.requests ==> call.held == s.requests[c])
    && (call.Looked? ==>
          && call.held in s.server.minted && call.rec.family in s.server.founded
          && (c in s.requests <==> call.held in s.owned) && (c in s.requests <==> call.rec.family in s.own))
    && (call.Done? && call.out.Rotated? ==> call.held in s.server.minted && (c in s.requests <==> call.held in s.owned))
  }

  ghost predicate Owned(s: System) {
    && (forall c :: c in s.requests ==> s.requests[c] in s.owned && Accounted(s, c))
    && s.mail <= s.owned && s.abandoned <= s.requests.Keys
    && NoToken !in s.server.minted
    && (s.tab.stored == NoToken || s.tab.stored in s.owned)
    && (s.tab.flight.InFlight? ==> s.tab.flight.c in s.requests && s.requests[s.tab.flight.c] == s.tab.flight.rt
                                   && s.tab.flight.c !in s.abandoned)
  }

  /** A request is in flight, given up, or answered. */
  ghost predicate Accounted(s: System, c: nat) {
    || (s.tab.flight.InFlight? && s.tab.flight.c == c)
    || c in s.abandoned
    || (c in s.server.calls && s.server.calls[c].Done?)
  }

  /** The family of `t` points at `t`, if it points at anything. */
  ghost predicate Newest(w: World, t: Token) {
    t in w.db.tokens && w.db.tokens[t].value.family in w.db.families ==>
      w.db.families[w.db.tokens[t].value.family].value == t
  }

  /** A token of this tab that was never rotated. */
  ghost predicate Fit(s: System, t: Token) {
    t in s.owned && !Spent(s.server, t) && Newest(s.server, t)
  }

  /** Where the refresh in flight stands. */
  ghost predicate FlightOk(s: System) {
    s.tab.flight.InFlight? ==>
      var c, rt := s.tab.flight.c, s.tab.flight.rt;
      if c !in s.server.calls then Fit(s, rt)
      else match s.server.calls[c]
        case Looked(_, rec) =>
          && Fit(s, rt)
          && (rec.family in s.server.db.families ==> s.server.db.families[rec.family].value == rt)
        case Done(_, out) => out.Rotated? ==> Fit(s, out.next) && out.next !in s.mail && out.next != s.tab.stored
  }

  ghost predicate MailOk(s: System) {
    forall t :: t in s.mail ==> Fit(s, t) && t != s.tab.stored && (s.tab.flight.InFlight? ==> t != s.tab.flight.rt)
  }

  ghost predicate StoredOk(s: System) {
    s.tab.stored != NoToken ==>
      || Fit(s, s.tab.stored)
      || (s.tab.flight.InFlight? && s.tab.flight.rt == s.tab.stored && HasRotated(s.server, s.tab.flight.c))
  }

  /** No request the tab still waits for, or got its answer to, was answered with reuse. */
  ghost predicate NoReuse(s: System) {
    forall c :: c in s.requests && c !in s.abandoned && c in s.server.calls && s.server.calls[c].Done? ==>
      !s.server.calls[c].out.Reused?
  }

  ghost predicate Safe(s: System) {
    NoReuse(s) && !s.stale
  }

  ghost predicate Shape(s: System) {
    Apart(s) && CallsApart(s) && Owned(s)
  }

  ghost predicate Inv(s: System) {
    Shape(s) && FlightOk(s) && MailOk(s) && StoredOk(s) && Safe(s)
  }
}
