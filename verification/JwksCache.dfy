/** The key cache of a resource server (pkg/jwks/verifier.go): concurrent Verify calls as an
    interleaving of their critical sections, counter updates and fetches. */
module JwksCache {
  import opened Decimal
  import opened JwksCodec

  type Keys = map<string, PublicKey>

  /** RefreshCooldown and CacheTTL; New replaces anything that is not positive by a default. */
  datatype Limits = Limits(cooldown: nat, ttl: nat) {
    predicate Valid() {
      0 < cooldown <= MAX_INT64 && 0 < ttl <= MAX_INT64
    }
  }

  const DEFAULTS := Limits(10_000_000_000, 300_000_000_000)

  datatype Cache = Cache(
    keys: Keys,
    fetchedAt: Option<nat>,         // None is the zero time
    lastMiss: Option<nat>,
    attempts: nat,                  // atomic.Uint64, so they wrap around
    successes: nat,
    failures: nat)

  const EMPTY := Cache(map[], None, None, 0, 0, 0)

  function Bump(counter: nat): nat {
    (counter + 1) % TWO_TO_THE_64
  }

  /** time.Since saturates: since the zero time it is the largest duration. */
  function Since(t: Option<nat>, now: nat): int {
    if t.None? || now - t.value > MAX_INT64 then MAX_INT64 else now - t.value
  }

  predicate IsStale(c: Cache, now: nat, limits: Limits) {
    Since(c.fetchedAt, now) > limits.ttl
  }

  predicate InCooldown(c: Cache, now: nat, limits: Limits) {
    Since(c.lastMiss, now) < limits.cooldown
  }

  function Lookup(c: Cache, kid: string): Option<PublicKey> {
    if kid in c.keys then Some(c.keys[kid]) else None
  }

  function Attempted(c: Cache): Cache {
    c.(attempts := Bump(c.attempts))
  }

  /** The counter of a fetch that came back. */
  function Counted(c: Cache, ok: bool): Cache {
    if ok then c.(successes := Bump(c.successes)) else c.(failures := Bump(c.failures))
  }

  function Installed(c: Cache, keys: Keys, now: nat): Cache {
    c.(keys := keys, fetchedAt := Some(now))
  }

  function MissTaken(c: Cache, now: nat): Cache {
    c.(lastMiss := Some(now))
  }

  // ---- the interleaving

  datatype Reason = Stale | Miss

  /** Where one call of Verify is. */
  datatype Phase =
    | Started(kid: string)
    | Refreshing(kid: string, why: Reason)
    | Fetching(kid: string, why: Reason)
    | Loaded(kid: string, why: Reason, snapshot: nat)   // an index into `served`
    | Looking(kid: string)
    | Missed(kid: string)
    | Relooking(kid: string)
    | Done(kid: string, key: Option<PublicKey>)         // None is ErrUnknownKey

  datatype System = System(
    now: nat,
    cache: Cache,
    calls: map<nat, Phase>,
    served: seq<seq<Jwk>>,          // the key sets that fetches returned, in order
    current: Option<nat>,           // which of them is installed
    misses: seq<nat>,               // when a miss was allowed to refresh
    missAttempts: nat)              // how many of those refreshes began

  const INIT := System(0, EMPTY, map[], [], None, [], 0)

  datatype Event =
    | Tick(d: nat)
    | Call(id: nat, kid: string)
    | CheckStale(id: nat)
    | Attempt(id: nat)
    | Return(id: nat, reply: Reply)
    | Install(id: nat)
    | Look(id: nat)
    | TakeMiss(id: nat, d: nat)     // the clock is read again d later, under the same lock
    | Relook(id: nat)

  function To(s: System, id: nat, p: Phase): System {
    s.(calls := s.calls[id := p])
  }

  function DoCheckStale(s: System, id: nat, kid: string, limits: Limits): System {
    To(s, id, if IsStale(s.cache, s.now, limits) then Refreshing(kid, Stale) else Looking(kid))
  }

  function DoAttempt(s: System, id: nat, kid: string, why: Reason): System {
    To(s.(cache := Attempted(s.cache), missAttempts := s.missAttempts + if why.Miss? then 1 else 0), id, Fetching(kid, why))
  }

  /** A failed fetch ends a miss with an error and leaves a stale cache as it is. */
  function DoFail(s: System, id: nat, kid: string, why: Reason): System {
    To(s.(cache := Counted(s.cache, false)), id, if why.Miss? then Done(kid, None) else Looking(kid))
  }

  function DoLoad(s: System, id: nat, kid: string, why: Reason, entries: seq<Jwk>): System {
    To(s.(cache := Counted(s.cache, true), served := s.served + [entries]), id, Loaded(kid, why, |s.served|))
  }

  function DoReturn(s: System, id: nat, kid: string, why: Reason, reply: Reply): System {
    if Fetched(reply).Some? then DoLoad(s, id, kid, why, reply.entries) else DoFail(s, id, kid, why)
  }

  function DoInstall(s: System, id: nat, kid: string, why: Reason, i: nat): System
    requires i < |s.served|
  {
    To(s.(cache := Installed(s.cache, Collected(Items(s.served[i])), s.now), current := Some(i)),
       id, if why.Miss? then Relooking(kid) else Looking(kid))
  }

  function DoLook(s: System, id: nat, kid: string): System {
    To(s, id, if kid in s.cache.keys then Done(kid, Some(s.cache.keys[kid])) else Missed(kid))
  }

  function DoTakeMiss(s: System, id: nat, kid: string, d: nat, limits: Limits): System {
    if InCooldown(s.cache, s.now, limits) then To(s, id, Done(kid, None))
    else
      var t := s.now + d;
      To(s.(now := t, cache := MissTaken(s.cache, t), misses := s.misses + [t]), id, Refreshing(kid, Miss))
  }

  function DoRelook(s: System, id: nat, kid: string): System {
    To(s, id, Done(kid, Lookup(s.cache, kid)))
  }

  /** The next step of call `id`, if `e` is that step; anything else changes nothing. */
  function Step(s: System, id: nat, p: Phase, e: Event, limits: Limits): System {
    match (p, e)
    case (Started(kid), CheckStale(_)) => DoCheckStale(s, id, kid, limits)
    case (Refreshing(kid, why), Attempt(_)) => DoAttempt(s, id, kid, why)
    case (Fetching(kid, why), Return(_, reply)) => DoReturn(s, id, kid, why, reply)
    case (Loaded(kid, why, i), Install(_)) => if i < |s.served| then DoInstall(s, id, kid, why, i) else s
    case (Looking(kid), Look(_)) => DoLook(s, id, kid)
    case (Missed(kid), TakeMiss(_, d)) => DoTakeMiss(s, id, kid, d, limits)
    case (Relooking(kid), Relook(_)) => DoRelook(s, id, kid)
    case _ => s
  }

  function Apply(s: System, e: Event, limits: Limits): System {
    match e
    case Tick(d) => s.(now := s.now + d)
    case Call(id, kid) => if id in s.calls then s else To(s, id, Started(kid))
    case _ => if e.id in s.calls then Step(s, e.id, s.calls[e.id], e, limits) else s
  }

  function Exec(s: System, es: seq<Event>, limits: Limits): System
    decreases es
  {
    if es == [] then s else Exec(Apply(s, es[0], limits), es[1..], limits)
  }

  lemma {:induction false} ExecConcat(s: System, a: seq<Event>, b: seq<Event>, limits: Limits)
    ensures Exec(s, a + b, limits) == Exec(Exec(s, a, limits), b, limits)
    decreases a
  {
    if a == [] {
      assert a + b == b;
    } else {
      assert (a + b)[0] == a[0] && (a + b)[1..] == a[1..] + b;
      ExecConcat(Apply(s, a[0], limits), a[1..], b, limits);
    }
  }
}
