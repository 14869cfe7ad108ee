/** The verifier's cache as an object, one caller at a time.  Each method is proved against the
    steps of the interleaving: alone, a call is a run of its own steps. */
module JwksVerifier {
  import opened Decimal
  import opened JwksCodec
  import opened JwksCache

  /** refresh with its fetch outcome: None is a failed fetch or an open breaker. */
  function Refreshed(c: Cache, fetched: Option<Keys>, now: nat): Cache {
    var counted := Counted(Attempted(c), fetched.Some?);
    if fetched.None? then counted else Installed(counted, fetched.value, now)
  }

  /** keyFor: what a lone caller gets, with the clock readings it makes. */
  function KeyFor(c: Cache, kid: string, t0: nat, t1: nat, fetched: Option<Keys>, t2: nat, limits: Limits): (Cache, Option<PublicKey>) {
    if kid in c.keys then (c, Some(c.keys[kid]))
    else if InCooldown(c, t0, limits) then (c, None)
    else
      var c' := Refreshed(MissTaken(c, t1), fetched, t2);
      (c', if fetched.None? then None else Lookup(c', kid))
  }

  class Verifier {
    const limits: Limits
    var keys: Keys
    var fetchedAt: Option<nat>
    var lastMissRefresh: Option<nat>
    var fetchAttempts: nat
    var fetchSuccesses: nat
    var fetchFailures: nat

    function View(): Cache
      reads this
    {
      Cache(keys, fetchedAt, lastMissRefresh, fetchAttempts, fetchSuccesses, fetchFailures)
    }

    constructor (cooldown: int, ttl: int)
      requires cooldown <= MAX_INT64 && ttl <= MAX_INT64
      ensures View() == EMPTY && limits.Valid()
      ensures limits.cooldown == if cooldown > 0 then cooldown else 10_000_000_000
      ensures limits.ttl == if ttl > 0 then ttl else 300_000_000_000
      ensures keys == map[] && fetchedAt == None && lastMissRefresh == None
      ensures fetchAttempts == 0 && fetchSuccesses == 0 && fetchFailures == 0
    {
      var chosen := DEFAULTS;
      if cooldown > 0 {
        chosen := chosen.(cooldown := cooldown);
      }
      if ttl > 0 {
        chosen := chosen.(ttl := ttl);
      }
      limits := chosen;
      keys, fetchedAt, lastMissRefresh := map[], None, None;
      fetchAttempts, fetchSuccesses, fetchFailures := 0, 0, 0;
    }

    method Refresh(fetched: Option<Keys>, now: nat) returns (ok: bool)
      modifies this
      ensures View() == Refreshed(old(View()), fetched, now)
      ensures ok <==> fetched.Some?
      ensures !ok ==> keys == old(keys) && fetchedAt == old(fetchedAt)
      ensures ok ==> keys == fetched.value && fetchedAt == Some(now)
      ensures fetchAttempts == (old(fetchAttempts) + 1) % 0x1_0000_0000_0000_0000 && lastMissRefresh == old(lastMissRefresh)
      ensures fetchSuccesses == if ok then (old(fetchSuccesses) + 1) % 0x1_0000_0000_0000_0000 else old(fetchSuccesses)
      ensures fetchFailures == if ok then old(fetchFailures) else (old(fetchFailures) + 1) % 0x1_0000_0000_0000_0000
    {
      fetchAttempts := Bump(fetchAttempts);
      if fetched.None? {
        fetchFailures := Bump(fetchFailures);
        return false;
      }
      fetchSuccesses := Bump(fetchSuccesses);
      keys := fetched.value;
      fetchedAt := Some(now);
      return true;
    }

    method RefreshIfStale(t0: nat, fetched: Option<Keys>, t1: nat)
      modifies this
      ensures View() == if IsStale(old(View()), t0, limits) then Refreshed(old(View()), fetched, t1) else old(View())
      ensures fetchAttempts != old(fetchAttempts) <==>
                limits.ttl < MAX_INT64 && (old(fetchedAt).None? || t0 - old(fetchedAt).value > limits.ttl)
      ensures fetchAttempts != old(fetchAttempts) && fetched.Some? ==> keys == fetched.value && fetchedAt == Some(t1)
      ensures fetchAttempts == old(fetchAttempts) || fetched.None? ==> keys == old(keys) && fetchedAt == old(fetchedAt)
    {
      var stale := Since(fetchedAt, t0) > limits.ttl;
      if stale {
        var _ := Refresh(fetched, t1);
      }
    }

    method GetKey(kid: string, t0: nat, t1: nat, fetched: Option<Keys>, t2: nat) returns (key: Option<PublicKey>)
      modifies this
      ensures (View(), key) == KeyFor(old(View()), kid, t0, t1, fetched, t2, limits)
      ensures kid in old(keys) ==> key == Some(old(keys)[kid]) && View() == old(View())
      ensures var cools := old(lastMissRefresh).Some? && t0 - old(lastMissRefresh).value < limits.cooldown;
              limits.Valid() ==>
              && (kid !in old(keys) && cools ==> key == None && View() == old(View()))
              && (kid !in old(keys) && !cools ==>
                    && lastMissRefresh == Some(t1) && fetchAttempts == (old(fetchAttempts) + 1) % 0x1_0000_0000_0000_0000
                    && (forall k :: key == Some(k) <==> fetched.Some? && kid in fetched.value && fetched.value[kid] == k)
                    && keys == if fetched.Some? then fetched.value else old(keys))
    {
      if kid in keys {
        return Some(keys[kid]);
      }
      if Since(lastMissRefresh, t0) < limits.cooldown {
        return None;
      }
      lastMissRefresh := Some(t1);
      var ok := Refresh(fetched, t2);
      if !ok {
        return None;
      }
      return if kid in keys then Some(keys[kid]) else None;
    }
  }

  // ---- alone, a call is a run

  /** The refresh of call `id` in state `s`, which takes `wait` for its fetch. */
  function RefreshSteps(id: nat, reply: Reply, wait: nat): seq<Event> {
    [Attempt(id), Return(id, reply)] + [Tick(wait), Install(id)]
  }

  lemma ExecTwo(s: System, a: Event, b: Event, limits: Limits)
    ensures Exec(s, [a, b], limits) == Apply(Apply(s, a, limits), b, limits)
  {
    assert [a, b][1..] == [b] && [b][1..] == [];
    assert Exec(Apply(s, a, limits), [b], limits) == Exec(Apply(Apply(s, a, limits), b, limits), [], limits);
  }

  lemma FetchAlone(s: System, id: nat, kid: string, why: Reason, reply: Reply, limits: Limits)
    requires id in s.calls && s.calls[id] == Refreshing(kid, why)
    ensures var s' := Exec(s, [Attempt(id), Return(id, reply)], limits);
            && s'.now == s.now && s'.cache == Counted(Attempted(s.cache), Fetched(reply).Some?) && id in s'.calls
            && (if Fetched(reply).None? then s'.calls[id] == (if why.Miss? then Done(kid, None) else Looking(kid))
                else s'.calls[id] == Loaded(kid, why, |s.served|) && s'.served == s.served + [reply.entries])
  {
    ExecTwo(s, Attempt(id), Return(id, reply), limits);
    var s1 := Apply(s, Attempt(id), limits);
    assert s1 == DoAttempt(s, id, kid, why);
    assert Apply(s1, Return(id, reply), limits) == DoReturn(s1, id, kid, why, reply);
  }

  lemma InstallAlone(s: System, id: nat, wait: nat, limits: Limits)
    requires id in s.calls && (s.calls[id].Loaded? ==> s.calls[id].snapshot < |s.served|)
    ensures var s' := Exec(s, [Tick(wait), Install(id)], limits);
            && id in s'.calls
            && (if s.calls[id].Loaded? then
                  && s'.cache == Installed(s.cache, Collected(Items(s.served[s.calls[id].snapshot])), s.now + wait)
                  && s'.calls[id] == (if s.calls[id].why.Miss? then Relooking(s.calls[id].kid) else Looking(s.calls[id].kid))
                else s'.cache == s.cache && s'.calls[id] == s.calls[id])
  {
    ExecTwo(s, Tick(wait), Install(id), limits);
  }

  lemma RefreshAlone(s: System, id: nat, kid: string, why: Reason, reply: Reply, wait: nat, limits: Limits)
    requires id in s.calls && s.calls[id] == Refreshing(kid, why)
    ensures var s' := Exec(s, RefreshSteps(id, reply, wait), limits);
            && s'.cache == Refreshed(s.cache, Fetched(reply), s.now + wait)
            && id in s'.calls
            && s'.calls[id] == (if why.Stale? then Looking(kid) else if Fetched(reply).None? then Done(kid, None) else Relooking(kid))
  {
    ExecConcat(s, [Attempt(id), Return(id, reply)], [Tick(wait), Install(id)], limits);
    FetchAlone(s, id, kid, why, reply, limits);
    InstallAlone(Exec(s, [Attempt(id), Return(id, reply)], limits), id, wait, limits);
  }

  /** refreshIfStale alone. */
  lemma StaleRefreshIsARun(s: System, id: nat, kid: string, reply: Reply, wait: nat, limits: Limits)
    requires id in s.calls && s.calls[id] == Started(kid)
    ensures var s' := Exec(s, [CheckStale(id)] + RefreshSteps(id, reply, wait), limits);
            && id in s'.calls && s'.calls[id] == Looking(kid)
            && s'.cache == if IsStale(s.cache, s.now, limits) then Refreshed(s.cache, Fetched(reply), s.now + wait) else s.cache
  {
    var s1 := Apply(s, CheckStale(id), limits);
    assert ([CheckStale(id)] + RefreshSteps(id, reply, wait))[1..] == RefreshSteps(id, reply, wait);
    if IsStale(s.cache, s.now, limits) {
      RefreshAlone(s1, id, kid, Stale, reply, wait, limits);
    } else {
      IdleRefresh(s1, id, reply, wait, limits);
    }
  }

  /** A call that does not refresh lets the steps of a refresh pass. */
  lemma IdleRefresh(s: System, id: nat, reply: Reply, wait: nat, limits: Limits)
    requires id in s.calls && (s.calls[id].Looking? || s.calls[id].Done?)
    ensures Exec(s, RefreshSteps(id, reply, wait), limits) == s.(now := s.now + wait)
  {
    ExecConcat(s, [Attempt(id), Return(id, reply)], [Tick(wait), Install(id)], limits);
    ExecTwo(s, Attempt(id), Return(id, reply), limits);
    ExecTwo(s, Tick(wait), Install(id), limits);
  }

  function KeySteps(id: nat, d: nat, reply: Reply, wait: nat): seq<Event> {
    [Look(id), TakeMiss(id, d)] + (RefreshSteps(id, reply, wait) + [Relook(id)])
  }

  /** keyFor alone. */
  lemma KeyForIsARun(s: System, id: nat, kid: string, d: nat, reply: Reply, wait: nat, limits: Limits)
    requires id in s.calls && s.calls[id] == Looking(kid)
    ensures var s' := Exec(s, KeySteps(id, d, reply, wait), limits);
            var (c', key) := KeyFor(s.cache, kid, s.now, s.now + d, Fetched(reply), s.now + d + wait, limits);
            s'.cache == c' && id in s'.calls && s'.calls[id] == Done(kid, key)
  {
    ExecConcat(s, [Look(id), TakeMiss(id, d)], RefreshSteps(id, reply, wait) + [Relook(id)], limits);
    LookAlone(s, id, kid, d, limits);
    var s2 := Exec(s, [Look(id), TakeMiss(id, d)], limits);
    if s2.calls[id].Done? {
      DoneStays(s2, id, reply, wait, limits);
    } else {
      MissAlone(s2, id, kid, reply, wait, limits);
    }
  }

  lemma LookAlone(s: System, id: nat, kid: string, d: nat, limits: Limits)
    requires id in s.calls && s.calls[id] == Looking(kid)
    ensures var s' := Exec(s, [Look(id), TakeMiss(id, d)], limits);
            && id in s'.calls
            && (if kid in s.cache.keys then s'.cache == s.cache && s'.calls[id] == Done(kid, Some(s.cache.keys[kid]))
                else if InCooldown(s.cache, s.now, limits) then s'.cache == s.cache && s'.calls[id] == Done(kid, None)
                else s'.cache == MissTaken(s.cache, s.now + d) && s'.now == s.now + d && s'.calls[id] == Refreshing(kid, Miss))
  {
    ExecTwo(s, Look(id), TakeMiss(id, d), limits);
    var s1 := Apply(s, Look(id), limits);
    assert s1 == DoLook(s, id, kid);
  }

  lemma DoneStays(s: System, id: nat, reply: Reply, wait: nat, limits: Limits)
    requires id in s.calls && s.calls[id].Done?
    ensures var s' := Exec(s, RefreshSteps(id, reply, wait) + [Relook(id)], limits);
            s'.cache == s.cache && id in s'.calls && s'.calls[id] == s.calls[id]
  {
    ExecConcat(s, RefreshSteps(id, reply, wait), [Relook(id)], limits);
    IdleRefresh(s, id, reply, wait, limits);
    LastStep(Exec(s, RefreshSteps(id, reply, wait), limits), Relook(id), limits);
  }

  lemma MissAlone(s: System, id: nat, kid: string, reply: Reply, wait: nat, limits: Limits)
    requires id in s.calls && s.calls[id] == Refreshing(kid, Miss)
    ensures var s' := Exec(s, RefreshSteps(id, reply, wait) + [Relook(id)], limits);
            var c' := Refreshed(s.cache, Fetched(reply), s.now + wait);
            s'.cache == c' && id in s'.calls && s'.calls[id] == Done(kid, if Fetched(reply).None? then None else Lookup(c', kid))
  {
    ExecConcat(s, RefreshSteps(id, reply, wait), [Relook(id)], limits);
    RefreshAlone(s, id, kid, Miss, reply, wait, limits);
    LastStep(Exec(s, RefreshSteps(id, reply, wait), limits), Relook(id), limits);
  }

  lemma LastStep(s: System, e: Event, limits: Limits)
    ensures Exec(s, [e], limits) == Apply(s, e, limits)
  {
    assert [e][1..] == [];
    assert Exec(Apply(s, e, limits), [], limits) == Apply(s, e, limits);
  }

  // ---- what callers are answered

  /** In the interleaving a call past its Install answers with what the map then installed holds. */
  lemma RelookAnswers(s: System, id: nat, kid: string, limits: Limits)
    requires id in s.calls && s.calls[id] == Relooking(kid)
    ensures var s' := Apply(s, Relook(id), limits);
            && id in s'.calls && s'.cache == s.cache
            && (kid in s.cache.keys ==> s'.calls[id] == Done(kid, Some(s.cache.keys[kid])))
            && (kid !in s.cache.keys ==> s'.calls[id] == Done(kid, None))
  {
  }

  /** A key that is served for a kid was in one of the key sets that came back. */
  predicate WasServed(served: seq<seq<Jwk>>, kid: string, key: PublicKey) {
    exists i :: 0 <= i < |served| && kid in Collected(Items(served[i])) && Collected(Items(served[i]))[kid] == key
  }

  ghost predicate AnswersOk(s: System) {
    && (forall kid :: kid in s.cache.keys ==> WasServed(s.served, kid, s.cache.keys[kid]))
    && (forall id :: id in s.calls && s.calls[id].Done? && s.calls[id].key.Some? ==>
          WasServed(s.served, s.calls[id].kid, s.calls[id].key.value))
  }

  lemma ServedStays(served: seq<seq<Jwk>>, entries: seq<Jwk>)
    ensures forall kid, key :: WasServed(served, kid, key) ==> WasServed(served + [entries], kid, key)
  {
    forall kid, key | WasServed(served, kid, key) ensures WasServed(served + [entries], kid, key) {
      var i :| 0 <= i < |served| && kid in Collected(Items(served[i])) && Collected(Items(served[i]))[kid] == key;
      assert (served + [entries])[i] == served[i];
    }
  }

  lemma StepKeepsAnswers(s: System, id: nat, e: Event, limits: Limits)
    requires AnswersOk(s) && id in s.calls
    ensures AnswersOk(Step(s, id, s.calls[id], e, limits))
  {
    if s.calls[id].Fetching? && e.Return? && Fetched(e.reply).Some? {
      ServedStays(s.served, e.reply.entries);
    }
  }

  lemma {:induction false} AnswersKept(s: System, es: seq<Event>, limits: Limits)
    requires AnswersOk(s)
    ensures AnswersOk(Exec(s, es, limits))
    decreases es
  {
    if es != [] {
      match es[0] {
        case Tick(_) =>
        case Call(_, _) =>
        case _ => if es[0].id in s.calls { StepKeepsAnswers(s, es[0].id, es[0], limits); }
      }
      AnswersKept(Apply(s, es[0], limits), es[1..], limits);
    }
  }

  /** In every run: whatever key a call answers with, some key set that came back held it for that kid. */
  lemma AnswersWereServed(es: seq<Event>, id: nat, limits: Limits)
    requires var s := Exec(INIT, es, limits); id in s.calls && s.calls[id].Done? && s.calls[id].key.Some?
    ensures var s := Exec(INIT, es, limits); WasServed(s.served, s.calls[id].kid, s.calls[id].key.value)
  {
    AnswersKept(INIT, es, limits);
  }

  /** And a kid that a reply brings is found: a call that misses, waits out no cooldown and is not
      disturbed answers with exactly the key that came back. */
  lemma RotationPropagates(s: System, id: nat, kid: string, d: nat, entries: seq<Jwk>, wait: nat, limits: Limits)
    requires id in s.calls && s.calls[id] == Looking(kid) && kid !in s.cache.keys
    requires s.cache.lastMiss.None? || s.now - s.cache.lastMiss.value >= limits.cooldown
    requires limits.Valid() && kid in Collected(Items(entries))
    ensures var s' := Exec(s, KeySteps(id, d, Served(entries), wait), limits);
            id in s'.calls && s'.calls[id] == Done(kid, Some(Collected(Items(entries))[kid]))
  {
    KeyForIsARun(s, id, kid, d, Served(entries), wait, limits);
  }
}
