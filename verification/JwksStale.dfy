/** When a stale cache begins refreshes: exactly from the moment it is older than its lifetime. */
module JwksStale {
  import opened Collections
  import opened JwksCache

  /** The step is the beginning of a refresh that a stale cache called for. */
  predicate BeginsStale(s: System, e: Event) {
    e.Attempt? && e.id in s.calls && IsCalledFor(s.calls[e.id])
  }

  predicate IsCalledFor(p: Phase) {
    p.Refreshing? && p.why.Stale?
  }

  /** No such refresh begins up to `until`. */
  predicate Quiet(s: System, es: seq<Event>, until: nat, limits: Limits)
    decreases es
  {
    es == [] || ((BeginsStale(s, es[0]) ==> s.now > until) && Quiet(Apply(s, es[0], limits), es[1..], until, limits))
  }

  /** The cache was fetched in the past. */
  predicate Dated(s: System) {
    s.cache.fetchedAt.Some? ==> s.cache.fetchedAt.value <= s.now
  }

  /** While the time lasts: nothing is called for, and the cache is not too old when it ends. */
  predicate Calm(s: System, until: nat, limits: Limits) {
    s.now <= until ==> (forall id :: id in s.calls ==> !IsCalledFor(s.calls[id])) && !IsStale(s.cache, until, limits)
  }

  lemma StepIsDated(s: System, e: Event, limits: Limits)
    requires Dated(s)
    ensures Dated(Apply(s, e, limits)) && Apply(s, e, limits).now >= s.now
  {
  }

  lemma {:induction false} RunIsDated(s: System, es: seq<Event>, limits: Limits)
    requires Dated(s)
    ensures Dated(Exec(s, es, limits))
    decreases es
  {
    if es != [] {
      StepIsDated(s, es[0], limits);
      RunIsDated(Apply(s, es[0], limits), es[1..], limits);
    }
  }

  // A cache that is installed anew lives longer.
  lemma InstallKeepsFresh(s: System, e: Event, until: nat, limits: Limits)
    requires Dated(s) && Apply(s, e, limits).now <= until && !IsStale(s.cache, until, limits)
    ensures !IsStale(Apply(s, e, limits).cache, until, limits)
  {
  }

  lemma StepCallsForNothing(s: System, e: Event, until: nat, limits: Limits, id: nat)
    requires s.now <= until && Calm(s, until, limits) && Dated(s) && id in Apply(s, e, limits).calls
    ensures !IsCalledFor(Apply(s, e, limits).calls[id])
  {
  }

  lemma StepKeepsCalm(s: System, e: Event, until: nat, limits: Limits)
    requires Calm(s, until, limits) && Dated(s)
    ensures Calm(Apply(s, e, limits), until, limits)
  {
    StepIsDated(s, e, limits);
    if Apply(s, e, limits).now <= until {
      InstallKeepsFresh(s, e, until, limits);
      forall id | id in Apply(s, e, limits).calls ensures !IsCalledFor(Apply(s, e, limits).calls[id]) {
        StepCallsForNothing(s, e, until, limits, id);
      }
    }
  }

  lemma {:induction false} CalmIsQuiet(s: System, es: seq<Event>, until: nat, limits: Limits)
    requires Calm(s, until, limits) && Dated(s)
    ensures Quiet(s, es, until, limits)
    decreases es
  {
    if es != [] {
      StepKeepsCalm(s, es[0], until, limits);
      StepIsDated(s, es[0], limits);
      CalmIsQuiet(Apply(s, es[0], limits), es[1..], until, limits);
    }
  }

  /** One more call, at the moment `until`. */
  function LateCall(s: System, id: nat, until: nat): seq<Event>
    requires s.now <= until
  {
    [Tick(until - s.now), Call(id, ""), CheckStale(id), Attempt(id)]
  }

  lemma LateCallBegins(s: System, id: nat, until: nat, limits: Limits)
    requires s.now <= until && IsStale(s.cache, until, limits) && id !in s.calls
    ensures !Quiet(s, LateCall(s, id, until), until, limits)
  {
    var es := LateCall(s, id, until);
    var s1 := Apply(s, es[0], limits);
    var s2 := Apply(s1, es[1], limits);
    var s3 := Apply(s2, es[2], limits);
    assert s3.calls[id] == Refreshing("", Stale) && s3.now == until;
    assert es[1..][0] == es[1] && es[1..][1..][0] == es[2] && es[1..][1..][1..][0] == es[3];
    assert !Quiet(s3, es[1..][1..][1..], until, limits);
    assert !Quiet(s2, es[1..][1..], until, limits);
    assert !Quiet(s1, es[1..], until, limits);
  }

  lemma NotCalmBegins(s: System, until: nat, limits: Limits) returns (es: seq<Event>)
    requires !Calm(s, until, limits)
    ensures !Quiet(s, es, until, limits)
  {
    if id :| id in s.calls && IsCalledFor(s.calls[id]) {
      es := [Attempt(id)];
      assert BeginsStale(s, es[0]);
    } else {
      var id := Above(s.calls.Keys);
      LateCallBegins(s, id, until, limits);
      es := LateCall(s, id, until);
    }
  }

  /** In every reachable state: no refresh of a stale cache can begin up to a moment that is still to come
      if and only if no call is about to begin one, and the cache will not be older than its lifetime then. */
  lemma StaleBeginsIff(before: seq<Event>, until: nat, limits: Limits)
    requires Exec(INIT, before, limits).now <= until
    ensures var s := Exec(INIT, before, limits);
            (forall es :: Quiet(s, es, until, limits)) <==>
              (forall id :: id in s.calls ==> !IsCalledFor(s.calls[id])) && Since(s.cache.fetchedAt, until) <= limits.ttl
  {
    var s := Exec(INIT, before, limits);
    RunIsDated(INIT, before, limits);
    if Calm(s, until, limits) {
      forall es ensures Quiet(s, es, until, limits) {
        CalmIsQuiet(s, es, until, limits);
      }
    } else {
      var es := NotCalmBegins(s, until, limits);
    }
  }
}
