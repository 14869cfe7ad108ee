/** What every run of the key cache keeps: its counters, the pace of its refetches, and the whole
    key set it holds. */
module JwksCacheProofs {
  import opened Collections
  import opened Decimal
  import opened JwksCodec
  import opened JwksCache

  // ---- counters

  function Flights(calls: map<nat, Phase>): set<nat> {
    set id | id in calls && calls[id].Fetching?
  }

  lemma FlightsTo(calls: map<nat, Phase>, id: nat, p: Phase)
    ensures |Flights(calls[id := p])| == |Flights(calls)| - One(id in calls && calls[id].Fetching?) + One(p.Fetching?)
  {
    OtherFlights(calls, id, p);
    Removed(Flights(calls), id);
    Removed(Flights(calls[id := p]), id);
  }

  lemma OtherFlights(calls: map<nat, Phase>, id: nat, p: Phase)
    ensures Flights(calls[id := p]) - {id} == Flights(calls) - {id}
  {
  }

  /** attempts = successes + failures + fetches in flight, up to the wrap-around of the counters. */
  predicate Conserved(c: Cache, flights: nat) {
    c.attempts == (c.successes + c.failures + flights) % TWO_TO_THE_64
  }

  predicate CountersOk(s: System) {
    Conserved(s.cache, |Flights(s.calls)|)
  }

  lemma BumpIsModular(x: nat, y: nat)
    ensures (Bump(x) + y) % TWO_TO_THE_64 == (x + 1 + y) % TWO_TO_THE_64
  {
    var q := (x + 1) / TWO_TO_THE_64;
    assert x + 1 == q * TWO_TO_THE_64 + Bump(x);
    ModMultiple(Bump(x) + y, q);
  }

  lemma ModMultiple(x: nat, q: nat)
    ensures (q * TWO_TO_THE_64 + x) % TWO_TO_THE_64 == x % TWO_TO_THE_64
  {
    var r := x % TWO_TO_THE_64;
    var k := x / TWO_TO_THE_64;
    assert q * TWO_TO_THE_64 + x == (q + k) * TWO_TO_THE_64 + r;
  }

  lemma AttemptConserves(c: Cache, flights: nat)
    requires Conserved(c, flights)
    ensures Conserved(Attempted(c), flights + 1)
  {
    BumpIsModular(c.successes + c.failures + flights, 0);
    BumpIsModular(c.attempts, 0);
    var sum := c.successes + c.failures + flights;
    assert c.attempts == sum % TWO_TO_THE_64;
    var q := sum / TWO_TO_THE_64;
    assert sum + 1 == q * TWO_TO_THE_64 + (c.attempts + 1);
    ModMultiple(c.attempts + 1, q);
  }

  lemma ReturnConserves(c: Cache, ok: bool, flights: nat)
    requires Conserved(c, flights + 1)
    ensures Conserved(Counted(c, ok), flights)
  {
    if ok {
      BumpIsModular(c.successes, c.failures + flights);
    } else {
      BumpIsModular(c.failures, c.successes + flights);
    }
  }

  lemma StepKeepsCounters(s: System, id: nat, e: Event, limits: Limits)
    requires CountersOk(s) && id in s.calls
    ensures CountersOk(Step(s, id, s.calls[id], e, limits))
  {
    var s' := Step(s, id, s.calls[id], e, limits);
    if s' != s {
      FlightsTo(s.calls, id, s'.calls[id]);
      match s.calls[id] {
        case Refreshing(kid, why) => AttemptConserves(s.cache, |Flights(s.calls)|);
        case Fetching(kid, why) => ReturnConserves(s.cache, Fetched(e.reply).Some?, |Flights(s.calls)| - 1);
        case _ =>
      }
    }
  }

  lemma ApplyKeepsCounters(s: System, e: Event, limits: Limits)
    requires CountersOk(s)
    ensures CountersOk(Apply(s, e, limits))
  {
    match e
    case Tick(_) =>
    case Call(id, kid) => FlightsTo(s.calls, id, Started(kid));
    case _ => if e.id in s.calls { StepKeepsCounters(s, e.id, e, limits); }
  }

  lemma {:induction false} CountersConserved(s: System, es: seq<Event>, limits: Limits)
    requires CountersOk(s)
    ensures CountersOk(Exec(s, es, limits))
    decreases es
  {
    if es != [] {
      ApplyKeepsCounters(s, es[0], limits);
      CountersConserved(Apply(s, es[0], limits), es[1..], limits);
    }
  }

  // ---- the pace of misses

  predicate Spaced(misses: seq<nat>, cooldown: nat) {
    forall i :: 0 < i < |misses| ==> misses[i - 1] + cooldown <= misses[i]
  }

  predicate PaceOk(s: System, limits: Limits) {
    && Spaced(s.misses, limits.cooldown)
    && (s.misses == [] ==> s.cache.lastMiss == None)
    && (s.misses != [] ==> s.cache.lastMiss == Some(s.misses[|s.misses| - 1]) && s.misses[|s.misses| - 1] <= s.now)
  }

  lemma TakeMissKeepsPace(s: System, id: nat, kid: string, d: nat, limits: Limits)
    requires PaceOk(s, limits) && limits.Valid()
    ensures PaceOk(DoTakeMiss(s, id, kid, d, limits), limits)
  {
  }

  lemma ApplyKeepsPace(s: System, e: Event, limits: Limits)
    requires PaceOk(s, limits) && limits.Valid()
    ensures PaceOk(Apply(s, e, limits), limits)
  {
    if e.TakeMiss? && e.id in s.calls && s.calls[e.id].Missed? {
      TakeMissKeepsPace(s, e.id, s.calls[e.id].kid, e.d, limits);
    }
  }

  /** How many of the refreshes were taken in the closed interval. */
  function Within(misses: seq<nat>, from: int, to: int): nat {
    if misses == [] then 0
    else Within(misses[..|misses| - 1], from, to) + One(from <= misses[|misses| - 1] <= to)
  }

  lemma {:induction false} SpacedIsSorted(misses: seq<nat>, cooldown: nat, i: nat, j: nat)
    requires Spaced(misses, cooldown) && i <= j < |misses|
    ensures misses[i] <= misses[j]
    decreases j
  {
    if i < j {
      SpacedIsSorted(misses, cooldown, i, j - 1);
    }
  }

  lemma {:induction false} WithinCut(misses: seq<nat>, from: int, to: int, cut: int)
    requires cut <= to && forall i :: 0 <= i < |misses| ==> misses[i] <= cut
    ensures Within(misses, from, to) == Within(misses, from, cut)
  {
    if misses != [] {
      WithinCut(misses[..|misses| - 1], from, to, cut);
    }
  }

  lemma OneMorePeriod(n: nat, cooldown: nat, length: int)
    requires n > 0 ==> (n - 1) * cooldown <= length - cooldown
    requires length >= 0
    ensures n * cooldown <= length
  {
    if n > 0 {
      assert n * cooldown == (n - 1) * cooldown + cooldown;
    }
  }

  /** Those in an interval take up all but one of their periods. */
  lemma {:induction false} WithinSpan(misses: seq<nat>, cooldown: nat, from: int, to: int)
    requires Spaced(misses, cooldown) && cooldown > 0
    ensures Within(misses, from, to) > 0 ==> (Within(misses, from, to) - 1) * cooldown <= to - from
  {
    if misses != [] {
      var init, last := misses[..|misses| - 1], misses[|misses| - 1];
      if from <= last <= to {
        var cut := last - cooldown;
        InitBefore(misses, cooldown);
        WithinCut(init, from, to, cut);
        WithinSpan(init, cooldown, from, cut);
        OneMorePeriod(Within(init, from, cut), cooldown, last - from);
      } else {
        WithinSpan(init, cooldown, from, to);
      }
    }
  }

  lemma AtMostQuotient(n: nat, length: nat, d: nat)
    requires n * d <= length && d > 0
    ensures n <= length / d
  {
    assert length < d * (length / d) + d;
    if n > length / d {
      MulOrder(length / d + 1, n, d);
    }
  }

  lemma MulOrder(a: nat, b: nat, d: nat)
    requires a <= b
    ensures a * d <= b * d
  {
  }

  lemma InitBefore(misses: seq<nat>, cooldown: nat)
    requires Spaced(misses, cooldown) && misses != []
    ensures forall i :: 0 <= i < |misses| - 1 ==> misses[i] + cooldown <= misses[|misses| - 1]
  {
    forall i | 0 <= i < |misses| - 1 ensures misses[i] + cooldown <= misses[|misses| - 1] {
      SpacedIsSorted(misses, cooldown, i, |misses| - 2);
    }
  }

  lemma {:induction false} PaceKept(s: System, es: seq<Event>, limits: Limits)
    requires PaceOk(s, limits) && limits.Valid()
    ensures PaceOk(Exec(s, es, limits), limits)
    decreases es
  {
    if es != [] {
      ApplyKeepsPace(s, es[0], limits);
      PaceKept(Apply(s, es[0], limits), es[1..], limits);
    }
  }

  /** In every interleaving, any interval of length L holds at most ⌊L / RefreshCooldown⌋ + 1
      refreshes triggered by a miss. */
  lemma MissRefreshBound(es: seq<Event>, limits: Limits, from: nat, length: nat)
    requires limits.Valid()
    ensures Within(Exec(INIT, es, limits).misses, from, from + length) <= length / limits.cooldown + 1
  {
    PaceKept(INIT, es, limits);
    WithinBound(Exec(INIT, es, limits).misses, limits.cooldown, from, length);
  }

  lemma WithinBound(misses: seq<nat>, cooldown: nat, from: nat, length: nat)
    requires Spaced(misses, cooldown) && cooldown > 0
    ensures Within(misses, from, from + length) <= length / cooldown + 1
  {
    var n := Within(misses, from, from + length);
    if n > 0 {
      WithinSpan(misses, cooldown, from, from + length);
      AtMostQuotient(n - 1, length, cooldown);
    }
  }

  // ---- the refreshes that begin

  function Waiting(calls: map<nat, Phase>): set<nat> {
    set id | id in calls && IsWaiting(calls[id])
  }

  predicate IsWaiting(p: Phase) {
    p.Refreshing? && p.why.Miss?
  }

  lemma WaitingTo(calls: map<nat, Phase>, id: nat, p: Phase)
    ensures |Waiting(calls[id := p])| == |Waiting(calls)| - One(id in calls && IsWaiting(calls[id])) + One(IsWaiting(p))
  {
    OtherWaiting(calls, id, p);
    Removed(Waiting(calls), id);
    Removed(Waiting(calls[id := p]), id);
  }

  lemma OtherWaiting(calls: map<nat, Phase>, id: nat, p: Phase)
    ensures Waiting(calls[id := p]) - {id} == Waiting(calls) - {id}
  {
  }

  /** Each allowed miss begins one fetch at most. */
  predicate BegunOk(s: System) {
    |s.misses| == s.missAttempts + |Waiting(s.calls)|
  }

  lemma StepKeepsBegun(s: System, id: nat, e: Event, limits: Limits)
    requires BegunOk(s) && id in s.calls
    ensures BegunOk(Step(s, id, s.calls[id], e, limits))
  {
    var s' := Step(s, id, s.calls[id], e, limits);
    if s' != s {
      WaitingTo(s.calls, id, s'.calls[id]);
    }
  }

  lemma {:induction false} BegunKept(s: System, es: seq<Event>, limits: Limits)
    requires BegunOk(s)
    ensures BegunOk(Exec(s, es, limits))
    decreases es
  {
    if es != [] {
      match es[0] {
        case Tick(_) =>
        case Call(id, kid) => WaitingTo(s.calls, id, Started(kid));
        case _ => if es[0].id in s.calls { StepKeepsBegun(s, es[0].id, es[0], limits); }
      }
      BegunKept(Apply(s, es[0], limits), es[1..], limits);
    }
  }

  lemma {:induction false} AllWithin(misses: seq<nat>, to: nat)
    requires forall i :: 0 <= i < |misses| ==> misses[i] <= to
    ensures Within(misses, 0, to) == |misses|
  {
    if misses != [] {
      AllWithin(misses[..|misses| - 1], to);
    }
  }

  /** Since the process started, misses have begun at most ⌊elapsed / RefreshCooldown⌋ + 1 fetches. */
  lemma MissFetchBound(es: seq<Event>, limits: Limits)
    requires limits.Valid()
    ensures var s := Exec(INIT, es, limits); s.missAttempts <= s.now / limits.cooldown + 1
  {
    var s := Exec(INIT, es, limits);
    BegunKept(INIT, es, limits);
    PaceKept(INIT, es, limits);
    forall i | 0 <= i < |s.misses| ensures s.misses[i] <= s.now {
      SpacedIsSorted(s.misses, limits.cooldown, i, |s.misses| - 1);
    }
    AllWithin(s.misses, s.now);
    MissRefreshBound(es, limits, 0, s.now);
  }

  /** The cooldown does not slow down refreshes of a stale cache: any number of them begins at
      one instant, and none counts as a miss.  (With the largest lifetime there is, no cache is ever
      stale, since ages are capped there.) */
  lemma {:induction false} StaleRefreshesAreUnlimited(n: nat, limits: Limits) returns (es: seq<Event>)
    requires limits.Valid() && limits.ttl < MAX_INT64
    ensures var s := Exec(INIT, es, limits);
            && s.now == 0 && s.misses == [] && s.cache == EMPTY.(attempts := n % TWO_TO_THE_64)
            && |Flights(s.calls)| == n && (forall id :: id in s.calls ==> id < n)
  {
    if n == 0 {
      es := [];
    } else {
      var before := StaleRefreshesAreUnlimited(n - 1, limits);
      var more := [Call(n - 1, ""), CheckStale(n - 1), Attempt(n - 1)];
      es := before + more;
      ExecConcat(INIT, before, more, limits);
      var s := Exec(INIT, before, limits);
      OneMoreStale(s, n - 1, limits);
      FlightsTo(s.calls, n - 1, Fetching("", Stale));
      BumpOfMod(n - 1);
    }
  }

  lemma BumpOfMod(n: nat)
    ensures Bump(n % TWO_TO_THE_64) == (n + 1) % TWO_TO_THE_64
  {
    var q := n / TWO_TO_THE_64;
    ModMultiple(n % TWO_TO_THE_64 + 1, q);
  }

  lemma ExecThree(s: System, a: Event, b: Event, c: Event, limits: Limits)
    ensures Exec(s, [a, b, c], limits) == Apply(Apply(Apply(s, a, limits), b, limits), c, limits)
  {
    assert [a, b, c][1..] == [b, c] && [b, c][1..] == [c] && [c][1..] == [];
    var s1 := Apply(s, a, limits);
    assert Exec(s1, [b, c], limits) == Exec(Apply(s1, b, limits), [c], limits);
  }

  lemma OneMoreStale(s: System, id: nat, limits: Limits)
    requires limits.Valid() && limits.ttl < MAX_INT64 && id !in s.calls && s.cache.fetchedAt == None
    ensures Exec(s, [Call(id, ""), CheckStale(id), Attempt(id)], limits)
         == s.(cache := Attempted(s.cache), calls := s.calls[id := Fetching("", Stale)])
  {
    ExecThree(s, Call(id, ""), CheckStale(id), Attempt(id), limits);
    var s1 := Apply(s, Call(id, ""), limits);
    var s2 := Apply(s1, CheckStale(id), limits);
    assert s2 == To(s1, id, Refreshing("", Stale));
    assert s1.calls[id := Refreshing("", Stale)][id := Fetching("", Stale)] == s.calls[id := Fetching("", Stale)];
  }

  // ---- the key set

  /** The cache holds one whole, non-empty key set that was served, or nothing yet. */
  predicate Whole(s: System) {
    match s.current
    case None => s.cache.keys == map[] && s.cache.fetchedAt == None
    case Some(i) => i < |s.served| && Fetched(Served(s.served[i])) == Some(s.cache.keys) && s.cache.fetchedAt.Some?
  }

  predicate Usable(served: seq<seq<Jwk>>) {
    forall i :: 0 <= i < |served| ==> Fetched(Served(served[i])).Some?
  }

  predicate LoadsOk(s: System) {
    forall id :: id in s.calls && s.calls[id].Loaded? ==> s.calls[id].snapshot < |s.served|
  }

  predicate KeysOk(s: System) {
    Whole(s) && Usable(s.served) && LoadsOk(s)
  }

  lemma LoadKeepsKeys(s: System, id: nat, kid: string, why: Reason, entries: seq<Jwk>)
    requires KeysOk(s) && Fetched(Served(entries)).Some?
    ensures KeysOk(DoLoad(s, id, kid, why, entries))
  {
    var s' := DoLoad(s, id, kid, why, entries);
    assert forall i :: 0 <= i < |s.served| ==> s'.served[i] == s.served[i];
    assert Usable(s'.served);
    assert Whole(s');
  }

  lemma InstallKeepsKeys(s: System, id: nat, kid: string, why: Reason, i: nat)
    requires KeysOk(s) && i < |s.served|
    ensures KeysOk(DoInstall(s, id, kid, why, i))
  {
    assert Fetched(Served(s.served[i])).Some?;
  }

  lemma QuietKeepsKeys(s: System, s': System, id: nat, p: Phase)
    requires KeysOk(s) && !p.Loaded? && s'.calls == s.calls[id := p]
    requires s'.served == s.served && s'.current == s.current
    requires s'.cache.keys == s.cache.keys && s'.cache.fetchedAt == s.cache.fetchedAt
    ensures KeysOk(s')
  {
  }

  lemma StepKeepsKeys(s: System, id: nat, e: Event, limits: Limits)
    requires KeysOk(s) && id in s.calls
    ensures KeysOk(Step(s, id, s.calls[id], e, limits))
  {
    var p, s' := s.calls[id], Step(s, id, s.calls[id], e, limits);
    if p.Fetching? && e.Return? && Fetched(e.reply).Some? {
      assert e.reply == Served(e.reply.entries);
      LoadKeepsKeys(s, id, p.kid, p.why, e.reply.entries);
    } else if p.Loaded? && e.Install? {
      InstallKeepsKeys(s, id, p.kid, p.why, p.snapshot);
    } else if s' != s {
      QuietKeepsKeys(s, s', id, s'.calls[id]);
    }
  }

  lemma {:induction false} KeysKept(s: System, es: seq<Event>, limits: Limits)
    requires KeysOk(s)
    ensures KeysOk(Exec(s, es, limits))
    decreases es
  {
    if es != [] {
      match es[0] {
        case Tick(d) => 
        case Call(id, kid) => if id !in s.calls { QuietKeepsKeys(s, To(s, id, Started(kid)), id, Started(kid)); }
        case _ => if es[0].id in s.calls { StepKeepsKeys(s, es[0].id, es[0], limits); }
      }
      KeysKept(Apply(s, es[0], limits), es[1..], limits);
    }
  }
}
