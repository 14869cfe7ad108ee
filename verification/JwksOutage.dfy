/** The key cache while the identity service is down, and while its key set changes. */
module JwksOutage {
  import opened Collections
  import opened Decimal
  import opened JwksCodec
  import opened JwksCache
  import opened JwksCacheProofs

  // ---- the identity service is down

  /** No fetch of the run gets a key set. */
  predicate Down(es: seq<Event>) {
    forall i :: 0 <= i < |es| && es[i].Return? ==> Fetched(es[i].reply) == None
  }

  /** A call whose kid is in `keys` has its key, or is on the way to it without a miss. */
  predicate Sure(p: Phase, keys: Keys) {
    p.kid in keys ==>
      match p
      case Done(kid, key) => key == Some(keys[kid])
      case Missed(_) => false
      case Relooking(_) => false
      case Refreshing(_, why) => why.Stale?
      case Fetching(_, why) => why.Stale?
      case _ => true
  }

  /** The cache holds `keys`, and no fetched key set waits to be installed. */
  predicate Steady(s: System, keys: Keys) {
    s.cache.keys == keys && forall id :: id in s.calls ==> !s.calls[id].Loaded?
  }

  /** Call `id` did not begin yet, or is served from `keys`. */
  predicate SureCall(s: System, id: nat, keys: Keys) {
    id in s.calls ==> Sure(s.calls[id], keys)
  }

  lemma StepKeepsSteady(s: System, id: nat, e: Event, keys: Keys, limits: Limits)
    requires Steady(s, keys) && id in s.calls && Down([e])
    ensures var s' := Step(s, id, s.calls[id], e, limits);
            && Steady(s', keys) && s'.cache.fetchedAt == s.cache.fetchedAt
            && forall c :: SureCall(s, c, keys) ==> SureCall(s', c, keys)
  {
    assert [e][0] == e;
    assert !s.calls[id].Loaded?;
  }

  /** However many refreshes fail, the cache stays as it was, and every token with a cached kid that
      is verified from now on, or is not past a miss already, gets the key it got before. */
  lemma {:induction false} OutageIsInvisible(s: System, es: seq<Event>, keys: Keys, limits: Limits)
    requires Steady(s, keys) && Down(es)
    ensures Steady(Exec(s, es, limits), keys)
    ensures Exec(s, es, limits).cache.fetchedAt == s.cache.fetchedAt
    ensures forall c :: SureCall(s, c, keys) ==> SureCall(Exec(s, es, limits), c, keys)
    decreases es
  {
    if es != [] {
      var e := es[0];
      assert Down([e]) && Down(es[1..]);
      match e {
        case Tick(_) =>
        case Call(id, kid) =>
        case _ => if e.id in s.calls { StepKeepsSteady(s, e.id, e, keys, limits); }
      }
      forall c | SureCall(s, c, keys) ensures SureCall(Apply(s, e, limits), c, keys) {
      }
      OutageIsInvisible(Apply(s, e, limits), es[1..], keys, limits);
    }
  }

  /** A call for a cached kid needs no fetch to succeed: after a failed one it has its key. */
  lemma CachedKidIsServed(s: System, id: nat, kid: string, limits: Limits)
    requires id !in s.calls && kid in s.cache.keys && IsStale(s.cache, s.now, limits)
    ensures var s' := Exec(s, [Call(id, kid), CheckStale(id), Attempt(id), Return(id, Unreachable), Look(id)], limits);
            id in s'.calls && s'.calls[id] == Done(kid, Some(s.cache.keys[kid])) && s'.cache.keys == s.cache.keys
  {
    var start := [Call(id, kid), CheckStale(id), Attempt(id)];
    var rest := [Return(id, Unreachable), Look(id)];
    var all := [Call(id, kid), CheckStale(id), Attempt(id), Return(id, Unreachable), Look(id)];
    assert all == start + rest;
    ExecConcat(s, start, rest, limits);
    ExecThree(s, Call(id, kid), CheckStale(id), Attempt(id), limits);
    var s3 := Exec(s, start, limits);
    assert s3.calls[id] == Fetching(kid, Stale);
    var s4 := Apply(s3, rest[0], limits);
    assert rest[1..] == [Look(id)] && rest[1..][1..] == [];
    assert s4.calls[id] == Looking(kid);
    assert Exec(s3, rest, limits) == Exec(s4, [Look(id)], limits);
    assert Exec(s4, [Look(id)], limits) == Apply(s4, Look(id), limits);
  }

  // ---- the key set changes

  /** `sets` are the key lists that the identity service published. */
  ghost predicate Genuine(sets: seq<seq<SigningKey>>) {
    forall i :: 0 <= i < |sets| ==> RealKeys(sets[i])
  }

  predicate RealKeys(keys: seq<SigningKey>) {
    DistinctKids(keys) && NamedKids(keys) && forall i :: 0 <= i < |keys| ==> keys[i].public.n > 0 && keys[i].public.e > 0
  }

  ghost predicate IsOneOf(entries: seq<Jwk>, sets: seq<seq<SigningKey>>) {
    exists i :: 0 <= i < |sets| && entries == Published(sets[i])
  }

  ghost predicate FromPublisher(served: seq<seq<Jwk>>, sets: seq<seq<SigningKey>>) {
    forall i :: 0 <= i < |served| ==> IsOneOf(served[i], sets)
  }

  ghost predicate Faithful(es: seq<Event>, sets: seq<seq<SigningKey>>) {
    forall i :: 0 <= i < |es| && es[i].Return? && es[i].reply.Served? ==> IsOneOf(es[i].reply.entries, sets)
  }

  lemma {:induction false} ServedFromPublisher(s: System, es: seq<Event>, sets: seq<seq<SigningKey>>, limits: Limits)
    requires FromPublisher(s.served, sets) && Faithful(es, sets)
    ensures FromPublisher(Exec(s, es, limits).served, sets)
    decreases es
  {
    if es != [] {
      var e, s' := es[0], Apply(s, es[0], limits);
      assert Faithful(es[1..], sets);
      assert s'.served == s.served || (e.Return? && e.reply.Served? && s'.served == s.served + [e.reply.entries]);
      assert FromPublisher(s'.served, sets);
      ServedFromPublisher(s', es[1..], sets, limits);
    }
  }

  /** From the first success on, the cache holds exactly the keys of one list that the identity
      service published, never a mixture of two. */
  lemma CacheIsOnePublishedSet(es: seq<Event>, sets: seq<seq<SigningKey>>, limits: Limits)
    requires Genuine(sets) && Faithful(es, sets)
    ensures var s := Exec(INIT, es, limits);
            if s.current.None? then s.cache.keys == map[] && s.cache.fetchedAt == None
            else exists i :: 0 <= i < |sets| && sets[i] != [] && Holds(sets[i], s.cache.keys)
  {
    var s := Exec(INIT, es, limits);
    KeysKept(INIT, es, limits);
    ServedFromPublisher(INIT, es, sets, limits);
    if s.current.Some? {
      assert IsOneOf(s.served[s.current.value], sets);
      var i :| 0 <= i < |sets| && s.served[s.current.value] == Published(sets[i]);
      FetchedPublished(sets[i]);
    }
  }

  lemma {:induction false} FirstSuccessStays(s: System, es: seq<Event>, limits: Limits)
    requires s.current.Some?
    ensures Exec(s, es, limits).current.Some?
    decreases es
  {
    if es != [] {
      FirstSuccessStays(Apply(s, es[0], limits), es[1..], limits);
    }
  }

  // ---- overlapping refreshes

  /** Two refreshes overlap, and the older key set is installed last: the key that was rotated in
      is lost again.  (With the largest lifetime there is, nothing is stale and no call overlaps so.) */
  lemma OlderKeySetCanWin(former: seq<Jwk>, newer: seq<Jwk>, limits: Limits) returns (es: seq<Event>)
    requires limits.Valid() && limits.ttl < MAX_INT64 && Fetched(Served(former)).Some? && Fetched(Served(newer)).Some?
    ensures var s := Exec(INIT, es, limits);
            && s.served == [former, newer] && s.now == 0
            && Some(s.cache.keys) == Fetched(Served(former))
            && s.current == Some(0)
  {
    var first := [Call(1, ""), CheckStale(1), Attempt(1)];
    var second := [Call(2, ""), CheckStale(2), Attempt(2)];
    var returns1 := [Return(1, Served(former)), Return(2, Served(newer)), Install(2)];
    es := first + (second + (returns1 + [Install(1)]));
    ExecConcat(INIT, first, second + (returns1 + [Install(1)]), limits);
    OneMoreStale(INIT, 1, limits);
    var s1 := Exec(INIT, first, limits);
    ExecConcat(s1, second, returns1 + [Install(1)], limits);
    OneMoreStale(s1, 2, limits);
    var s2 := Exec(s1, second, limits);
    assert s2.calls[1] == Fetching("", Stale) && s2.calls[2] == Fetching("", Stale) && s2.served == [];
    ExecConcat(s2, returns1, [Install(1)], limits);
    TwoReturns(s2, former, newer, limits);
    var s3 := Exec(s2, returns1, limits);
    InstallLast(s3, former, limits);
  }

  lemma InstallLast(s: System, entries: seq<Jwk>, limits: Limits)
    requires 1 in s.calls && s.calls[1] == Loaded("", Stale, 0) && s.served != [] && s.served[0] == entries
    requires Fetched(Served(entries)).Some?
    ensures var s' := Exec(s, [Install(1)], limits);
            && s'.served == s.served && s'.now == s.now && s'.current == Some(0)
            && Some(s'.cache.keys) == Fetched(Served(entries))
  {
    assert [Install(1)][1..] == [];
    assert Exec(s, [Install(1)], limits) == Apply(s, Install(1), limits);
  }

  lemma TwoReturns(s: System, former: seq<Jwk>, newer: seq<Jwk>, limits: Limits)
    requires Fetched(Served(former)).Some? && Fetched(Served(newer)).Some?
    requires s.served == [] && s.calls == map[1 := Fetching("", Stale), 2 := Fetching("", Stale)]
    ensures var s' := Exec(s, [Return(1, Served(former)), Return(2, Served(newer)), Install(2)], limits);
            s'.served == [former, newer] && s'.now == s.now && 1 in s'.calls && s'.calls[1] == Loaded("", Stale, 0)
  {
    var a, b := Return(1, Served(former)), Return(2, Served(newer));
    ExecThree(s, a, b, Install(2), limits);
    var s1 := Apply(s, a, limits);
    assert s1 == DoLoad(s, 1, "", Stale, former);
    var s2 := Apply(s1, b, limits);
    assert s2 == DoLoad(s1, 2, "", Stale, newer);
    assert s2.served == [former, newer];
  }

  function Loads(calls: map<nat, Phase>): set<nat> {
    set id | id in calls && calls[id].Loaded?
  }

  /** No fetch returns a key set while another one waits to be installed. */
  predicate Serial(s: System, es: seq<Event>, limits: Limits)
    decreases es
  {
    es == [] || ((es[0].Return? ==> Loads(s.calls) == {}) && Serial(Apply(s, es[0], limits), es[1..], limits))
  }

  /** The key set returned last is installed, or is the only one that waits. */
  predicate Current(s: System) {
    && (s.served != [] && Loads(s.calls) == {} ==> s.current == Some(|s.served| - 1))
    && forall id :: id in s.calls && s.calls[id].Loaded? ==> Loads(s.calls) == {id} && s.calls[id].snapshot + 1 == |s.served|
  }

  lemma QuietKeepsCurrent(s: System, s': System, id: nat, p: Phase)
    requires Current(s) && id in s.calls ==> !s.calls[id].Loaded?
    requires Current(s) && !p.Loaded? && s'.calls == s.calls[id := p]
    requires s'.served == s.served && s'.current == s.current
    ensures Current(s')
  {
    assert Loads(s'.calls) == Loads(s.calls);
  }

  lemma StepKeepsCurrent(s: System, id: nat, e: Event, limits: Limits)
    requires Current(s) && id in s.calls && (e.Return? ==> Loads(s.calls) == {})
    ensures Current(Step(s, id, s.calls[id], e, limits))
  {
    var p, s' := s.calls[id], Step(s, id, s.calls[id], e, limits);
    if p.Fetching? && e.Return? && Fetched(e.reply).Some? {
      assert Loads(s'.calls) == {id};
    } else if p.Loaded? && e.Install? {
      assert Loads(s.calls) == {id};
      if p.snapshot < |s.served| {
        assert Loads(s'.calls) == {};
      }
    } else if s' != s {
      QuietKeepsCurrent(s, s', id, s'.calls[id]);
    }
  }

  /** Without such an overlap the cache is never behind: with nothing left to install it holds the
      key set that was returned last. */
  lemma {:induction false} SerialStaysCurrent(s: System, es: seq<Event>, limits: Limits)
    requires Current(s) && Serial(s, es, limits)
    ensures Current(Exec(s, es, limits))
    decreases es
  {
    if es != [] {
      match es[0] {
        case Tick(_) =>
        case Call(id, kid) => if id !in s.calls { QuietKeepsCurrent(s, To(s, id, Started(kid)), id, Started(kid)); }
        case _ => if es[0].id in s.calls { StepKeepsCurrent(s, es[0].id, es[0], limits); }
      }
      SerialStaysCurrent(Apply(s, es[0], limits), es[1..], limits);
    }
  }

  // ---- when the newest key set wins

  /** No further fetch comes back with anything. */
  predicate NoReturn(es: seq<Event>) {
    forall i :: 0 <= i < |es| ==> !es[i].Return?
  }

  /** Only the newest key set waits to be installed, or it is installed and nothing waits. */
  predicate NewestWins(s: System) {
    && (forall id :: id in s.calls && s.calls[id].Loaded? ==> s.calls[id].snapshot + 1 == |s.served|)
    && (Loads(s.calls) == {} ==> s.current == Some(|s.served| - 1))
  }

  lemma LoadsTo(calls: map<nat, Phase>, id: nat, p: Phase)
    requires !p.Loaded?
    ensures Loads(calls[id := p]) == Loads(calls) - {id}
  {
  }

  lemma StepKeepsNewest(s: System, id: nat, e: Event, limits: Limits)
    requires NewestWins(s) && s.served != [] && id in s.calls && !e.Return?
    ensures var s' := Step(s, id, s.calls[id], e, limits); NewestWins(s') && s'.served == s.served
  {
    var p, s' := s.calls[id], Step(s, id, s.calls[id], e, limits);
    if s' != s {
      LoadsTo(s.calls, id, s'.calls[id]);
      if p.Loaded? {
        assert s'.current == Some(|s.served| - 1);
      } else {
        assert Loads(s.calls) - {id} == Loads(s.calls);
      }
    }
  }

  lemma {:induction false} NewestStays(s: System, es: seq<Event>, limits: Limits)
    requires NewestWins(s) && s.served != [] && NoReturn(es)
    ensures NewestWins(Exec(s, es, limits)) && Exec(s, es, limits).served == s.served
    decreases es
  {
    if es != [] {
      var e := es[0];
      assert !e.Return? && NoReturn(es[1..]);
      match e {
        case Tick(_) =>
        case Call(id, kid) =>
          if id !in s.calls {
            LoadsTo(s.calls, id, Started(kid));
            assert Loads(s.calls) - {id} == Loads(s.calls);
          }
        case Return(_, _) =>
        case _ => if e.id in s.calls { StepKeepsNewest(s, e.id, e, limits); }
      }
      NewestStays(Apply(s, e, limits), es[1..], limits);
    }
  }

  lemma InstallOne(s: System, id: nat, limits: Limits)
    requires LoadsOk(s) && id in Loads(s.calls)
    ensures var s' := Exec(s, [Install(id)], limits);
            && LoadsOk(s') && s'.served == s.served && Loads(s'.calls) == Loads(s.calls) - {id}
            && s'.current == Some(s.calls[id].snapshot)
            && forall c :: c in s.calls && c != id ==> c in s'.calls && s'.calls[c] == s.calls[c]
  {
    var p := s.calls[id];
    assert [Install(id)][1..] == [];
    assert Exec(s, [Install(id)], limits) == Apply(s, Install(id), limits);
    assert Apply(s, Install(id), limits) == DoInstall(s, id, p.kid, p.why, p.snapshot);
    LoadsTo(s.calls, id, if p.why.Miss? then Relooking(p.kid) else Looking(p.kid));
  }

  /** Everything that waits is installed, `last` at the end. */
  lemma {:induction false} InstallAll(s: System, last: nat, limits: Limits) returns (es: seq<Event>)
    requires LoadsOk(s) && last in Loads(s.calls)
    ensures NoReturn(es)
    ensures var s' := Exec(s, es, limits);
            Loads(s'.calls) == {} && s'.served == s.served && s'.current == Some(s.calls[last].snapshot)
    decreases |Loads(s.calls)|
  {
    if Loads(s.calls) == {last} {
      es := [Install(last)];
      InstallOne(s, last, limits);
    } else {
      var id :| id in Loads(s.calls) && id != last;
      InstallOne(s, id, limits);
      Removed(Loads(s.calls), id);
      var rest := InstallAll(Exec(s, [Install(id)], limits), last, limits);
      es := [Install(id)] + rest;
      ExecConcat(s, [Install(id)], rest, limits);
    }
  }

  /** Once no fetch is to come back, the cache is sure to end with the newest key set if and only if
      every key set that waits to be installed is the newest one, and it is installed if none waits.
      One older set that waits can always be installed last. */
  lemma NewestWinsIff(s: System, limits: Limits)
    requires LoadsOk(s) && s.served != []
    ensures (forall es :: NoReturn(es) && Loads(Exec(s, es, limits).calls) == {} ==>
               Exec(s, es, limits).current == Some(|s.served| - 1))
       <==> NewestWins(s)
  {
    if NewestWins(s) {
      forall es | NoReturn(es) && Loads(Exec(s, es, limits).calls) == {}
        ensures Exec(s, es, limits).current == Some(|s.served| - 1)
      {
        NewestStays(s, es, limits);
      }
    } else if id :| id in s.calls && s.calls[id].Loaded? && s.calls[id].snapshot + 1 != |s.served| {
      var es := InstallAll(s, id, limits);
    } else {
      assert Exec(s, [], limits) == s && NoReturn([]);
    }
  }
}
