/** Runs that show which bounds of the code store need Verify to be one step, and that the bound on
    the rate is reached. */
module OtpWitness {
  import opened Decimal
  import opened OtpModel
  import opened RedisCounter
  import opened OtpProofs
  import opened OtpGuesses
  import opened OtpRate

  lemma ExecTwo(s: System, a: Event, b: Event)
    ensures Exec(s, [a, b]) == Apply(Apply(s, a), b)
  {
    assert [a, b][1..] == [b] && [b][1..] == [];
    assert Exec(Apply(s, a), [b]) == Exec(Apply(Apply(s, a), b), []);
  }

  lemma ExecThree(s: System, a: Event, b: Event, c: Event)
    ensures Exec(s, [a, b, c]) == Apply(Apply(Apply(s, a), b), c)
  {
    assert [a, b, c][1..] == [b, c];
    ExecTwo(Apply(s, a), b, c);
  }

  /** The first request of a counter's life. */
  function Opening(id: nat, phone: string): seq<Event> {
    [Ask(id, phone), Count(id), Expire(id, true)]
  }

  lemma OpeningRuns(s: System, id: nat, phone: string)
    requires id !in s.calls && !s.db.HasCounter(phone)
    ensures var s' := Exec(s, Opening(id, phone));
            && s' == s.(db := s.db.(counters := s.db.counters[phone := Counter(1, Some(s.db.now + RATE_WINDOW))]),
                        calls := s.calls[id := Allowed(phone)],
                        lives := s.lives[phone := LivesOf(s, phone) + [Life(s.db.now, [s.db.now])]])
  {
    ExecThree(s, Ask(id, phone), Count(id), Expire(id, true));
    var s1 := Apply(s, Ask(id, phone));
    assert LivesOf(s1, phone) == LivesOf(s, phone);
    var s2 := Apply(s1, Count(id));
    assert s2 == DoCount(s1, id, phone);
    assert s2.db.counters[phone] == Counter(1, None);
    var s3 := Apply(s2, Expire(id, true));
    assert s3.calls == s.calls[id := Allowed(phone)];
    assert s3.db.counters == s.db.counters[phone := Counter(1, Some(s.db.now + RATE_WINDOW))];
  }

  // ---- split guesses

  /** `n` calls read the hash before any of them acts on it. */
  function Reads(n: nat, phone: string, code: string): seq<Event> {
    if n == 0 then [] else Reads(n - 1, phone, code) + [Guess(n, phone, code), Read(n)]
  }

  function Drops(n: nat): seq<Event> {
    if n == 0 then [] else Drops(n - 1) + [Drop(n)]
  }

  function AfterRead(phone: string, code: string, right: bool, at: nat): Phase {
    if right then Matched(phone, code, at) else Mistaken(phone)
  }

  lemma {:induction false} ManyReads(s: System, n: nat, phone: string, code: string, right: bool)
    requires s.db.HasHash(phone) && IssueIn(s, phone) == Some(0) && right == (CodeOf(s.db.hashes[phone]) == code)
    requires forall id :: id in s.calls ==> id == 0
    ensures var s' := Exec(s, Reads(n, phone, code));
            && s'.db == s.db && s'.issued == s.issued && Tries(s'.guesses, 0) == Tries(s.guesses, 0) + n
            && (forall id :: id in s'.calls ==> id <= n)
            && HaveRead(s', n, AfterRead(phone, code, right, s.db.now))
  {
    if n > 0 {
      ManyReads(s, n - 1, phone, code, right);
      var s1 := Exec(s, Reads(n - 1, phone, code));
      ExecConcat(s, Reads(n - 1, phone, code), [Guess(n, phone, code), Read(n)]);
      OneRead(s1, n, phone, code, right);
      OneMoreHasRead(s1, Exec(s, Reads(n, phone, code)), n, AfterRead(phone, code, right, s.db.now));
    }
  }

  /** The calls 1 to n have compared with issue 0. */
  predicate HaveRead(s: System, n: nat, p: Phase) {
    forall i :: 1 <= i <= n ==> i in s.calls && s.calls[i] == p && Against(s, i, 0)
  }

  lemma OneMoreHasRead(s: System, s': System, n: nat, p: Phase)
    requires n > 0 && HaveRead(s, n - 1, p) && s'.calls == s.calls[n := p] && s'.against == s.against[n := 0]
    ensures HaveRead(s', n, p)
  {
    forall i | 1 <= i <= n ensures i in s'.calls && s'.calls[i] == p && Against(s', i, 0) {
      assert i < n ==> Against(s, i, 0);
    }
  }

  lemma OneRead(s: System, id: nat, phone: string, code: string, right: bool)
    requires s.db.HasHash(phone) && IssueIn(s, phone) == Some(0) && right == (CodeOf(s.db.hashes[phone]) == code)
    requires id !in s.calls
    ensures var s' := Exec(s, [Guess(id, phone, code), Read(id)]);
            && s'.db == s.db && s'.issued == s.issued && Tries(s'.guesses, 0) == Tries(s.guesses, 0) + 1
            && s'.calls == s.calls[id := AfterRead(phone, code, right, s.db.now)]
            && s'.against == s.against[id := 0]
  {
    ReadRuns(s, id, phone, code);
    TriesSnoc(s.guesses, Guessed(phone, Some(0), right), 0);
  }

  lemma ReadRuns(s: System, id: nat, phone: string, code: string)
    requires id !in s.calls
    ensures Exec(s, [Guess(id, phone, code), Read(id)]) == DoRead(s, id, phone, code)
  {
    ExecTwo(s, Guess(id, phone, code), Read(id));
    var s1 := Apply(s, Guess(id, phone, code));
    assert s1 == To(s, id, Guessing(phone, code));
    assert Apply(s1, Read(id)) == DoRead(s1, id, phone, code);
    ReadAfterGuess(s, id, phone, code);
  }

  lemma ReadAfterGuess(s: System, id: nat, phone: string, code: string)
    ensures DoRead(To(s, id, Guessing(phone, code)), id, phone, code) == DoRead(s, id, phone, code)
  {
    TwiceTo(s, id, Guessing(phone, code), DoRead(s, id, phone, code).calls[id]);
  }

  lemma TwiceTo(s: System, id: nat, p: Phase, q: Phase)
    ensures To(To(s, id, p), id, q) == To(s, id, q)
  {
    assert s.calls[id := p][id := q] == s.calls[id := q];
  }

  lemma {:induction false} ManyDrops(s: System, n: nat)
    requires forall i :: 1 <= i <= n ==> Holds(s, i, 0)
    ensures var s' := Exec(s, Drops(n));
            && s'.issued == s.issued && s'.against == s.against
            && (forall i :: i in s.calls && !(1 <= i <= n) ==> i in s'.calls && s'.calls[i] == s.calls[i])
            && (forall i :: 1 <= i <= n ==> Took(s', i, 0))
  {
    if n > 0 {
      ManyDrops(s, n - 1);
      var s1 := Exec(s, Drops(n - 1));
      ExecConcat(s, Drops(n - 1), [Drop(n)]);
      ExecOne(s1, Drop(n));
      assert Holds(s, n, 0);
      assert Apply(s1, Drop(n)) == DoDrop(s1, n, s1.calls[n].phone, Accepted);
      forall i | 1 <= i < n ensures Took(Apply(s1, Drop(n)), i, 0) {
        assert Took(s1, i, 0);
      }
    }
  }

  function OneCode(phone: string): seq<Event> {
    Opening(0, phone) + [Store(0, 0)]
  }

  lemma OneCodeRuns(phone: string)
    ensures var s := Exec(INIT, OneCode(phone));
            && s.db.HasHash(phone) && s.db.hashes[phone] == Hash(Some(SixDigits(0)), 0, Some(CODE_TTL))
            && s.issued == [Issued(phone, SixDigits(0), 0)] && s.guesses == [] && IssueIn(s, phone) == Some(0)
            && (forall id :: id in s.calls ==> id == 0) && s.db.now == 0
  {
    ExecConcat(INIT, Opening(0, phone), [Store(0, 0)]);
    OpeningRuns(INIT, 0, phone);
    var s1 := Exec(INIT, Opening(0, phone));
    ExecOne(s1, Store(0, 0));
    assert Apply(s1, Store(0, 0)) == DoStore(s1, 0, phone, 0);
    LastOfSnoc([], Issued(phone, SixDigits(0), 0), phone);
  }

  lemma ReadsThenDrops(s: System, n: nat, phone: string, code: string)
    requires s.db.HasHash(phone) && IssueIn(s, phone) == Some(0) && CodeOf(s.db.hashes[phone]) == code
    requires forall id :: id in s.calls ==> id == 0
    ensures var s' := Exec(s, Reads(n, phone, code) + Drops(n));
            s'.issued == s.issued && forall i :: 1 <= i <= n ==> Took(s', i, 0)
  {
    ExecConcat(s, Reads(n, phone, code), Drops(n));
    ManyReads(s, n, phone, code, true);
    ManyDrops(Exec(s, Reads(n, phone, code)), n);
  }

  /** Overlapping Verify calls take one code any number of times: each read it before the first deleted
      it. */
  lemma SplitSuccessesAreUnlimited(n: nat, phone: string) returns (es: seq<Event>)
    ensures var s := Exec(INIT, es);
            s.issued == [Issued(phone, SixDigits(0), 0)] && forall i :: 1 <= i <= n ==> Took(s, i, 0)
  {
    var code := SixDigits(0);
    es := OneCode(phone) + (Reads(n, phone, code) + Drops(n));
    OneCodeRuns(phone);
    ExecConcat(INIT, OneCode(phone), Reads(n, phone, code) + Drops(n));
    ReadsThenDrops(Exec(INIT, OneCode(phone)), n, phone, code);
  }

  /** And they compare any number of wrong guesses with one code. */
  lemma SplitGuessesAreUnlimited(n: nat, phone: string, code: string) returns (es: seq<Event>)
    requires code != SixDigits(0)
    ensures var s := Exec(INIT, es);
            s.issued == [Issued(phone, SixDigits(0), 0)] && Tries(s.guesses, 0) == n
  {
    es := OneCode(phone) + Reads(n, phone, code);
    OneCodeRuns(phone);
    ExecConcat(INIT, OneCode(phone), Reads(n, phone, code));
    ManyReads(Exec(INIT, OneCode(phone)), n, phone, code, false);
  }

  /** Without any overlap, a DEL that fails after every fifth failure lets guesses go on, all of them
      counted: the code stays stored whatever the count is. */
  lemma FailedDropsAreUnlimited(n: nat, phone: string, guess: string) returns (es: seq<Event>)
    requires guess != SixDigits(0)
    ensures NoOverlap(INIT, es, phone)
    ensures var s := Exec(INIT, es);
            && s.issued == [Issued(phone, SixDigits(0), 0)] && Tries(s.guesses, 0) == n
            && s.db.HasHash(phone) && s.db.hashes[phone].code == Some(SixDigits(0)) && s.db.hashes[phone].attempts == n
  {
    var start := OneCode(phone);
    OneCodeRuns(phone);
    OneCodeIsIdle(phone);
    NoReadIsExclusive(INIT, start, phone);
    ExclusiveIsNoOverlap(INIT, start, phone);
    UndeletedRuns(Exec(INIT, start), n, 0, phone, guess, 0);
    es := start + Undeleted(n, 0, phone, guess);
    NoOverlapConcat(INIT, start, Undeleted(n, 0, phone, guess), phone);
  }

  // ---- late counting

  lemma LateMiss(s: System, phone: string)
    requires !s.db.HasHash(phone) && 1 in s.calls && s.calls[1] == Mistaken(phone)
    ensures var s' := Exec(s, [Miss(1)]);
            && phone in s'.db.hashes && s'.db.hashes[phone] == Hash(None, 1, None)
            && 1 in s'.calls && s'.calls[1] == Finished(InvalidCode)
  {
    ExecOne(s, Miss(1));
    assert Apply(s, Miss(1)) == DoMiss(s, 1, phone);
  }

  lemma RightGuess(s: System, phone: string, code: string)
    requires s.db.HasHash(phone) && CodeOf(s.db.hashes[phone]) == code && 2 !in s.calls
    ensures var s' := Exec(s, [Guess(2, phone, code), Read(2)] + [Drop(2)]);
            && !s'.db.HasHash(phone) && 2 in s'.calls && s'.calls == s.calls[2 := Finished(Accepted)]
  {
    ExecConcat(s, [Guess(2, phone, code), Read(2)], [Drop(2)]);
    ReadRuns(s, 2, phone, code);
    var s1 := DoRead(s, 2, phone, code);
    ExecOne(s1, Drop(2));
    assert Apply(s1, Drop(2)) == DoDrop(s1, 2, phone, Accepted);
    assert s1.calls[2 := Finished(Accepted)] == s.calls[2 := Finished(Accepted)];
  }

  /** A wrong guess that counts itself after a right one deleted the hash makes it again: no code,
      no deadline, and only the empty code matches it. */
  lemma LateMissLeavesAHash(phone: string, guess: string) returns (es: seq<Event>)
    requires guess != SixDigits(0)
    ensures var s := Exec(INIT, es);
            && phone in s.db.hashes && s.db.hashes[phone] == Hash(None, 1, None)
            && 1 in s.calls && s.calls[1] == Finished(InvalidCode)
            && forall code :: VerifyOnce(s.db, phone, code).1 == Accepted <==> code == ""
  {
    var wrong := [Guess(1, phone, guess), Read(1)];
    var right := [Guess(2, phone, SixDigits(0)), Read(2)] + [Drop(2)];
    es := OneCode(phone) + (wrong + (right + [Miss(1)]));
    OneCodeRuns(phone);
    var s1 := Exec(INIT, OneCode(phone));
    ExecConcat(INIT, OneCode(phone), wrong + (right + [Miss(1)]));
    ExecConcat(s1, wrong, right + [Miss(1)]);
    OneRead(s1, 1, phone, guess, false);
    var s2 := Exec(s1, wrong);
    ExecConcat(s2, right, [Miss(1)]);
    RightGuess(s2, phone, SixDigits(0));
    LateMiss(Exec(s2, right), phone);
    OnlyEmpty(Exec(INIT, es).db, phone);
  }

  /** No overlap is needed for that: it is enough that the code expires between HGETALL and HINCRBY. */
  lemma ExpiryLeavesAHash(phone: string, guess: string) returns (es: seq<Event>)
    requires guess != SixDigits(0)
    ensures Exclusive(INIT, es, phone)
    ensures var s := Exec(INIT, es);
            && phone in s.db.hashes && s.db.hashes[phone] == Hash(None, 1, None)
            && forall code :: VerifyOnce(s.db, phone, code).1 == Accepted <==> code == ""
  {
    var start := OneCode(phone);
    OneCodeRuns(phone);
    var s1 := Exec(INIT, start);
    NoReadIsExclusive(INIT, start, phone);
    OneCodeIsIdle(phone);
    WrongRead(s1, 1, phone, guess, 0);
    var wrong, late := [Guess(1, phone, guess)] + [Read(1)], [Tick(CODE_TTL)] + [Miss(1)];
    LateAfterExpiry(Exec(s1, wrong), phone);
    ExclusiveConcat(s1, wrong, late, phone);
    ExclusiveConcat(INIT, start, wrong + late, phone);
    es := start + (wrong + late);
    OnlyEmpty(Exec(INIT, es).db, phone);
  }

  lemma LateAfterExpiry(s: System, phone: string)
    requires 1 in s.calls && s.calls[1] == Mistaken(phone)
    requires phone in s.db.hashes && s.db.hashes[phone].deadline == Some(s.db.now + CODE_TTL)
    ensures Exclusive(s, [Tick(CODE_TTL)] + [Miss(1)], phone)
    ensures var db := Exec(s, [Tick(CODE_TTL)] + [Miss(1)]).db; phone in db.hashes && db.hashes[phone] == Hash(None, 1, None)
  {
    var s1 := s.(db := s.db.(now := s.db.now + CODE_TTL));
    ExecOne(s, Tick(CODE_TTL));
    ExclusiveOne(s, Tick(CODE_TTL), phone);
    ExclusiveOne(s1, Miss(1), phone);
    LateMiss(s1, phone);
    ExclusiveConcat(s, [Tick(CODE_TTL)], [Miss(1)], phone);
  }

  lemma {:induction false} NoReadIsExclusive(s: System, es: seq<Event>, phone: string)
    requires forall i :: 0 <= i < |es| ==> !es[i].Read? && !es[i].Stop?
    ensures Exclusive(s, es, phone)
    decreases es
  {
    if es != [] {
      assert !es[0].Read? && !es[0].Stop?;
      NoReadIsExclusive(Apply(s, es[0]), es[1..], phone);
    }
  }

  lemma OneCodeIsIdle(phone: string)
    ensures Idle(Exec(INIT, OneCode(phone)), phone)
  {
    ExecConcat(INIT, Opening(0, phone), [Store(0, 0)]);
    OpeningRuns(INIT, 0, phone);
    var s1 := Exec(INIT, Opening(0, phone));
    ExecOne(s1, Store(0, 0));
    assert Apply(s1, Store(0, 0)) == DoStore(s1, 0, phone, 0);
  }

  lemma OnlyEmpty(db: Db, phone: string)
    requires phone in db.hashes && db.hashes[phone] == Hash(None, 1, None)
    ensures forall code :: VerifyOnce(db, phone, code).1 == Accepted <==> code == ""
  {
  }

  // ---- any number of codes at one instant

  /** One request an hour is let through, and none of them stores its code yet. */
  function Hourly(n: nat, phone: string): seq<Event> {
    if n == 0 then [] else Hourly(n - 1, phone) + (Opening(n, phone) + [Tick(RATE_WINDOW)])
  }

  function Stores(n: nat): seq<Event> {
    if n == 0 then [] else Stores(n - 1) + [Store(n, 0)]
  }

  lemma {:induction false} HourlyRuns(n: nat, phone: string)
    ensures var s := Exec(INIT, Hourly(n, phone));
            && s.db.now == n * RATE_WINDOW && s.issued == [] && !s.db.HasCounter(phone)
            && (forall id :: id in s.calls <==> 1 <= id <= n) && (forall id :: 1 <= id <= n ==> s.calls[id] == Allowed(phone))
  {
    if n > 0 {
      HourlyRuns(n - 1, phone);
      var s := Exec(INIT, Hourly(n - 1, phone));
      ExecConcat(INIT, Hourly(n - 1, phone), Opening(n, phone) + [Tick(RATE_WINDOW)]);
      ExecConcat(s, Opening(n, phone), [Tick(RATE_WINDOW)]);
      OpeningRuns(s, n, phone);
      ExecOne(Exec(s, Opening(n, phone)), Tick(RATE_WINDOW));
    }
  }

  lemma {:induction false} StoresRun(s: System, n: nat, phone: string)
    requires forall id :: 1 <= id <= n ==> id in s.calls && s.calls[id] == Allowed(phone)
    ensures var s' := Exec(s, Stores(n));
            && s'.db.now == s.db.now && (forall id :: id > n && id in s.calls ==> id in s'.calls && s'.calls[id] == s.calls[id])
            && CodesIn(s'.issued, phone, s.db.now, s.db.now + 1) == CodesIn(s.issued, phone, s.db.now, s.db.now + 1) + n
  {
    if n > 0 {
      StoresRun(s, n - 1, phone);
      var s1 := Exec(s, Stores(n - 1));
      ExecConcat(s, Stores(n - 1), [Store(n, 0)]);
      ExecOne(s1, Store(n, 0));
      assert Apply(s1, Store(n, 0)) == DoStore(s1, n, phone, 0);
      CodesInSnoc(s1.issued, Issued(phone, SixDigits(0), s.db.now), phone, s.db.now, s.db.now + 1);
    }
  }

  /** For every n there is a run that stores n codes for one phone at one instant. */
  lemma CodesAtOneInstant(n: nat, phone: string) returns (es: seq<Event>)
    ensures CodesIn(Exec(INIT, es).issued, phone, n * RATE_WINDOW, n * RATE_WINDOW + 1) == n
  {
    es := Hourly(n, phone) + Stores(n);
    HourlyRuns(n, phone);
    ExecConcat(INIT, Hourly(n, phone), Stores(n));
    StoresRun(Exec(INIT, Hourly(n, phone)), n, phone);
  }

  // ---- nine codes within an hour

  function Repeat(n: nat, t: nat): seq<nat> {
    if n == 0 then [] else Repeat(n - 1, t) + [t]
  }

  /** `n` requests at one moment, by the calls after `id`. */
  function Burst(n: nat, id: nat, phone: string): seq<Event> {
    if n == 0 then [] else Burst(n - 1, id, phone) + [Ask(id + n, phone), Count(id + n)]
  }

  lemma OneMoreRequest(s: System, id: nat, phone: string)
    requires id !in s.calls && s.db.HasCounter(phone)
    requires 1 <= s.db.counters[phone].count < RATE_MAX && LivesOf(s, phone) != []
    ensures var s' := Exec(s, [Ask(id, phone), Count(id)]);
            var c, lives := s.db.counters[phone], LivesOf(s, phone);
            && s'.db == s.db.(counters := s.db.counters[phone := c.(count := c.count + 1)])
            && s'.calls == s.calls[id := Allowed(phone)]
            && LivesOf(s', phone) == Hit(lives, s.db.now, false, true)
  {
    ExecTwo(s, Ask(id, phone), Count(id));
    var s1 := Apply(s, Ask(id, phone));
    assert Apply(s1, Count(id)) == DoCount(s1, id, phone);
    assert s1.calls[id := Allowed(phone)] == s.calls[id := Allowed(phone)];
    assert LivesOf(s1, phone) == LivesOf(s, phone);
  }

  /** The counter of a phone and its lives, and the calls so far. */
  predicate Counts(s: System, phone: string, now: nat, c: Counter, lives: seq<Life>, id: nat) {
    && s.db.now == now && phone in s.db.counters && s.db.counters[phone] == c && LivesOf(s, phone) == lives
    && forall i :: i in s.calls ==> i <= id
  }

  lemma BurstStep(s: System, id: nat, phone: string, c: Counter, init: seq<Life>, last: Life)
    requires Counts(s, phone, s.db.now, c, init + [last], id) && s.db.HasCounter(phone) && 1 <= c.count < RATE_MAX
    ensures Counts(Exec(s, [Ask(id + 1, phone), Count(id + 1)]), phone, s.db.now, c.(count := c.count + 1),
                   Hit(init + [last], s.db.now, false, true), id + 1)
  {
    OneMoreRequest(s, id + 1, phone);
  }

  lemma {:induction false} BurstRuns(s: System, n: nat, id: nat, phone: string, init: seq<Life>, last: Life)
    requires s.db.HasCounter(phone) && 1 <= s.db.counters[phone].count && s.db.counters[phone].count + n <= RATE_MAX
    requires Counts(s, phone, s.db.now, s.db.counters[phone], init + [last], id)
    ensures var c := s.db.counters[phone];
            Counts(Exec(s, Burst(n, id, phone)), phone, s.db.now, c.(count := c.count + n),
                   init + [last.(hits := last.hits + Repeat(n, s.db.now))], id + n)
  {
    if n == 0 {
      assert last.hits + [] == last.hits;
    } else {
      BurstRuns(s, n - 1, id, phone, init, last);
      var s1, c := Exec(s, Burst(n - 1, id, phone)), s.db.counters[phone];
      ExecConcat(s, Burst(n - 1, id, phone), [Ask(id + n, phone), Count(id + n)]);
      BurstStep(s1, id + n - 1, phone, c.(count := c.count + n - 1), init, last.(hits := last.hits + Repeat(n - 1, s.db.now)));
      BurstHits(init, last, n, s.db.now);
    }
  }

  lemma BurstHits(init: seq<Life>, last: Life, n: nat, t: nat)
    requires n > 0
    ensures Hit(init + [last.(hits := last.hits + Repeat(n - 1, t))], t, false, true)
         == init + [last.(hits := last.hits + Repeat(n, t))]
  {
    assert (last.hits + Repeat(n - 1, t)) + [t] == last.hits + Repeat(n, t);
  }

  lemma {:induction false} CountRepeat(hits: seq<nat>, n: nat, t: nat, from: int, to: int)
    requires from <= t < to
    ensures CountIn(hits + Repeat(n, t), from, to) == CountIn(hits, from, to) + n
  {
    if n == 0 {
      assert hits + [] == hits;
    } else {
      CountRepeat(hits, n - 1, t, from, to);
      var all := hits + Repeat(n, t);
      assert all[..|all| - 1] == hits + Repeat(n - 1, t);
    }
  }

  // One request begins a counter at time 0, four more follow in its last moment, five in the next.
  function Nine(phone: string): seq<Event> {
    Opening(0, phone) + ([Tick(RATE_WINDOW - 1)] + (Burst(4, 0, phone) + ([Tick(1)] + (Opening(5, phone) + Burst(4, 5, phone)))))
  }

  lemma TickRuns(s: System, d: nat, rest: seq<Event>)
    ensures Exec(s, [Tick(d)] + rest) == Exec(s.(db := s.db.(now := s.db.now + d)), rest)
  {
    var es := [Tick(d)] + rest;
    assert es[0] == Tick(d) && es[1..] == rest;
    assert Apply(s, es[0]) == s.(db := s.db.(now := s.db.now + d));
  }

  lemma FirstCounter(phone: string)
    ensures var s := Exec(INIT, Opening(0, phone) + ([Tick(RATE_WINDOW - 1)] + Burst(4, 0, phone)));
            && s.db.now == RATE_WINDOW - 1 && phone in s.db.counters && s.db.counters[phone] == Counter(5, Some(RATE_WINDOW))
            && LivesOf(s, phone) == [Life(0, [0] + Repeat(4, RATE_WINDOW - 1))]
            && (forall i :: i in s.calls ==> i <= 4)
  {
    ExecConcat(INIT, Opening(0, phone), [Tick(RATE_WINDOW - 1)] + Burst(4, 0, phone));
    OpeningRuns(INIT, 0, phone);
    var s1 := Exec(INIT, Opening(0, phone));
    TickRuns(s1, RATE_WINDOW - 1, Burst(4, 0, phone));
    var s2 := s1.(db := s1.db.(now := RATE_WINDOW - 1));
    assert LivesOf(s2, phone) == [] + [Life(0, [0])];
    BurstRuns(s2, 4, 0, phone, [], Life(0, [0]));
  }

  lemma SecondCounter(s: System, phone: string, first: Life)
    requires s.db.now == RATE_WINDOW - 1 && phone in s.db.counters
    requires s.db.counters[phone] == Counter(5, Some(RATE_WINDOW))
    requires LivesOf(s, phone) == [first] && forall i :: i in s.calls ==> i <= 4
    ensures LivesOf(Exec(s, [Tick(1)] + (Opening(5, phone) + Burst(4, 5, phone))), phone)
         == [first, Life(RATE_WINDOW, [RATE_WINDOW] + Repeat(4, RATE_WINDOW))]
  {
    TickRuns(s, 1, Opening(5, phone) + Burst(4, 5, phone));
    var s1 := s.(db := s.db.(now := RATE_WINDOW));
    ExecConcat(s1, Opening(5, phone), Burst(4, 5, phone));
    OpeningRuns(s1, 5, phone);
    var s2 := Exec(s1, Opening(5, phone));
    assert LivesOf(s2, phone) == [first] + [Life(RATE_WINDOW, [RATE_WINDOW])];
    BurstRuns(s2, 4, 5, phone, [first], Life(RATE_WINDOW, [RATE_WINDOW]));
  }

  lemma NineInTwo(first: Life, second: Life)
    requires first == Life(0, [0] + Repeat(4, RATE_WINDOW - 1))
    requires second == Life(RATE_WINDOW, [RATE_WINDOW] + Repeat(4, RATE_WINDOW))
    ensures TotalIn([first, second], 1, 1 + RATE_WINDOW) == 9
  {
    CountRepeat([0], 4, RATE_WINDOW - 1, 1, 1 + RATE_WINDOW);
    CountRepeat([RATE_WINDOW], 4, RATE_WINDOW, 1, 1 + RATE_WINDOW);
    assert [first, second][..1] == [first] && [first][..0] == [];
    assert [0][..0] == [] && [RATE_WINDOW][..0] == [];
    assert TotalIn([first], 1, 1 + RATE_WINDOW) == 4;
  }

  /** The bound of nine is reached. */
  lemma NineInAnHour(phone: string)
    ensures TotalIn(LivesOf(Exec(INIT, Nine(phone)), phone), 1, 1 + RATE_WINDOW) == 9
  {
    var a := [Tick(RATE_WINDOW - 1)];
    var b := Burst(4, 0, phone);
    var c := [Tick(1)] + (Opening(5, phone) + Burst(4, 5, phone));
    assert Nine(phone) == (Opening(0, phone) + (a + b)) + c;
    ExecConcat(INIT, Opening(0, phone) + (a + b), c);
    FirstCounter(phone);
    SecondCounter(Exec(INIT, Opening(0, phone) + (a + b)), phone, Life(0, [0] + Repeat(4, RATE_WINDOW - 1)));
    NineInTwo(Life(0, [0] + Repeat(4, RATE_WINDOW - 1)), Life(RATE_WINDOW, [RATE_WINDOW] + Repeat(4, RATE_WINDOW)));
  }
}
