/** What every run of the code store keeps, whatever the interleaving. */
module OtpProofs {
  import opened OtpModel

  // ---- codes

  /** A stored code is the last one issued for that phone, and lives for three minutes from then.  A hash without
      a code holds failed attempts only, and never expires. */
  predicate HashOk(s: System, phone: string, h: Hash) {
    if h.code.Some? then
      && h.deadline.Some? && h.deadline.value >= CODE_TTL
      && LastOf(s.issued, phone).Some?
      && s.issued[LastOf(s.issued, phone).value] == Issued(phone, h.code.value, h.deadline.value - CODE_TTL)
    else
      h.deadline.None? && h.attempts >= 1
  }

  /** A comparison that matched a non-empty code saw one that was issued for that phone and had
      not expired. */
  ghost predicate MatchOk(issued: seq<Issued>, p: Phase) {
    p.Matched? && p.code != "" ==>
      exists at: nat :: at <= p.at < at + CODE_TTL && Issued(p.phone, p.code, at) in issued
  }

  ghost predicate CodesOk(s: System) {
    && (forall phone :: phone in s.db.hashes ==> HashOk(s, phone, s.db.hashes[phone]))
    && (forall i :: 0 <= i < |s.issued| ==> s.issued[i].at <= s.db.now)
    && (forall id :: id in s.calls ==> MatchOk(s.issued, s.calls[id]))
  }

  lemma StoreKeepsCodes(s: System, id: nat, phone: string, n: nat)
    requires CodesOk(s) && n < 1_000_000
    ensures CodesOk(DoStore(s, id, phone, n))
  {
    var s' := DoStore(s, id, phone, n);
    var added := Issued(phone, SixDigits(n), s.db.now);
    assert forall i :: i in s.issued ==> i in s'.issued;
    assert added in s'.issued;
    forall k | k in s'.calls ensures MatchOk(s'.issued, s'.calls[k]) {
      if k != id && s.calls[k].Matched? && s.calls[k].code != "" {
        var p := s.calls[k];
        var at: nat :| at <= p.at < at + CODE_TTL && Issued(p.phone, p.code, at) in s.issued;
        assert Issued(p.phone, p.code, at) in s'.issued;
      }
    }
  }

  lemma ReadKeepsCodes(s: System, id: nat, phone: string, code: string)
    requires CodesOk(s)
    ensures CodesOk(DoRead(s, id, phone, code))
  {
    var s' := DoRead(s, id, phone, code);
    if s.db.HasHash(phone) && CodeOf(s.db.hashes[phone]) == code != "" {
      var h := s.db.hashes[phone];
      assert HashOk(s, phone, h);
      var at: nat := h.deadline.value - CODE_TTL;
      assert Issued(phone, code, at) in s.issued;
      assert at <= s.db.now < at + CODE_TTL;
    }
    assert MatchOk(s.issued, s'.calls[id]);
  }

  lemma HIncrKeepsCodes(s: System, phone: string)
    requires CodesOk(s)
    ensures CodesOk(s.(db := HIncr(s.db, phone).0))
  {
  }

  lemma DelKeepsCodes(s: System, phone: string)
    requires CodesOk(s)
    ensures CodesOk(s.(db := Del(s.db, phone)))
  {
  }

  lemma ToKeepsCodes(s: System, id: nat, p: Phase)
    requires CodesOk(s) && !p.Matched?
    ensures CodesOk(To(s, id, p))
  {
  }

  lemma OtherKeepsCodes(s: System, s': System)
    requires CodesOk(s) && s'.db.hashes == s.db.hashes && s'.db.now == s.db.now
    requires s'.calls == s.calls && s'.issued == s.issued
    ensures CodesOk(s')
  {
  }

  lemma CountKeepsCodes(s: System, id: nat, phone: string)
    requires CodesOk(s)
    ensures CodesOk(DoCount(s, id, phone))
  {
    var s1 := s.(db := Incr(s.db, phone).0, lives := DoCount(s, id, phone).lives);
    OtherKeepsCodes(s, s1);
    ToKeepsCodes(s1, id, DoCount(s, id, phone).calls[id]);
  }

  lemma ExpireKeepsCodes(s: System, id: nat, phone: string, ok: bool)
    requires CodesOk(s)
    ensures CodesOk(DoExpire(s, id, phone, ok))
  {
    var s1 := s.(db := if ok then ExpireCounter(s.db, phone) else s.db);
    OtherKeepsCodes(s, s1);
    ToKeepsCodes(s1, id, Allowed(phone));
  }

  lemma MissKeepsCodes(s: System, id: nat, phone: string)
    requires CodesOk(s)
    ensures CodesOk(DoMiss(s, id, phone))
  {
    HIncrKeepsCodes(s, phone);
    ToKeepsCodes(s.(db := HIncr(s.db, phone).0), id, DoMiss(s, id, phone).calls[id]);
  }

  lemma DropKeepsCodes(s: System, id: nat, phone: string, o: Outcome)
    requires CodesOk(s)
    ensures CodesOk(DoDrop(s, id, phone, o))
  {
    DelKeepsCodes(s, phone);
    ToKeepsCodes(s.(db := Del(s.db, phone)), id, Finished(o));
  }

  lemma RequestStepKeepsCodes(s: System, id: nat, e: Event)
    requires CodesOk(s) && id in s.calls && (s.calls[id].Asked? || s.calls[id].First? || s.calls[id].Allowed?) && !e.Stop?
    ensures CodesOk(Step(s, id, s.calls[id], e))
  {
    match (s.calls[id], e) {
      case (Asked(phone), Count(_)) => CountKeepsCodes(s, id, phone);
      case (First(phone), Expire(_, ok)) => ExpireKeepsCodes(s, id, phone, ok);
      case (Allowed(phone), Store(_, n)) => if n < 1_000_000 { StoreKeepsCodes(s, id, phone, n); }
      case _ =>
    }
  }

  lemma VerifyStepKeepsCodes(s: System, id: nat, e: Event)
    requires CodesOk(s) && id in s.calls && !s.calls[id].Asked? && !s.calls[id].First? && !s.calls[id].Allowed? && !e.Stop?
    ensures CodesOk(Step(s, id, s.calls[id], e))
  {
    match (s.calls[id], e) {
      case (Guessing(phone, code), Read(_)) => ReadKeepsCodes(s, id, phone, code);
      case (Mistaken(phone), Miss(_)) => MissKeepsCodes(s, id, phone);
      case (Exhausted(phone), Drop(_)) => DropKeepsCodes(s, id, phone, TooManyAttempts);
      case (Matched(phone, _, _), Drop(_)) => DropKeepsCodes(s, id, phone, Accepted);
      case _ =>
    }
  }

  lemma StopKeepsCodes(s: System, id: nat)
    requires CodesOk(s)
    ensures CodesOk(s.(calls := s.calls - {id}))
  {
  }

  lemma StepKeepsCodes(s: System, id: nat, e: Event)
    requires CodesOk(s) && id in s.calls
    ensures CodesOk(Step(s, id, s.calls[id], e))
  {
    var p := s.calls[id];
    if e.Stop? {
      StopKeepsCodes(s, id);
    } else if p.Asked? || p.First? || p.Allowed? {
      RequestStepKeepsCodes(s, id, e);
    } else {
      VerifyStepKeepsCodes(s, id, e);
    }
  }

  lemma {:induction false} CodesKept(s: System, es: seq<Event>)
    requires CodesOk(s)
    ensures CodesOk(Exec(s, es))
    decreases es
  {
    if es != [] {
      match es[0] {
        case Tick(_) =>
        case Ask(id, phone) => ToKeepsCodes(s, id, Asked(phone));
        case Guess(id, phone, code) => ToKeepsCodes(s, id, Guessing(phone, code));
        case _ => if es[0].id in s.calls { StepKeepsCodes(s, es[0].id, es[0]); }
      }
      CodesKept(Apply(s, es[0]), es[1..]);
    }
  }

  /** In any interleaving: a hash that holds a code has the deadline issue time + 3 minutes, and a
      call about to succeed with a non-empty code matched one that was issued for its phone and had
      not expired when it was read. */
  lemma OnlyIssuedCodesSucceed(es: seq<Event>, id: nat)
    ensures CodesOk(Exec(INIT, es))
    ensures var s := Exec(INIT, es);
            id in s.calls && s.calls[id].Matched? && s.calls[id].code != "" ==>
              exists at: nat :: at <= s.calls[id].at < at + 180_000 && Issued(s.calls[id].phone, s.calls[id].code, at) in s.issued
  {
    CodesKept(INIT, es);
    var s := Exec(INIT, es);
    if id in s.calls {
      assert MatchOk(s.issued, s.calls[id]);
    }
  }

  // ---- the rate of codes

  function CountIn(hits: seq<nat>, from: int, to: int): nat {
    if hits == [] then 0
    else CountIn(hits[..|hits| - 1], from, to) + if from <= hits[|hits| - 1] < to then 1 else 0
  }

  function TotalIn(lives: seq<Life>, from: int, to: int): nat {
    if lives == [] then 0
    else TotalIn(lives[..|lives| - 1], from, to) + CountIn(lives[|lives| - 1].hits, from, to)
  }

  lemma {:induction false} CountInAtMost(hits: seq<nat>, from: int, to: int)
    ensures CountIn(hits, from, to) <= |hits|
    ensures hits != [] && hits[0] < from ==> CountIn(hits, from, to) < |hits|
  {
    if hits != [] {
      CountInAtMost(hits[..|hits| - 1], from, to);
    }
  }

  lemma {:induction false} CountInNone(hits: seq<nat>, from: int, to: int)
    requires (forall i :: 0 <= i < |hits| ==> hits[i] < from) || (forall i :: 0 <= i < |hits| ==> hits[i] >= to)
    ensures CountIn(hits, from, to) == 0
  {
    if hits != [] {
      CountInNone(hits[..|hits| - 1], from, to);
    }
  }

  /** A counter lets at most five requests through, the one that made it first. */
  predicate LifeOk(l: Life) {
    && 1 <= |l.hits| <= RATE_MAX && l.hits[0] == l.start
    && forall i :: 0 <= i < |l.hits| ==> l.start <= l.hits[i]
  }

  predicate Before(l: Life, t: int) {
    forall i :: 0 <= i < |l.hits| ==> l.hits[i] < t
  }

  /** Counters of one phone exist one after the other, their beginnings an hour apart. */
  predicate LivesOk(lives: seq<Life>) {
    && (forall k :: 0 <= k < |lives| ==> LifeOk(lives[k]))
    && (forall k :: 0 < k < |lives| ==> lives[k - 1].start + RATE_WINDOW <= lives[k].start && Before(lives[k - 1], lives[k].start))
  }

  lemma {:induction false} StartsAreSorted(lives: seq<Life>, j: nat, k: nat)
    requires LivesOk(lives) && j < k < |lives|
    ensures Before(lives[j], lives[k].start) && lives[j].start < lives[k].start
    decreases k
  {
    assert Before(lives[k - 1], lives[k].start) && lives[k - 1].start < lives[k].start;
    if j < k - 1 {
      StartsAreSorted(lives, j, k - 1);
    }
  }

  lemma {:induction false} TotalInNone(lives: seq<Life>, from: int, to: int)
    requires forall k :: 0 <= k < |lives| ==> Before(lives[k], from)
    ensures TotalIn(lives, from, to) == 0
  {
    if lives != [] {
      TotalInNone(lives[..|lives| - 1], from, to);
      CountInNone(lives[|lives| - 1].hits, from, to);
    }
  }

  lemma InitIsOk(lives: seq<Life>)
    requires LivesOk(lives) && lives != []
    ensures LivesOk(lives[..|lives| - 1])
  {
    var init := lives[..|lives| - 1];
    forall k | 0 < k < |init|
      ensures init[k - 1].start + RATE_WINDOW <= init[k].start && Before(init[k - 1], init[k].start)
    {
      assert init[k] == lives[k] && init[k - 1] == lives[k - 1];
    }
  }

  /** Before the counter that begins within the hour only one other can reach into it, without the
      request that made it. */
  lemma OneCounterBack(lives: seq<Life>, from: nat)
    requires LivesOk(lives) && lives != [] && lives[|lives| - 1].start < from
    ensures TotalIn(lives, from, from + RATE_WINDOW) < RATE_MAX
  {
    var init, last := lives[..|lives| - 1], lives[|lives| - 1];
    CountInAtMost(last.hits, from, from + RATE_WINDOW);
    forall k | 0 <= k < |init| ensures Before(init[k], from) {
      StartsAreSorted(lives, k, |lives| - 1);
    }
    TotalInNone(init, from, from + RATE_WINDOW);
    assert LifeOk(last);
  }

  /** Any half-open hour sees at most nine codes let through, one less than twice the limit. */
  lemma {:induction false} HourBound(lives: seq<Life>, from: nat)
    requires LivesOk(lives)
    ensures TotalIn(lives, from, from + RATE_WINDOW) < 2 * RATE_MAX
  {
    if lives != [] {
      var init, last := lives[..|lives| - 1], lives[|lives| - 1];
      InitIsOk(lives);
      assert LifeOk(last);
      if last.start >= from + RATE_WINDOW {
        CountInNone(last.hits, from, from + RATE_WINDOW);
        HourBound(init, from);
      } else {
        CountInAtMost(last.hits, from, from + RATE_WINDOW);
        if init != [] {
          OneCounterBack(init, from);
        }
      }
    }
  }

  /** The counter in Redis is the last life of its phone. */
  predicate CounterOk(db: Db, phone: string, lives: seq<Life>) {
    && LivesOk(lives)
    && (phone !in db.counters <==> lives == [])
    && (phone in db.counters ==>
          var c, last := db.counters[phone], lives[|lives| - 1];
          && c.count >= 1 && |last.hits| == (if c.count <= RATE_MAX then c.count else RATE_MAX)
          && (c.deadline.Some? ==> last.start + RATE_WINDOW <= c.deadline.value && Before(last, c.deadline.value))
          && last.start <= db.now && Before(last, db.now + 1))
  }

  ghost predicate CountersOk(s: System) {
    forall phone :: CounterOk(s.db, phone, LivesOf(s, phone))
  }

  lemma AppendLife(lives: seq<Life>, now: nat)
    requires LivesOk(lives)
    requires lives != [] ==> lives[|lives| - 1].start + RATE_WINDOW <= now && Before(lives[|lives| - 1], now)
    ensures LivesOk(lives + [Life(now, [now])])
  {
  }

  lemma AppendHit(lives: seq<Life>, now: nat)
    requires LivesOk(lives) && lives != []
    requires lives[|lives| - 1].start <= now && |lives[|lives| - 1].hits| < RATE_MAX
    ensures LivesOk(Hit(lives, now, false, true))
  {
    var last := lives[|lives| - 1];
    assert LifeOk(last);
    var last' := last.(hits := last.hits + [now]);
    assert LifeOk(last');
    var lives' := lives[|lives| - 1 := last'];
    forall k | 0 < k < |lives'|
      ensures lives'[k - 1].start + RATE_WINDOW <= lives'[k].start && Before(lives'[k - 1], lives'[k].start)
    {
      assert lives'[k - 1] == lives[k - 1] && lives'[k].start == lives[k].start;
    }
  }

  lemma CountKeepsCounter(db: Db, phone: string, lives: seq<Life>)
    requires CounterOk(db, phone, lives)
    ensures var (db', count) := Incr(db, phone);
            CounterOk(db', phone, Hit(lives, db.now, count == 1, count <= RATE_MAX))
  {
    var (db', count) := Incr(db, phone);
    if !db.HasCounter(phone) {
      assert count == 1;
      AppendLife(lives, db.now);
    } else if count <= RATE_MAX {
      AppendHit(lives, db.now);
    }
  }

  lemma ExpireKeepsCounter(db: Db, phone: string, lives: seq<Life>)
    requires CounterOk(db, phone, lives)
    ensures CounterOk(ExpireCounter(db, phone), phone, lives)
  {
  }

  lemma OtherCounter(db: Db, db': Db, phone: string, lives: seq<Life>)
    requires CounterOk(db, phone, lives) && db.now <= db'.now
    requires phone in db'.counters <==> phone in db.counters
    requires phone in db.counters ==> db'.counters[phone] == db.counters[phone]
    ensures CounterOk(db', phone, lives)
  {
  }

  lemma DoCountKeepsCounters(s: System, id: nat, phone: string)
    requires CountersOk(s)
    ensures CountersOk(DoCount(s, id, phone))
  {
    var s' := DoCount(s, id, phone);
    forall q ensures CounterOk(s'.db, q, LivesOf(s', q)) {
      assert CounterOk(s.db, q, LivesOf(s, q));
      if q == phone {
        CountKeepsCounter(s.db, phone, LivesOf(s, phone));
      } else {
        OtherCounter(s.db, s'.db, q, LivesOf(s, q));
      }
    }
  }

  lemma DoExpireKeepsCounters(s: System, id: nat, phone: string, ok: bool)
    requires CountersOk(s)
    ensures CountersOk(DoExpire(s, id, phone, ok))
  {
    var s' := DoExpire(s, id, phone, ok);
    forall q ensures CounterOk(s'.db, q, LivesOf(s', q)) {
      assert CounterOk(s.db, q, LivesOf(s, q));
      if q == phone {
        ExpireKeepsCounter(s.db, phone, LivesOf(s, phone));
      } else {
        OtherCounter(s.db, s'.db, q, LivesOf(s, q));
      }
    }
  }

  lemma ElseKeepsCounters(s: System, s': System)
    requires CountersOk(s) && s'.db.counters == s.db.counters && s.db.now <= s'.db.now && s'.lives == s.lives
    ensures CountersOk(s')
  {
    forall q ensures CounterOk(s'.db, q, LivesOf(s', q)) {
      assert CounterOk(s.db, q, LivesOf(s, q));
      OtherCounter(s.db, s'.db, q, LivesOf(s, q));
    }
  }

  lemma {:induction false} CountersKept(s: System, es: seq<Event>)
    requires CountersOk(s)
    ensures CountersOk(Exec(s, es))
    decreases es
  {
    if es != [] {
      var e, s' := es[0], Apply(s, es[0]);
      if e.Count? && e.id in s.calls && s.calls[e.id].Asked? {
        DoCountKeepsCounters(s, e.id, s.calls[e.id].phone);
      } else if e.Expire? && e.id in s.calls && s.calls[e.id].First? {
        DoExpireKeepsCounters(s, e.id, s.calls[e.id].phone, e.ok);
      } else {
        Elsewhere(s, e);
        ElseKeepsCounters(s, s');
      }
      CountersKept(s', es[1..]);
    }
  }

  lemma Elsewhere(s: System, e: Event)
    requires !(e.Count? && e.id in s.calls && s.calls[e.id].Asked?)
    requires !(e.Expire? && e.id in s.calls && s.calls[e.id].First?)
    ensures var s' := Apply(s, e); s'.db.counters == s.db.counters && s.db.now <= s'.db.now && s'.lives == s.lives
  {
  }

  /** In every interleaving, with crashes, at most nine requests for a phone are let through in any
      half-open hour, counted when the counter lets them through. */
  lemma RateBound(es: seq<Event>, phone: string, from: nat)
    ensures TotalIn(LivesOf(Exec(INIT, es), phone), from, from + 3_600_000) <= 9
  {
    CountersKept(INIT, es);
    assert CounterOk(Exec(INIT, es).db, phone, LivesOf(Exec(INIT, es), phone));
    HourBound(LivesOf(Exec(INIT, es), phone), from);
  }
}
