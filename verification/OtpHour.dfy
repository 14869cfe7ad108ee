/** Exactly how many codes an hour can see, from any state on. */
module OtpHour {
  import opened Collections
  import opened RedisCounter
  import opened OtpModel
  import opened OtpRate
  import OtpGuesses

  /** The counter goes before `end`. */
  predicate Ends(db: Db, phone: string, end: nat) {
    db.HasCounter(phone) && db.counters[phone].deadline.Some? && db.counters[phone].deadline.value < end
  }

  function Rest(live: nat): nat {
    if live < RATE_MAX then RATE_MAX - live else 0
  }

  /** What the counter can still let through before `end`: the rest of its own five, and another five
      if it goes before. */
  function Room(db: Db, phone: string, end: nat): nat {
    Rest(Live(db.counters, phone, db.now)) + if Ends(db, phone, end) then RATE_MAX else 0
  }

  /** The codes stored for a phone in the hour from `from` on. */
  function Codes(s: System, phone: string, from: nat): nat {
    CodesIn(s.issued, phone, from, from + 3_600_000)
  }

  /** Those, the requests let through that have stored none yet, and
      those that the counter can still let through. */
  function Reach(s: System, phone: string, from: nat): nat {
    Codes(s, phone, from)
    + if s.db.now < from + RATE_WINDOW then |Open(s.calls, phone)| + Room(s.db, phone, from + RATE_WINDOW) else 0
  }

  // ---- no step extends it

  lemma CountTakesRoom(db: Db, phone: string, end: nat)
    ensures var (db', count) := Incr(db, phone);
            Room(db', phone, end) + One(count == 1 || count <= RATE_MAX) == Room(db, phone, end)
  {
  }

  lemma CountKeepsReach(s: System, id: nat, q: string, phone: string, from: nat)
    requires id in s.calls && s.calls[id] == Asked(q)
    ensures Reach(DoCount(s, id, q), phone, from) == Reach(s, phone, from)
  {
    var s' := DoCount(s, id, q);
    CountMoves(s, id, q, phone);
    OpenTo(s.calls, id, s'.calls[id], phone);
    if q == phone {
      CountTakesRoom(s.db, phone, from + RATE_WINDOW);
    }
    assert s'.db == Incr(s.db, q).0;
  }

  lemma StoreKeepsReach(s: System, id: nat, q: string, n: nat, phone: string, from: nat)
    requires s.db.now >= from && id in s.calls && s.calls[id] == Allowed(q) && n < 1_000_000
    ensures Reach(DoStore(s, id, q, n), phone, from) == Reach(s, phone, from)
  {
    CodesInSnoc(s.issued, Issued(q, SixDigits(n), s.db.now), phone, from, from + RATE_WINDOW);
    OpenTo(s.calls, id, Finished(Sent(SixDigits(n))), phone);
  }

  lemma ExpireTakesRoom(s: System, id: nat, q: string, ok: bool, phone: string, from: nat)
    requires s.db.now >= from && id in s.calls && s.calls[id] == First(q)
    ensures Reach(DoExpire(s, id, q, ok), phone, from) <= Reach(s, phone, from)
  {
    OpenTo(s.calls, id, Allowed(q), phone);
  }

  lemma TickTakesRoom(s: System, d: nat, phone: string, from: nat)
    requires s.db.now >= from
    ensures Reach(Apply(s, Tick(d)), phone, from) <= Reach(s, phone, from)
  {
  }

  lemma OtherKeepsCounters(s: System, e: Event)
    requires !e.Count? && !e.Store? && !e.Tick? && !(e.Expire? && e.id in s.calls && s.calls[e.id].First?)
    ensures var s' := Apply(s, e); s'.db.counters == s.db.counters && s'.db.now == s.db.now && s'.issued == s.issued
  {
  }

  lemma ApplyKeepsReach(s: System, e: Event, phone: string, from: nat)
    requires s.db.now >= from
    ensures Apply(s, e).db.now >= from && Reach(Apply(s, e), phone, from) <= Reach(s, phone, from)
  {
    if e.Count? {
      if e.id in s.calls && s.calls[e.id].Asked? { CountKeepsReach(s, e.id, s.calls[e.id].phone, phone, from); }
    } else if e.Store? {
      if e.id in s.calls && s.calls[e.id].Allowed? && e.n < 1_000_000 {
        StoreKeepsReach(s, e.id, s.calls[e.id].phone, e.n, phone, from);
      }
    } else if e.Tick? {
      TickTakesRoom(s, e.d, phone, from);
    } else if e.Expire? && e.id in s.calls && s.calls[e.id].First? {
      ExpireTakesRoom(s, e.id, s.calls[e.id].phone, e.ok, phone, from);
    } else {
      OtherKeepsCounters(s, e);
      OtherOpens(s, e, phone);
    }
  }

  lemma {:induction false} ReachKept(s: System, es: seq<Event>, phone: string, from: nat)
    requires s.db.now >= from
    ensures Reach(Exec(s, es), phone, from) <= Reach(s, phone, from)
    decreases es
  {
    if es != [] {
      ApplyKeepsReach(s, es[0], phone, from);
      ReachKept(Apply(s, es[0]), es[1..], phone, from);
    }
  }

  // ---- and a run gets there

  /** `more` codes on within the hour, at the same time. */
  predicate Stored(s: System, s': System, phone: string, from: nat, more: nat) {
    s'.db.now == s.db.now && Codes(s', phone, from) == Codes(s, phone, from) + more
  }

  function Finish(id: nat): seq<Event> {
    [Expire(id, false)] + [Store(id, 0)]
  }

  // An open request stores its code.
  lemma FinishRuns(s: System, id: nat, phone: string, from: nat)
    requires from <= s.db.now < from + RATE_WINDOW && id in Open(s.calls, phone)
    ensures var s' := Exec(s, Finish(id));
            && Stored(s, s', phone, from, 1) && s'.db.counters == s.db.counters
            && Open(s'.calls, phone) == Open(s.calls, phone) - {id}
  {
    var s1 := Apply(s, Expire(id, false));
    assert s1.calls == s.calls[id := Allowed(phone)] && s1.db == s.db && s1.issued == s.issued;
    ExecConcat(s, [Expire(id, false)], [Store(id, 0)]);
    OtpGuesses.ExecOne(s, Expire(id, false));
    OtpGuesses.ExecOne(s1, Store(id, 0));
    StoreRuns(s1, id, phone, from);
    assert Open(s1.calls, phone) == Open(s.calls, phone);
  }

  lemma StoreRuns(s: System, id: nat, phone: string, from: nat)
    requires from <= s.db.now < from + RATE_WINDOW && id in s.calls && s.calls[id] == Allowed(phone)
    ensures var s' := Apply(s, Store(id, 0));
            && Stored(s, s', phone, from, 1) && s'.db.counters == s.db.counters
            && Open(s'.calls, phone) == Open(s.calls, phone) - {id}
  {
    assert Apply(s, Store(id, 0)) == DoStore(s, id, phone, 0);
    CodesInSnoc(s.issued, Issued(phone, SixDigits(0), s.db.now), phone, from, from + RATE_WINDOW);
  }

  lemma {:induction false} FinishAll(s: System, phone: string, from: nat) returns (es: seq<Event>)
    requires from <= s.db.now < from + RATE_WINDOW
    ensures Stored(s, Exec(s, es), phone, from, |Open(s.calls, phone)|) && Exec(s, es).db.counters == s.db.counters
    decreases |Open(s.calls, phone)|
  {
    if Open(s.calls, phone) == {} {
      es := [];
    } else {
      var id :| id in Open(s.calls, phone);
      FinishRuns(s, id, phone, from);
      Removed(Open(s.calls, phone), id);
      var rest := FinishAll(Exec(s, Finish(id)), phone, from);
      ExecConcat(s, Finish(id), rest);
      es := Finish(id) + rest;
    }
  }

  function Begin(id: nat, phone: string): seq<Event> {
    [Ask(id, phone)] + [Count(id)]
  }

  lemma BeginRuns(s: System, id: nat, phone: string)
    requires id !in s.calls && Live(s.db.counters, phone, s.db.now) < RATE_MAX
    ensures var s' := Exec(s, Begin(id, phone));
            && s'.db == Incr(s.db, phone).0 && s'.issued == s.issued && id in Open(s'.calls, phone)
  {
    var s1 := Apply(s, Ask(id, phone));
    ExecConcat(s, [Ask(id, phone)], [Count(id)]);
    OtpGuesses.ExecOne(s, Ask(id, phone));
    OtpGuesses.ExecOne(s1, Count(id));
    assert Apply(s1, Count(id)) == DoCount(s1, id, phone);
  }

  // One more request, let through and stored at once.
  lemma OneMore(s: System, phone: string, from: nat) returns (es: seq<Event>)
    requires from <= s.db.now < from + RATE_WINDOW && Live(s.db.counters, phone, s.db.now) < RATE_MAX
    ensures Stored(s, Exec(s, es), phone, from, 1) && Exec(s, es).db.counters == Incr(s.db, phone).0.counters
  {
    var id := Above(s.calls.Keys);
    BeginRuns(s, id, phone);
    FinishRuns(Exec(s, Begin(id, phone)), id, phone, from);
    ExecConcat(s, Begin(id, phone), Finish(id));
    es := Begin(id, phone) + Finish(id);
  }

  lemma {:induction false} FillUp(s: System, phone: string, from: nat) returns (es: seq<Event>)
    requires from <= s.db.now < from + RATE_WINDOW
    ensures Stored(s, Exec(s, es), phone, from, Rest(Live(s.db.counters, phone, s.db.now)))
    ensures s.db.HasCounter(phone) ==> Exec(s, es).db.HasCounter(phone) && Exec(s, es).db.counters[phone].deadline == s.db.counters[phone].deadline
    decreases Rest(Live(s.db.counters, phone, s.db.now))
  {
    if Live(s.db.counters, phone, s.db.now) >= RATE_MAX {
      es := [];
    } else {
      var first := OneMore(s, phone, from);
      var rest := FillUp(Exec(s, first), phone, from);
      ExecConcat(s, first, rest);
      es := first + rest;
    }
  }

  // The counter goes, and lets five more through.
  lemma Refill(s: System, phone: string, from: nat) returns (es: seq<Event>)
    requires from <= s.db.now && Ends(s.db, phone, from + RATE_WINDOW)
    ensures Codes(Exec(s, es), phone, from) == Codes(s, phone, from) + RATE_MAX
  {
    var d := s.db.counters[phone].deadline.value - s.db.now;
    OtpGuesses.ExecOne(s, Tick(d));
    var rest := FillUp(Apply(s, Tick(d)), phone, from);
    ExecConcat(s, [Tick(d)], rest);
    es := [Tick(d)] + rest;
  }

  lemma ReachIsReached(s: System, phone: string) returns (es: seq<Event>)
    ensures Codes(Exec(s, es), phone, s.db.now) == Reach(s, phone, s.db.now)
  {
    var from := s.db.now;
    var open := FinishAll(s, phone, from);
    var s1 := Exec(s, open);
    var fill := FillUp(s1, phone, from);
    ExecConcat(s, open, fill);
    es := open + fill;
    if Ends(s.db, phone, from + RATE_WINDOW) {
      var more := Refill(Exec(s, es), phone, from);
      ExecConcat(s, es, more);
      es := es + more;
    }
  }

  /** In any state: at most `bound` codes are stored for a phone within the hour that begins now, whatever
      happens, if and only if the codes stored at this very moment, the requests let through that have
      not stored theirs, and what the counter can still let through within the hour are at most `bound`. */
  lemma CodesInAnHourIff(s: System, phone: string, bound: nat)
    ensures (forall es :: Codes(Exec(s, es), phone, s.db.now) <= bound)
       <==> Codes(s, phone, s.db.now) + |Open(s.calls, phone)| + Room(s.db, phone, s.db.now + RATE_WINDOW) <= bound
  {
    if Reach(s, phone, s.db.now) <= bound {
      forall es ensures Codes(Exec(s, es), phone, s.db.now) <= bound {
        ReachKept(s, es, phone, s.db.now);
      }
    } else {
      var es := ReachIsReached(s, phone);
    }
  }
}
