/** otp.Store, one call at a time, and the runs its calls stand for. */
module OtpStore {
  import opened Decimal
  import opened OtpModel
  import opened RedisCounter
  import opened OtpWitness

  class Store {
    var now: nat
    var hashes: map<string, Hash>
    var counters: map<string, Counter>

    function View(): Db
      reads this
    {
      Db(now, hashes, counters)
    }

    constructor ()
      ensures View() == Db(0, map[], map[])
    {
      now, hashes, counters := 0, map[], map[];
    }

    /** `n` is the random number; the error of the EXPIRE is ignored. */
    method Request(phone: string, n: nat, expires: bool) returns (o: Outcome)
      requires n < 1_000_000
      modifies this
      ensures (View(), o) == RequestOnce(old(View()), phone, SixDigits(n), expires)
      ensures now == old(now)
      ensures o == RateLimited ==> hashes == old(hashes)
      ensures o != RateLimited ==>
                o == Sent(SixDigits(n)) && hashes == old(hashes)[phone := Hash(Some(o.code), 0, Some(now + 180_000))]
      ensures var known := phone in old(counters) && (old(counters)[phone].deadline.None? || now < old(counters)[phone].deadline.value);
              var count := if known then old(counters)[phone].count + 1 else 1;
              && (o == RateLimited <==> count > 5)
              && counters.Keys == old(counters).Keys + {phone} && counters[phone].count == count
              && counters[phone].deadline == if count == 1 && expires then Some(now + 3_600_000)
                                             else if known then old(counters)[phone].deadline else None
      ensures forall q :: q in counters && q != phone ==> counters[q] == old(counters)[q]
    {
      var count := Live(counters, phone, now) + 1;
      counters := RedisCounter.Incremented(counters, phone, now);
      if count == 1 && expires {
        counters := RedisCounter.Expiring(counters, phone, now, RATE_WINDOW);
      }
      if count > RATE_MAX {
        return RateLimited;
      }
      hashes := hashes[phone := Hash(Some(SixDigits(n)), 0, Some(now + CODE_TTL))];
      return Sent(SixDigits(n));
    }

    method Verify(phone: string, code: string) returns (o: Outcome)
      modifies this
      ensures (View(), o) == VerifyOnce(old(View()), phone, code)
      ensures counters == old(counters) && now == old(now)
      ensures var stored := old(View().HasHash(phone));
              && (o == Accepted <==> stored && CodeOf(old(hashes)[phone]) == code)
              && (o == TooManyAttempts <==> stored && CodeOf(old(hashes)[phone]) != code && old(hashes)[phone].attempts + 1 >= 5)
              && (o == Accepted || o == TooManyAttempts ==> hashes == old(hashes) - {phone})
              && (o != Accepted && o != TooManyAttempts ==> o == InvalidCode)
              && (o == InvalidCode && !stored ==> hashes == old(hashes))
              && (o == InvalidCode && stored ==>
                    hashes == old(hashes)[phone := old(hashes)[phone].(attempts := old(hashes)[phone].attempts + 1)])
    {
      var db := View();
      if !db.HasHash(phone) {
        return InvalidCode;
      }
      if CodeOf(hashes[phone]) != code {
        var attempts := hashes[phone].attempts + 1;
        hashes := hashes[phone := hashes[phone].(attempts := attempts)];
        if attempts >= MAX_ATTEMPTS {
          hashes := hashes - {phone};
          return TooManyAttempts;
        }
        return InvalidCode;
      }
      hashes := hashes - {phone};
      return Accepted;
    }
  }

  /** The code that is sent is the one that logs in: presented for its phone within three minutes, with
      nothing in between, it is accepted. */
  method SentCodeIsAccepted(store: Store, phone: string, n: nat, expires: bool, wait: nat) returns (sent: Outcome, o: Outcome)
    requires n < 1_000_000 && wait < 180_000
    modifies store
    ensures sent.Sent? ==> o == Accepted
  {
    sent := store.Request(phone, n, expires);
    o := sent;
    if sent.Sent? {
      store.now := store.now + wait;
      o := store.Verify(phone, sent.code);
    }
  }

  /** In every run a code that was sent was stored. */
  lemma SentWasStored(es: seq<Event>, id: nat)
    requires var s := Exec(INIT, es); id in s.calls && s.calls[id].Finished? && s.calls[id].outcome.Sent?
    ensures var s := Exec(INIT, es); exists i :: 0 <= i < |s.issued| && s.issued[i].code == s.calls[id].outcome.code
  {
    SentKept(INIT, es);
  }

  ghost predicate SentOk(s: System) {
    forall id :: id in s.calls && s.calls[id].Finished? && s.calls[id].outcome.Sent? ==> IsStored(s.issued, s.calls[id].outcome.code)
  }

  predicate IsStored(issued: seq<Issued>, code: string) {
    exists i :: 0 <= i < |issued| && issued[i].code == code
  }

  lemma StoreKeepsSent(s: System, id: nat, phone: string, n: nat)
    requires SentOk(s) && n < 1_000_000
    ensures SentOk(DoStore(s, id, phone, n))
  {
    var s' := DoStore(s, id, phone, n);
    assert s'.issued[|s.issued|].code == SixDigits(n);
    forall code | IsStored(s.issued, code) ensures IsStored(s'.issued, code) {
      var i :| 0 <= i < |s.issued| && s.issued[i].code == code;
      assert s'.issued[i].code == code;
    }
  }

  lemma {:induction false} SentKept(s: System, es: seq<Event>)
    requires SentOk(s)
    ensures SentOk(Exec(s, es))
    decreases es
  {
    if es != [] {
      var e := es[0];
      if e.Store? && e.id in s.calls && s.calls[e.id].Allowed? && e.n < 1_000_000 {
        StoreKeepsSent(s, e.id, s.calls[e.id].phone, e.n);
      } else {
        OthersSendNothing(s, e);
      }
      SentKept(Apply(s, e), es[1..]);
    }
  }

  lemma OthersSendNothing(s: System, e: Event)
    requires SentOk(s) && !(e.Store? && e.id in s.calls && s.calls[e.id].Allowed? && e.n < 1_000_000)
    ensures SentOk(Apply(s, e))
  {
  }

  /** A Verify whose commands follow one another without a break is the one-step Verify. */
  lemma VerifyIsARun(s: System, id: nat, phone: string, code: string)
    requires id in s.calls && s.calls[id] == Guessing(phone, code)
    ensures var s' := Exec(s, [Read(id), Miss(id), Drop(id)]);
            && s'.db == VerifyOnce(s.db, phone, code).0
            && id in s'.calls && s'.calls[id] == Finished(VerifyOnce(s.db, phone, code).1)
  {
    ExecThree(s, Read(id), Miss(id), Drop(id));
    var s1 := Apply(s, Read(id));
    assert s1 == DoRead(s, id, phone, code);
    if s.db.HasHash(phone) {
      if CodeOf(s.db.hashes[phone]) != code {
        MissRuns(s1, id, phone);
      } else {
        assert Apply(s1, Miss(id)) == s1;
        assert Apply(s1, Drop(id)) == DoDrop(s1, id, phone, Accepted);
      }
    }
  }

  lemma MissRuns(s: System, id: nat, phone: string)
    requires id in s.calls && s.calls[id] == Mistaken(phone)
    ensures var s', attempts := Apply(Apply(s, Miss(id)), Drop(id)), HIncr(s.db, phone).1;
            && s'.db == (if attempts >= MAX_ATTEMPTS then Del(HIncr(s.db, phone).0, phone) else HIncr(s.db, phone).0)
            && id in s'.calls && s'.calls[id] == Finished(if attempts >= MAX_ATTEMPTS then TooManyAttempts else InvalidCode)
  {
    var s1 := Apply(s, Miss(id));
    assert s1 == DoMiss(s, id, phone);
  }

  /** And so is a Request. */
  lemma RequestIsARun(s: System, id: nat, phone: string, n: nat, expires: bool)
    requires id in s.calls && s.calls[id] == Asked(phone) && n < 1_000_000
    ensures var s' := Exec(s, [Count(id), Expire(id, expires), Store(id, n)]);
            && s'.db == RequestOnce(s.db, phone, SixDigits(n), expires).0
            && id in s'.calls && s'.calls[id] == Finished(RequestOnce(s.db, phone, SixDigits(n), expires).1)
  {
    ExecThree(s, Count(id), Expire(id, expires), Store(id, n));
    var s1 := Apply(s, Count(id));
    assert s1 == DoCount(s, id, phone);
    var s2 := Apply(s1, Expire(id, expires));
    if s1.calls[id] == First(phone) {
      assert s2 == DoExpire(s1, id, phone, expires);
    } else {
      assert s2 == s1;
    }
  }

  lemma {:induction false} DigitCount(n: nat, k: nat)
    requires k >= 1 && n < Power(k)
    ensures 1 <= |Digits(n)| <= k
  {
    if n >= 10 {
      DigitCount(n / 10, k - 1);
    }
  }

  function Power(k: nat): nat {
    if k == 0 then 1 else 10 * Power(k - 1)
  }

  /** Every code has six digits that spell its number, so no two numbers share a code. */
  lemma CodeSpellsItsNumber(n: nat)
    requires n < 1_000_000
    ensures |SixDigits(n)| == 6 && (forall i :: 0 <= i < 6 ==> IsDigit(SixDigits(n)[i])) && Value(SixDigits(n)) == n
  {
    assert Power(6) == 1_000_000;
    DigitCount(n, 6);
    DigitsAreRead(n);
    ZerosAre(6 - |Digits(n)|);
    LeadingZeros(6 - |Digits(n)|, Digits(n));
  }
}
