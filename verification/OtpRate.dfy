/** How many codes are stored for a phone: over a whole run, and within an hour. */
module OtpRate {
  import opened Collections
  import opened OtpModel
  import opened OtpProofs

  // ---- every code was let through

  function CountIssued(issued: seq<Issued>, phone: string): nat {
    if issued == [] then 0
    else CountIssued(issued[..|issued| - 1], phone) + if issued[|issued| - 1].phone == phone then 1 else 0
  }

  function AllHits(lives: seq<Life>): nat {
    if lives == [] then 0 else AllHits(lives[..|lives| - 1]) + |lives[|lives| - 1].hits|
  }

  predicate IsOpen(p: Phase, phone: string) {
    (p.First? || p.Allowed?) && p.phone == phone
  }

  function Open(calls: map<nat, Phase>, phone: string): set<nat> {
    set id | id in calls && IsOpen(calls[id], phone)
  }

  lemma OpenTo(calls: map<nat, Phase>, id: nat, p: Phase, phone: string)
    ensures |Open(calls[id := p], phone)| == |Open(calls, phone)| - One(id in calls && IsOpen(calls[id], phone)) + One(IsOpen(p, phone))
  {
    OthersOpen(calls, id, p, phone);
    Removed(Open(calls, phone), id);
    Removed(Open(calls[id := p], phone), id);
  }

  lemma OthersOpen(calls: map<nat, Phase>, id: nat, p: Phase, phone: string)
    ensures Open(calls[id := p], phone) - {id} == Open(calls, phone) - {id}
  {
  }

  lemma OpenWithout(calls: map<nat, Phase>, id: nat, phone: string)
    ensures |Open(calls - {id}, phone)| <= |Open(calls, phone)|
  {
    assert Open(calls - {id}, phone) == Open(calls, phone) - {id};
    Removed(Open(calls, phone), id);
  }

  predicate AllowedOk(s: System, phone: string) {
    CountIssued(s.issued, phone) + |Open(s.calls, phone)| <= AllHits(LivesOf(s, phone))
  }

  lemma AllHitsSnoc(init: seq<Life>, last: Life)
    ensures AllHits(init + [last]) == AllHits(init) + |last.hits|
  {
    assert (init + [last])[..|init|] == init;
  }

  lemma HitCounts(lives: seq<Life>, now: nat, isNew: bool, allowed: bool)
    ensures AllHits(Hit(lives, now, isNew, allowed)) == AllHits(lives) + One(isNew || allowed || lives == [])
  {
    if isNew || lives == [] {
      AllHitsSnoc(lives, Life(now, [now]));
    } else if allowed {
      var init, last := lives[..|lives| - 1], lives[|lives| - 1];
      assert lives == init + [last];
      assert Hit(lives, now, isNew, allowed) == init + [last.(hits := last.hits + [now])];
      AllHitsSnoc(init, last);
      AllHitsSnoc(init, last.(hits := last.hits + [now]));
    }
  }

  lemma StoreCounts(issued: seq<Issued>, i: Issued, phone: string)
    ensures CountIssued(issued + [i], phone) == CountIssued(issued, phone) + One(i.phone == phone)
  {
    assert (issued + [i])[..|issued|] == issued;
  }

  lemma CountKeepsAllowed(s: System, id: nat, q: string, phone: string)
    requires AllowedOk(s, phone) && id in s.calls && s.calls[id] == Asked(q)
    ensures AllowedOk(DoCount(s, id, q), phone)
  {
    var s' := DoCount(s, id, q);
    var count := Incr(s.db, q).1;
    CountMoves(s, id, q, phone);
    OpenTo(s.calls, id, s'.calls[id], phone);
    HitCounts(LivesOf(s, q), s.db.now, count == 1, count <= RATE_MAX);
  }

  lemma CountMoves(s: System, id: nat, q: string, phone: string)
    ensures var s', count := DoCount(s, id, q), Incr(s.db, q).1;
            && s'.issued == s.issued && id in s'.calls && s'.calls == s.calls[id := s'.calls[id]]
            && (IsOpen(s'.calls[id], phone) <==> q == phone && (count == 1 || count <= RATE_MAX))
            && LivesOf(s', phone) == if q == phone then Hit(LivesOf(s, q), s.db.now, count == 1, count <= RATE_MAX) else LivesOf(s, phone)
  {
  }

  lemma StoreKeepsAllowed(s: System, id: nat, q: string, n: nat, phone: string)
    requires AllowedOk(s, phone) && id in s.calls && s.calls[id] == Allowed(q) && n < 1_000_000
    ensures AllowedOk(DoStore(s, id, q, n), phone)
  {
    StoreCounts(s.issued, Issued(q, SixDigits(n), s.db.now), phone);
    OpenTo(s.calls, id, Finished(Sent(SixDigits(n))), phone);
  }

  lemma OtherStores(s: System, e: Event)
    requires !e.Count? && !e.Store?
    ensures var s' := Apply(s, e); s'.issued == s.issued && s'.lives == s.lives && s'.db.now >= s.db.now
  {
  }

  lemma OtherOpens(s: System, e: Event, phone: string)
    requires !e.Count? && !e.Store?
    ensures |Open(Apply(s, e).calls, phone)| <= |Open(s.calls, phone)|
  {
    var s' := Apply(s, e);
    if e.Stop? {
      OpenWithout(s.calls, e.id, phone);
    } else if s'.calls != s.calls {
      OpenTo(s.calls, e.id, s'.calls[e.id], phone);
    }
  }

  lemma {:induction false} AllowedKept(s: System, es: seq<Event>, phone: string)
    requires AllowedOk(s, phone)
    ensures AllowedOk(Exec(s, es), phone)
    decreases es
  {
    if es != [] {
      var e := es[0];
      if e.Count? {
        if e.id in s.calls && s.calls[e.id].Asked? { CountKeepsAllowed(s, e.id, s.calls[e.id].phone, phone); }
      } else if e.Store? {
        if e.id in s.calls && s.calls[e.id].Allowed? && e.n < 1_000_000 {
          StoreKeepsAllowed(s, e.id, s.calls[e.id].phone, e.n, phone);
        }
      } else {
        OtherStores(s, e);
        OtherOpens(s, e, phone);
      }
      AllowedKept(Apply(s, e), es[1..], phone);
    }
  }

  /** No code is stored for a phone without a request of its own that a counter let through. */
  lemma EveryCodeWasAllowed(es: seq<Event>, phone: string)
    ensures CountIssued(Exec(INIT, es).issued, phone) <= AllHits(LivesOf(Exec(INIT, es), phone))
  {
    AllowedKept(INIT, es, phone);
  }

  // ---- codes stored within an hour

  function CodesIn(issued: seq<Issued>, phone: string, from: int, to: int): nat {
    if issued == [] then 0
    else
      var last := issued[|issued| - 1];
      CodesIn(issued[..|issued| - 1], phone, from, to) + One(last.phone == phone && from <= last.at < to)
  }

  lemma CodesInSnoc(issued: seq<Issued>, i: Issued, phone: string, from: int, to: int)
    ensures CodesIn(issued + [i], phone, from, to) == CodesIn(issued, phone, from, to) + One(i.phone == phone && from <= i.at < to)
  {
    assert (issued + [i])[..|issued|] == issued;
  }

  lemma {:induction false} CodesInNone(issued: seq<Issued>, phone: string, from: int, to: int)
    requires forall i :: 0 <= i < |issued| ==> issued[i].at < from
    ensures CodesIn(issued, phone, from, to) == 0
  {
    if issued != [] {
      CodesInNone(issued[..|issued| - 1], phone, from, to);
    }
  }

  lemma CountInSnoc(hits: seq<nat>, t: nat, from: int, to: int)
    ensures CountIn(hits + [t], from, to) == CountIn(hits, from, to) + One(from <= t < to)
  {
    assert (hits + [t])[..|hits|] == hits;
  }

  lemma TotalInSnoc(init: seq<Life>, last: Life, from: int, to: int)
    ensures TotalIn(init + [last], from, to) == TotalIn(init, from, to) + CountIn(last.hits, from, to)
  {
    assert (init + [last])[..|init|] == init;
  }

  lemma HitTotals(lives: seq<Life>, now: nat, isNew: bool, allowed: bool, from: int, to: int)
    ensures TotalIn(Hit(lives, now, isNew, allowed), from, to)
         == TotalIn(lives, from, to) + One((isNew || allowed || lives == []) && from <= now < to)
  {
    if isNew || lives == [] {
      TotalInSnoc(lives, Life(now, [now]), from, to);
      CountInSnoc([], now, from, to);
      assert [] + [now] == [now];
    } else if allowed {
      var init, last := lives[..|lives| - 1], lives[|lives| - 1];
      assert lives == init + [last];
      assert Hit(lives, now, isNew, allowed) == init + [last.(hits := last.hits + [now])];
      TotalInSnoc(init, last, from, to);
      TotalInSnoc(init, last.(hits := last.hits + [now]), from, to);
      CountInSnoc(last.hits, now, from, to);
    }
  }

  /** From the moment `from` on, with `k` requests open then: while the hour lasts, the codes stored in
      it and the requests still open are covered by those and by the requests let through since. */
  predicate Covered(s: System, phone: string, from: nat, k: nat) {
    && s.db.now >= from
    && CodesIn(s.issued, phone, from, from + RATE_WINDOW)
       + (if s.db.now < from + RATE_WINDOW then |Open(s.calls, phone)| else 0)
       <= TotalIn(LivesOf(s, phone), from, from + RATE_WINDOW) + k
  }

  lemma CountKeepsCovered(s: System, id: nat, q: string, phone: string, from: nat, k: nat)
    requires Covered(s, phone, from, k) && id in s.calls && s.calls[id] == Asked(q)
    ensures Covered(DoCount(s, id, q), phone, from, k)
  {
    var s' := DoCount(s, id, q);
    var count := Incr(s.db, q).1;
    CountMoves(s, id, q, phone);
    OpenTo(s.calls, id, s'.calls[id], phone);
    HitTotals(LivesOf(s, q), s.db.now, count == 1, count <= RATE_MAX, from, from + RATE_WINDOW);
  }

  lemma StoreKeepsCovered(s: System, id: nat, q: string, n: nat, phone: string, from: nat, k: nat)
    requires Covered(s, phone, from, k) && id in s.calls && s.calls[id] == Allowed(q) && n < 1_000_000
    ensures Covered(DoStore(s, id, q, n), phone, from, k)
  {
    var s', to := DoStore(s, id, q, n), from + RATE_WINDOW;
    CodesInSnoc(s.issued, Issued(q, SixDigits(n), s.db.now), phone, from, to);
    OpenTo(s.calls, id, Finished(Sent(SixDigits(n))), phone);
    assert CodesIn(s'.issued, phone, from, to) == CodesIn(s.issued, phone, from, to) + One(q == phone && s.db.now < to);
    assert |Open(s'.calls, phone)| == |Open(s.calls, phone)| - One(q == phone);
    assert LivesOf(s', phone) == LivesOf(s, phone);
  }

  lemma ApplyKeepsCovered(s: System, e: Event, phone: string, from: nat, k: nat)
    requires Covered(s, phone, from, k)
    ensures Covered(Apply(s, e), phone, from, k)
  {
    if e.Count? {
      if e.id in s.calls && s.calls[e.id].Asked? { CountKeepsCovered(s, e.id, s.calls[e.id].phone, phone, from, k); }
    } else if e.Store? {
      if e.id in s.calls && s.calls[e.id].Allowed? && e.n < 1_000_000 {
        StoreKeepsCovered(s, e.id, s.calls[e.id].phone, e.n, phone, from, k);
      }
    } else {
      OtherStores(s, e);
      OtherOpens(s, e, phone);
    }
  }

  lemma {:induction false} CoveredKept(s: System, es: seq<Event>, phone: string, from: nat, k: nat)
    requires Covered(s, phone, from, k)
    ensures Covered(Exec(s, es), phone, from, k)
    decreases es
  {
    if es != [] {
      ApplyKeepsCovered(s, es[0], phone, from, k);
      CoveredKept(Apply(s, es[0]), es[1..], phone, from, k);
    }
  }

  /** The requests of a phone that are let through and have not stored their code, when the clock
      reaches `from`. */
  function OpenAt(s: System, es: seq<Event>, phone: string, from: nat): nat
    decreases es
  {
    if s.db.now >= from then |Open(s.calls, phone)|
    else if es == [] then 0
    else OpenAt(Apply(s, es[0]), es[1..], phone, from)
  }

  lemma {:induction false} CodesFrom(s: System, es: seq<Event>, phone: string, from: nat)
    requires forall i :: 0 <= i < |s.issued| ==> s.issued[i].at < from && s.issued[i].at <= s.db.now
    ensures CodesIn(Exec(s, es).issued, phone, from, from + RATE_WINDOW)
         <= TotalIn(LivesOf(Exec(s, es), phone), from, from + RATE_WINDOW) + OpenAt(s, es, phone, from)
    decreases es
  {
    CodesInNone(s.issued, phone, from, from + RATE_WINDOW);
    if s.db.now >= from {
      CoveredKept(s, es, phone, from, |Open(s.calls, phone)|);
    } else if es != [] {
      CodesFrom(Apply(s, es[0]), es[1..], phone, from);
    }
  }

  /** In every interleaving, the codes stored for a phone in any half-open hour are at most the requests
      let through in that hour, nine, and those let through before and still open when it begins. */
  lemma CodesInAnHour(es: seq<Event>, phone: string, from: nat)
    ensures var s := Exec(INIT, es);
            && CodesIn(s.issued, phone, from, from + 3_600_000)
               <= TotalIn(LivesOf(s, phone), from, from + 3_600_000) + OpenAt(INIT, es, phone, from)
            && CodesIn(s.issued, phone, from, from + 3_600_000) <= 9 + OpenAt(INIT, es, phone, from)
  {
    CodesFrom(INIT, es, phone, from);
    RateBound(es, phone, from);
  }

  /** Requests take no time: none is open when the clock moves. */
  predicate Prompt(s: System, es: seq<Event>, phone: string)
    decreases es
  {
    es == [] || ((es[0].Tick? ==> Open(s.calls, phone) == {}) && Prompt(Apply(s, es[0]), es[1..], phone))
  }

  lemma {:induction false} PromptIsClosed(s: System, es: seq<Event>, phone: string, from: nat)
    requires Prompt(s, es, phone) && (s.db.now >= from ==> Open(s.calls, phone) == {})
    ensures OpenAt(s, es, phone, from) == 0
    decreases es
  {
    if s.db.now < from && es != [] {
      PromptIsClosed(Apply(s, es[0]), es[1..], phone, from);
    }
  }

  /** When requests take no time, any half-open hour sees at most nine codes. */
  lemma PromptCodesInAnHour(es: seq<Event>, phone: string, from: nat)
    requires Prompt(INIT, es, phone)
    ensures CodesIn(Exec(INIT, es).issued, phone, from, from + 3_600_000) <= 9
  {
    PromptIsClosed(INIT, es, phone, from);
    CodesInAnHour(es, phone, from);
  }
}
