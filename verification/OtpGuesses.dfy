/** How often one issued code can be taken, and compared with. */
module OtpGuesses {
  import opened Collections
  import opened Decimal
  import opened OtpModel

  // ---- taking a code

  /** The hash of its phone still holds issue `k`. */
  predicate Stored(s: System, k: nat) {
    k < |s.issued| && IssueIn(s, s.issued[k].phone) == Some(k)
  }

  predicate Against(s: System, id: nat, k: nat) {
    id in s.against && s.against[id] == k
  }

  /** Call `id` is between its HGETALL and its DEL, and its guess was issue `k`. */
  predicate Holds(s: System, id: nat, k: nat) {
    id in s.calls && s.calls[id].Matched? && Against(s, id, k)
  }

  /** Call `id` succeeded with issue `k`. */
  predicate Took(s: System, id: nat, k: nat) {
    id in s.calls && s.calls[id] == Finished(Accepted) && Against(s, id, k)
  }

  predicate CallOk(s: System, id: nat)
    requires id in s.calls
  {
    (id in s.against ==> s.against[id] < |s.issued|)
    && (s.calls[id].Matched? && id in s.against ==> s.issued[s.against[id]].phone == s.calls[id].phone)
    && (s.calls[id] == Finished(Accepted) && id in s.against ==> !Stored(s, s.against[id]))
  }

  /** A code that was taken is no longer stored. */
  predicate TakenIsGone(s: System) {
    (forall id :: id in s.against ==> s.against[id] < |s.issued|) && forall id :: id in s.calls ==> CallOk(s, id)
  }

  lemma LastOfSnoc(issued: seq<Issued>, i: Issued, phone: string)
    ensures LastOf(issued + [i], phone) == if i.phone == phone then Some(|issued|) else LastOf(issued, phone)
  {
    assert (issued + [i])[..|issued|] == issued;
  }

  /** What is gone stays gone: only a new issue is ever stored. */
  lemma GoneStays(s: System, e: Event, k: nat)
    requires k < |s.issued| && !Stored(s, k)
    ensures var s' := Apply(s, e); k < |s'.issued| && s'.issued[k] == s.issued[k] && !Stored(s', k)
  {
    if e.Store? && e.id in s.calls && s.calls[e.id].Allowed? && e.n < 1_000_000 {
      var p := s.calls[e.id].phone;
      assert Apply(s, e) == DoStore(s, e.id, p, e.n);
      LastOfSnoc(s.issued, Issued(p, SixDigits(e.n), s.db.now), s.issued[k].phone);
    } else {
      OthersIssueNothing(s, e, s.issued[k].phone);
    }
  }

  // Any step but a Store leaves the codes in the hashes as they are, or takes them away.
  lemma OthersIssueNothing(s: System, e: Event, phone: string)
    requires !(e.Store? && e.id in s.calls && s.calls[e.id].Allowed? && e.n < 1_000_000)
    ensures var s' := Apply(s, e);
            s'.issued == s.issued && (IssueIn(s', phone) == IssueIn(s, phone) || IssueIn(s', phone) == None)
  {
  }

  lemma IssuesStay(s: System, e: Event)
    ensures var s' := Apply(s, e);
            |s.issued| <= |s'.issued| && forall k :: 0 <= k < |s.issued| ==> s'.issued[k] == s.issued[k]
  {
  }

  // What a step can do to the call that takes it.
  lemma MoverIsOk(s: System, id: nat, e: Event)
    requires TakenIsGone(s) && id in s.calls
    ensures var s' := Step(s, id, s.calls[id], e); id in s'.calls ==> CallOk(s', id)
  {
    assert CallOk(s, id);
  }

  lemma OthersStay(s: System, e: Event, id: nat)
    requires id in Apply(s, e).calls && (e.Tick? || e.id != id)
    ensures var s' := Apply(s, e);
            id in s.calls && s'.calls[id] == s.calls[id] && (id in s'.against <==> id in s.against)
            && (id in s.against ==> s'.against[id] == s.against[id])
  {
  }

  lemma AgainstIssues(s: System, e: Event, id: nat)
    requires TakenIsGone(s) && id in Apply(s, e).against
    ensures Apply(s, e).against[id] < |Apply(s, e).issued|
  {
    IssuesStay(s, e);
  }

  lemma ApplyKeepsTaken(s: System, e: Event)
    requires TakenIsGone(s)
    ensures TakenIsGone(Apply(s, e))
  {
    var s' := Apply(s, e);
    forall id | id in s'.against ensures s'.against[id] < |s'.issued| {
      AgainstIssues(s, e, id);
    }
    forall id | id in s'.calls ensures CallOk(s', id) {
      if !e.Tick? && e.id == id {
        NewOrMoved(s, e);
      } else {
        OthersStay(s, e, id);
        OtherIsOk(s, e, id);
      }
    }
  }

  lemma OtherIsOk(s: System, e: Event, id: nat)
    requires TakenIsGone(s) && id in s.calls && id in Apply(s, e).calls
    requires var s' := Apply(s, e);
             s'.calls[id] == s.calls[id] && (id in s'.against <==> id in s.against)
             && (id in s.against ==> s'.against[id] == s.against[id])
    ensures CallOk(Apply(s, e), id)
  {
    assert CallOk(s, id);
    IssuesStay(s, e);
    if id in s.against && s.calls[id] == Finished(Accepted) {
      GoneStays(s, e, s.against[id]);
    }
  }

  lemma NewOrMoved(s: System, e: Event)
    requires TakenIsGone(s) && !e.Tick? && e.id in Apply(s, e).calls
    ensures CallOk(Apply(s, e), e.id)
  {
    if e.Ask? || e.Guess? {
      if e.id in s.calls {
        assert CallOk(s, e.id);
      }
    } else {
      MoverIsOk(s, e.id, e);
    }
  }

  /** At some moment of the run both calls hold issue `k`. */
  predicate Meet(s: System, es: seq<Event>, c: nat, d: nat, k: nat)
    decreases es
  {
    (Holds(s, c, k) && Holds(s, d, k)) || (es != [] && Meet(Apply(s, es[0]), es[1..], c, d, k))
  }

  predicate Has(s: System, id: nat, k: nat) {
    Holds(s, id, k) || Took(s, id, k)
  }

  // Whoever gets hold of a code finds it stored; the other one has not taken it then.
  lemma FirstMeeting(s: System, e: Event, c: nat, d: nat, k: nat)
    requires TakenIsGone(s) && c != d && Has(Apply(s, e), c, k) && Has(Apply(s, e), d, k) && !Has(s, d, k)
    ensures Holds(Apply(s, e), c, k) && Holds(Apply(s, e), d, k)
  {
    var s' := Apply(s, e);
    if e.Tick? || e.id != d {
      OthersStay(s, e, d);
    }
    assert !e.Tick? && e.id == d && e.Read? && IssueIn(s, s.calls[d].phone) == Some(k);
    OthersStay(s, e, c);
    assert CallOk(s, c);
  }

  lemma {:induction false} TakersMeet(s: System, es: seq<Event>, c: nat, d: nat, k: nat)
    requires TakenIsGone(s) && c != d && !(Has(s, c, k) && Has(s, d, k))
    requires Took(Exec(s, es), c, k) && Took(Exec(s, es), d, k)
    ensures Meet(s, es, c, d, k)
    decreases es
  {
    if es != [] {
      var s' := Apply(s, es[0]);
      ApplyKeepsTaken(s, es[0]);
      if Has(s', c, k) && Has(s', d, k) {
        if !Has(s, d, k) {
          FirstMeeting(s, es[0], c, d, k);
        } else {
          FirstMeeting(s, es[0], d, c, k);
        }
      } else {
        TakersMeet(s', es[1..], c, d, k);
      }
    }
  }

  /** Two calls both succeed with one issued code only if at some moment both had read it and neither
      had deleted it. */
  lemma TwoSuccessesMeet(es: seq<Event>, c: nat, d: nat, k: nat)
    requires c != d && Took(Exec(INIT, es), c, k) && Took(Exec(INIT, es), d, k)
    ensures Meet(INIT, es, c, d, k)
  {
    TakersMeet(INIT, es, c, d, k);
  }

  /** And from any such moment both can succeed. */
  lemma MeetingSucceedsTwice(s: System, c: nat, d: nat, k: nat)
    requires c != d && Holds(s, c, k) && Holds(s, d, k)
    ensures Took(Exec(s, [Drop(c), Drop(d)]), c, k) && Took(Exec(s, [Drop(c), Drop(d)]), d, k)
  {
    var s1 := Apply(s, Drop(c));
    assert [Drop(c), Drop(d)][1..] == [Drop(d)] && [Drop(d)][1..] == [];
    assert Exec(s, [Drop(c), Drop(d)]) == Exec(s1, [Drop(d)]);
    assert Exec(s1, [Drop(d)]) == Apply(s1, Drop(d));
  }

  // ---- comparing with a code

  function Tries(guesses: seq<Guessed>, k: nat): nat {
    if guesses == [] then 0
    else Tries(guesses[..|guesses| - 1], k) + One(guesses[|guesses| - 1].issue == Some(k))
  }

  lemma TriesSnoc(guesses: seq<Guessed>, g: Guessed, k: nat)
    ensures Tries(guesses + [g], k) == Tries(guesses, k) + One(g.issue == Some(k))
  {
    assert (guesses + [g])[..|guesses|] == guesses;
  }

  lemma {:induction false} NoTries(guesses: seq<Guessed>, k: nat)
    requires forall i :: 0 <= i < |guesses| ==> guesses[i].issue != Some(k)
    ensures Tries(guesses, k) == 0
  {
    if guesses != [] {
      NoTries(guesses[..|guesses| - 1], k);
    }
  }

  /** Between its HGETALL and its last command. */
  predicate IsBusy(p: Phase, phone: string) {
    (p.Mistaken? || p.Exhausted? || p.Matched?) && p.phone == phone
  }

  predicate Busy(s: System, id: nat, phone: string) {
    id in s.calls && IsBusy(s.calls[id], phone)
  }

  predicate Idle(s: System, phone: string) {
    forall id :: id in s.calls ==> !IsBusy(s.calls[id], phone)
  }

  /** No Verify call reads the hash of the phone while another one is busy, and none fails while it is. */
  predicate Exclusive(s: System, es: seq<Event>, phone: string)
    decreases es
  {
    es == [] || (Alone(s, es[0], phone) && Exclusive(Apply(s, es[0]), es[1..], phone))
  }

  predicate Alone(s: System, e: Event, phone: string) {
    Apart(s, e, phone) && (e.Stop? ==> !Busy(s, e.id, phone))
  }

  predicate Apart(s: System, e: Event, phone: string) {
    e.Read? && e.id in s.calls && s.calls[e.id].Guessing? && s.calls[e.id].phone == phone ==> Idle(s, phone)
  }

  /** The same, but a command of a busy call may fail: HINCRBY's error ends the call, the error of the
      DEL after the fifth failure is ignored. */
  predicate NoOverlap(s: System, es: seq<Event>, phone: string)
    decreases es
  {
    es == [] || (Apart(s, es[0], phone) && NoOverlap(Apply(s, es[0]), es[1..], phone))
  }

  /** A comparison is made and not counted yet; all are counted, and the hash is to go. */
  predicate Uncounted(s: System, phone: string) {
    exists id :: id in s.calls && (s.calls[id].Mistaken? || s.calls[id].Matched?) && s.calls[id].phone == phone
  }

  predicate Used(s: System, phone: string) {
    exists id :: id in s.calls && s.calls[id].Exhausted? && s.calls[id].phone == phone
  }

  ghost predicate OneBusy(s: System, phone: string) {
    forall c, d :: Busy(s, c, phone) && Busy(s, d, phone) ==> c == d
  }

  predicate GuessesOk(s: System) {
    forall i :: 0 <= i < |s.guesses| && s.guesses[i].issue.Some? ==>
      s.guesses[i].issue.value < |s.issued| && s.issued[s.guesses[i].issue.value].phone == s.guesses[i].phone
  }

  /** How many more wrong guesses a hash allows one after the other: even a used-up one allows the next. */
  function Left(attempts: nat): nat {
    if attempts < MAX_ATTEMPTS then MAX_ATTEMPTS - attempts else 1
  }

  /** What a hash has seen and what it still allows stay within the cap. */
  predicate HashCounts(s: System, phone: string) {
    IssueIn(s, phone).Some? ==>
      Tries(s.guesses, IssueIn(s, phone).value) + (if Used(s, phone) then 0 else Left(s.db.hashes[phone].attempts))
        <= MAX_ATTEMPTS + One(Uncounted(s, phone))
  }

  predicate Capped(s: System, phone: string, k: nat) {
    k < |s.issued| && s.issued[k].phone == phone ==> Tries(s.guesses, k) <= MAX_ATTEMPTS
  }

  ghost predicate CapOk(s: System, phone: string, k: nat) {
    OneBusy(s, phone) && GuessesOk(s) && HashCounts(s, phone) && Capped(s, phone, k)
  }

  // A step of another phone, or one that does not touch hash, guesses or busy calls.
  lemma FrameKeepsCap(s: System, s': System, phone: string, k: nat)
    requires CapOk(s, phone, k) && GuessesOk(s')
    requires forall id :: Busy(s', id, phone) <==> Busy(s, id, phone)
    requires forall id :: Busy(s, id, phone) ==> id in s'.calls && s'.calls[id] == s.calls[id]
    requires IssueIn(s', phone) == IssueIn(s, phone)
    requires IssueIn(s, phone).Some? ==> s'.db.hashes[phone] == s.db.hashes[phone]
    requires forall j: nat :: j < |s'.issued| && s'.issued[j].phone == phone ==>
               j < |s.issued| && s.issued[j].phone == phone && Tries(s'.guesses, j) == Tries(s.guesses, j)
    ensures CapOk(s', phone, k)
  {
    assert Uncounted(s', phone) ==> Uncounted(s, phone);
    assert Uncounted(s, phone) ==> Uncounted(s', phone) by {
      if Uncounted(s, phone) {
        var id :| id in s.calls && (s.calls[id].Mistaken? || s.calls[id].Matched?) && s.calls[id].phone == phone;
        assert Busy(s, id, phone);
      }
    }
    assert Used(s, phone) <==> Used(s', phone) by {
      if Used(s, phone) {
        var id :| id in s.calls && s.calls[id].Exhausted? && s.calls[id].phone == phone;
        assert Busy(s, id, phone);
      }
      if Used(s', phone) {
        var id :| id in s'.calls && s'.calls[id].Exhausted? && s'.calls[id].phone == phone;
        assert Busy(s', id, phone);
      }
    }
  }

  lemma ReadKeepsCap(s: System, id: nat, phone: string, code: string, k: nat)
    requires CapOk(s, phone, k) && Idle(s, phone) && id in s.calls && s.calls[id] == Guessing(phone, code)
    ensures CapOk(DoRead(s, id, phone, code), phone, k)
  {
    var s' := DoRead(s, id, phone, code);
    if s.db.HasHash(phone) {
      var g := Guessed(phone, IssueIn(s, phone), CodeOf(s.db.hashes[phone]) == code);
      assert s'.calls[id].phone == phone && Uncounted(s', phone);
      forall j: nat ensures Tries(s'.guesses, j) == Tries(s.guesses, j) + One(g.issue == Some(j)) {
        TriesSnoc(s.guesses, g, j);
      }
      assert IssueIn(s', phone) == IssueIn(s, phone);
    } else {
      FrameKeepsCap(s, s', phone, k);
    }
  }

  lemma MissKeepsCap(s: System, id: nat, phone: string, k: nat)
    requires CapOk(s, phone, k) && id in s.calls && s.calls[id] == Mistaken(phone)
    ensures CapOk(DoMiss(s, id, phone), phone, k)
  {
    var s' := DoMiss(s, id, phone);
    assert Busy(s, id, phone);
    forall c | Busy(s', c, phone) ensures c == id {
      assert Busy(s, c, phone);
    }
    assert !Used(s, phone) by {
      if Used(s, phone) {
        var c :| c in s.calls && s.calls[c].Exhausted? && s.calls[c].phone == phone;
        assert Busy(s, c, phone);
      }
    }
    assert s'.calls[id].Exhausted? ==> Used(s', phone);
  }

  lemma DropKeepsCap(s: System, id: nat, phone: string, o: Outcome, k: nat)
    requires CapOk(s, phone, k) && Busy(s, id, phone)
    ensures CapOk(DoDrop(s, id, phone, o), phone, k)
  {
    var s' := DoDrop(s, id, phone, o);
    forall c | Busy(s', c, phone) ensures c == id {
      assert Busy(s, c, phone);
    }
    assert IssueIn(s', phone) == None;
  }

  lemma StoreKeepsCap(s: System, id: nat, phone: string, n: nat, k: nat)
    requires CapOk(s, phone, k) && id in s.calls && s.calls[id] == Allowed(phone) && n < 1_000_000
    ensures CapOk(DoStore(s, id, phone, n), phone, k)
  {
    var s', added := DoStore(s, id, phone, n), |s.issued|;
    LastOfSnoc(s.issued, Issued(phone, SixDigits(n), s.db.now), phone);
    forall i | 0 <= i < |s.guesses| ensures s.guesses[i].issue != Some(added) {
      assert s.guesses[i].issue.Some? ==> s.guesses[i].issue.value < added;
    }
    NoTries(s.guesses, added);
    forall c, d | Busy(s', c, phone) && Busy(s', d, phone) ensures c == d {
      assert Busy(s, c, phone) && Busy(s, d, phone);
    }
  }

  lemma StoreElsewhere(s: System, id: nat, q: string, n: nat, phone: string, k: nat)
    requires CapOk(s, phone, k) && id in s.calls && s.calls[id] == Allowed(q) && n < 1_000_000 && q != phone
    ensures CapOk(DoStore(s, id, q, n), phone, k)
  {
    LastOfSnoc(s.issued, Issued(q, SixDigits(n), s.db.now), phone);
    FrameKeepsCap(s, DoStore(s, id, q, n), phone, k);
  }

  lemma ReadElsewhere(s: System, id: nat, q: string, code: string, phone: string, k: nat)
    requires CapOk(s, phone, k) && id in s.calls && s.calls[id] == Guessing(q, code) && q != phone
    ensures CapOk(DoRead(s, id, q, code), phone, k)
  {
    var s' := DoRead(s, id, q, code);
    if s.db.HasHash(q) {
      var g := Guessed(q, IssueIn(s, q), CodeOf(s.db.hashes[q]) == code);
      forall j: nat | j < |s.issued| && s.issued[j].phone == phone ensures Tries(s'.guesses, j) == Tries(s.guesses, j) {
        TriesSnoc(s.guesses, g, j);
      }
    }
    FrameKeepsCap(s, s', phone, k);
  }

  lemma RestKeepsCap(s: System, e: Event, phone: string, k: nat)
    requires CapOk(s, phone, k) && Alone(s, e, phone) && !e.Read? && !e.Miss? && !e.Drop? && !e.Store?
    ensures CapOk(Apply(s, e), phone, k)
  {
    RestTouchesNoHash(s, e);
    FrameKeepsCap(s, Apply(s, e), phone, k);
  }

  lemma RestTouchesNoHash(s: System, e: Event)
    requires !e.Read? && !e.Miss? && !e.Drop? && !e.Store?
    ensures var s' := Apply(s, e); s'.guesses == s.guesses && s'.issued == s.issued && s'.db.hashes == s.db.hashes
  {
  }

  lemma MissElsewhere(s: System, id: nat, q: string, phone: string, k: nat)
    requires CapOk(s, phone, k) && id in s.calls && s.calls[id] == Mistaken(q) && q != phone
    ensures CapOk(DoMiss(s, id, q), phone, k)
  {
    FrameKeepsCap(s, DoMiss(s, id, q), phone, k);
  }

  lemma DropElsewhere(s: System, id: nat, q: string, o: Outcome, phone: string, k: nat)
    requires CapOk(s, phone, k) && Busy(s, id, q) && q != phone
    ensures CapOk(DoDrop(s, id, q, o), phone, k)
  {
    FrameKeepsCap(s, DoDrop(s, id, q, o), phone, k);
  }

  lemma ApplyKeepsCap(s: System, e: Event, phone: string, k: nat)
    requires CapOk(s, phone, k) && Alone(s, e, phone)
    ensures CapOk(Apply(s, e), phone, k)
  {
    match e
    case Read(id) =>
      if id in s.calls && s.calls[id].Guessing? {
        if s.calls[id].phone == phone {
          ReadKeepsCap(s, id, phone, s.calls[id].code, k);
        } else {
          ReadElsewhere(s, id, s.calls[id].phone, s.calls[id].code, phone, k);
        }
      }
    case Store(id, n) =>
      if id in s.calls && s.calls[id].Allowed? && n < 1_000_000 {
        if s.calls[id].phone == phone {
          StoreKeepsCap(s, id, phone, n, k);
        } else {
          StoreElsewhere(s, id, s.calls[id].phone, n, phone, k);
        }
      }
    case Miss(id) => MissOrDropKeepsCap(s, e, phone, k);
    case Drop(id) => MissOrDropKeepsCap(s, e, phone, k);
    case _ => RestKeepsCap(s, e, phone, k);
  }

  lemma MissOrDropKeepsCap(s: System, e: Event, phone: string, k: nat)
    requires CapOk(s, phone, k) && (e.Miss? || e.Drop?)
    ensures CapOk(Apply(s, e), phone, k)
  {
    if e.id in s.calls {
      var p := s.calls[e.id];
      if e.Miss? && p.Mistaken? {
        if p.phone == phone {
          MissKeepsCap(s, e.id, phone, k);
        } else {
          MissElsewhere(s, e.id, p.phone, phone, k);
        }
      } else if e.Drop? && (p.Exhausted? || p.Matched?) {
        var o := if p.Matched? then Accepted else TooManyAttempts;
        if p.phone == phone {
          DropKeepsCap(s, e.id, phone, o, k);
        } else {
          DropElsewhere(s, e.id, p.phone, o, phone, k);
        }
      }
    }
  }

  lemma {:induction false} CapKept(s: System, es: seq<Event>, phone: string, k: nat)
    requires CapOk(s, phone, k) && Exclusive(s, es, phone)
    ensures CapOk(Exec(s, es), phone, k)
    decreases es
  {
    if es != [] {
      ApplyKeepsCap(s, es[0], phone, k);
      CapKept(Apply(s, es[0]), es[1..], phone, k);
    }
  }

  /** When the Verify calls of a phone exclude one another, from their HGETALL to their last command, and
      none fails in between, each code issued to it is compared with at most five times, whatever else
      goes on: other phones, requests, time passing. */
  lemma ExclusiveGuessesAreBounded(es: seq<Event>, phone: string, k: nat)
    requires Exclusive(INIT, es, phone)
    requires k < |Exec(INIT, es).issued| && Exec(INIT, es).issued[k].phone == phone
    ensures Tries(Exec(INIT, es).guesses, k) <= 5
  {
    CapKept(INIT, es, phone, k);
  }

  lemma BusyComesFrom(s: System, e: Event, phone: string, c: nat)
    requires Apart(s, e, phone) && Busy(Apply(s, e), c, phone)
    ensures Busy(s, c, phone) || (e.Read? && e.id == c && Idle(s, phone))
  {
  }

  lemma ApplyKeepsOneBusy(s: System, e: Event, phone: string)
    requires OneBusy(s, phone) && Apart(s, e, phone)
    ensures OneBusy(Apply(s, e), phone)
  {
    forall c, d | Busy(Apply(s, e), c, phone) && Busy(Apply(s, e), d, phone) ensures c == d {
      BusyComesFrom(s, e, phone, c);
      BusyComesFrom(s, e, phone, d);
    }
  }

  lemma {:induction false} NeverMeet(s: System, es: seq<Event>, phone: string, c: nat, d: nat, k: nat)
    requires c != d && OneBusy(s, phone) && TakenIsGone(s) && NoOverlap(s, es, phone)
    requires k < |Exec(s, es).issued| && Exec(s, es).issued[k].phone == phone
    ensures !Meet(s, es, c, d, k)
    decreases es
  {
    if Holds(s, c, k) && Holds(s, d, k) {
      assert CallOk(s, c) && CallOk(s, d);
      IssueStays(s, es, k);
      assert Busy(s, c, phone) && Busy(s, d, phone);
      assert false;
    } else if es != [] {
      ApplyKeepsOneBusy(s, es[0], phone);
      ApplyKeepsTaken(s, es[0]);
      NeverMeet(Apply(s, es[0]), es[1..], phone, c, d, k);
    }
  }

  lemma {:induction false} IssueStays(s: System, es: seq<Event>, k: nat)
    requires k < |s.issued|
    ensures k < |Exec(s, es).issued| && Exec(s, es).issued[k] == s.issued[k]
    decreases es
  {
    if es != [] {
      IssuesStay(s, es[0]);
      IssueStays(Apply(s, es[0]), es[1..], k);
    }
  }

  /** When the Verify calls of a phone do not overlap, whether or not their commands fail, each code
      issued to it succeeds at most once. */
  lemma SeparateCodesAreSingleUse(es: seq<Event>, phone: string, c: nat, d: nat, k: nat)
    requires NoOverlap(INIT, es, phone) && c != d
    requires k < |Exec(INIT, es).issued| && Exec(INIT, es).issued[k].phone == phone
    ensures !(Took(Exec(INIT, es), c, k) && Took(Exec(INIT, es), d, k))
  {
    NeverMeet(INIT, es, phone, c, d, k);
    if Took(Exec(INIT, es), c, k) && Took(Exec(INIT, es), d, k) {
      TwoSuccessesMeet(es, c, d, k);
    }
  }

  // ---- the cap is exact

  lemma {:induction false} ExclusiveConcat(s: System, a: seq<Event>, b: seq<Event>, phone: string)
    requires Exclusive(s, a, phone) && Exclusive(Exec(s, a), b, phone)
    ensures Exclusive(s, a + b, phone) && Exec(s, a + b) == Exec(Exec(s, a), b)
    decreases a
  {
    if a == [] {
      assert a + b == b;
    } else {
      assert (a + b)[0] == a[0] && (a + b)[1..] == a[1..] + b;
      ExclusiveConcat(Apply(s, a[0]), a[1..], b, phone);
    }
  }

  /** The hash holds issue `k`, unexpired, and no Verify call of the phone is busy. */
  predicate Guessable(s: System, phone: string, k: nat) {
    Idle(s, phone) && s.db.HasHash(phone) && IssueIn(s, phone) == Some(k)
  }

  function Wrong(id: nat, phone: string, guess: string): seq<Event> {
    [Guess(id, phone, guess)] + ([Read(id)] + [Miss(id)])
  }

  lemma ExecOne(s: System, e: Event)
    ensures Exec(s, [e]) == Apply(s, e)
  {
    assert [e][1..] == [];
    assert Exec(Apply(s, e), []) == Apply(s, e);
  }

  lemma ExclusiveOne(s: System, e: Event, phone: string)
    requires Alone(s, e, phone)
    ensures Exclusive(s, [e], phone)
  {
    assert [e][1..] == [];
    assert Exclusive(Apply(s, e), [], phone);
  }

  // One more wrong guess is compared.
  lemma WrongRead(s: System, id: nat, phone: string, guess: string, k: nat)
    requires Guessable(s, phone, k) && CodeOf(s.db.hashes[phone]) != guess && id !in s.calls
    ensures var es := [Guess(id, phone, guess)] + [Read(id)];
            var s' := Exec(s, es);
            && Exclusive(s, es, phone) && s'.db == s.db && s'.issued == s.issued
            && s'.calls == s.calls[id := Mistaken(phone)] && Tries(s'.guesses, k) == Tries(s.guesses, k) + 1
  {
    var s1 := Apply(s, Guess(id, phone, guess));
    assert s1 == To(s, id, Guessing(phone, guess));
    ExecOne(s, Guess(id, phone, guess));
    ExclusiveOne(s, Guess(id, phone, guess), phone);
    ExecOne(s1, Read(id));
    ExclusiveOne(s1, Read(id), phone);
    ExclusiveConcat(s, [Guess(id, phone, guess)], [Read(id)], phone);
    assert Apply(s1, Read(id)) == DoRead(s1, id, phone, guess);
    assert s1.calls[id := Mistaken(phone)] == s.calls[id := Mistaken(phone)];
    TriesSnoc(s.guesses, Guessed(phone, Some(k), false), k);
  }

  // And counted.
  lemma WrongGuess(s: System, id: nat, phone: string, guess: string, k: nat)
    requires Guessable(s, phone, k) && CodeOf(s.db.hashes[phone]) != guess && id !in s.calls
    requires s.db.hashes[phone].attempts + 1 < MAX_ATTEMPTS
    ensures var s' := Exec(s, Wrong(id, phone, guess));
            && Exclusive(s, Wrong(id, phone, guess), phone)
            && Guessable(s', phone, k) && CodeOf(s'.db.hashes[phone]) != guess
            && s'.db.hashes[phone].attempts == s.db.hashes[phone].attempts + 1
            && Tries(s'.guesses, k) == Tries(s.guesses, k) + 1 && s'.calls.Keys == s.calls.Keys + {id}
  {
    WrongRead(s, id, phone, guess, k);
    var es := [Guess(id, phone, guess)] + [Read(id)];
    var s2 := Exec(s, es);
    ExecOne(s2, Miss(id));
    ExclusiveOne(s2, Miss(id), phone);
    ExclusiveConcat(s, es, [Miss(id)], phone);
    assert Wrong(id, phone, guess) == es + [Miss(id)];
    assert Apply(s2, Miss(id)) == DoMiss(s2, id, phone);
  }

  // Wrong guesses one after the other, until the comparisons are more than five.
  lemma {:induction false} GuessOn(s: System, id: nat, phone: string, guess: string, k: nat) returns (es: seq<Event>)
    requires Guessable(s, phone, k) && CodeOf(s.db.hashes[phone]) != guess && forall c :: c in s.calls ==> c < id
    requires Tries(s.guesses, k) + Left(s.db.hashes[phone].attempts) > MAX_ATTEMPTS
    ensures Exclusive(s, es, phone) && Tries(Exec(s, es).guesses, k) > MAX_ATTEMPTS
    decreases Left(s.db.hashes[phone].attempts)
  {
    if s.db.hashes[phone].attempts + 1 >= MAX_ATTEMPTS {
      WrongRead(s, id, phone, guess, k);
      es := [Guess(id, phone, guess)] + [Read(id)];
    } else {
      WrongGuess(s, id, phone, guess, k);
      var rest := GuessOn(Exec(s, Wrong(id, phone, guess)), id + 1, phone, guess, k);
      es := Wrong(id, phone, guess) + rest;
      ExclusiveConcat(s, Wrong(id, phone, guess), rest, phone);
    }
  }

  /** From any state in which a code is stored and no Verify call of its phone is busy, Verify calls that
      exclude one another and do not fail keep the cap of five if and only if the comparisons made so far
      and the wrong guesses the hash still allows are at most five: an overlap or a failure that left a
      comparison uncounted breaks it, and so does a hash whose DEL failed. */
  lemma CapHoldsIff(s: System, phone: string, k: nat)
    requires Guessable(s, phone, k) && GuessesOk(s)
    ensures (forall es :: Exclusive(s, es, phone) ==> Tries(Exec(s, es).guesses, k) <= 5)
       <==> Tries(s.guesses, k) + (if s.db.hashes[phone].attempts < 5 then 5 - s.db.hashes[phone].attempts else 1) <= 5
  {
    if Tries(s.guesses, k) + Left(s.db.hashes[phone].attempts) <= MAX_ATTEMPTS {
      forall es | Exclusive(s, es, phone) ensures Tries(Exec(s, es).guesses, k) <= 5 {
        CapKept(s, es, phone, k);
        IssueStays(s, es, k);
      }
    } else {
      var id := Above(s.calls.Keys);
      var code := CodeOf(s.db.hashes[phone]);
      assert |code + "0"| != |code|;
      var es := GuessOn(s, id, phone, code + "0", k);
    }
  }

  // ---- failing commands

  lemma {:induction false} NoOverlapConcat(s: System, a: seq<Event>, b: seq<Event>, phone: string)
    requires NoOverlap(s, a, phone) && NoOverlap(Exec(s, a), b, phone)
    ensures NoOverlap(s, a + b, phone) && Exec(s, a + b) == Exec(Exec(s, a), b)
    decreases a
  {
    if a == [] {
      assert a + b == b;
    } else {
      assert (a + b)[0] == a[0] && (a + b)[1..] == a[1..] + b;
      NoOverlapConcat(Apply(s, a[0]), a[1..], b, phone);
    }
  }

  lemma {:induction false} ExclusiveIsNoOverlap(s: System, es: seq<Event>, phone: string)
    requires Exclusive(s, es, phone)
    ensures NoOverlap(s, es, phone)
    decreases es
  {
    if es != [] {
      ExclusiveIsNoOverlap(Apply(s, es[0]), es[1..], phone);
    }
  }

  /** Wrong guesses one after the other, each counted; a DEL that is due fails. */
  function Undeleted(n: nat, id: nat, phone: string, guess: string): seq<Event> {
    if n == 0 then [] else Undeleted(n - 1, id, phone, guess) + (Wrong(id + n, phone, guess) + [Stop(id + n)])
  }

  /** `n` wrong guesses on, all of them counted, and the code still stored. */
  predicate Later(s: System, s': System, n: nat, phone: string, guess: string, k: nat)
    requires phone in s.db.hashes
  {
    && Guessable(s', phone, k) && CodeOf(s'.db.hashes[phone]) != guess && s'.issued == s.issued
    && s'.db.hashes[phone] == s.db.hashes[phone].(attempts := s.db.hashes[phone].attempts + n)
    && Tries(s'.guesses, k) == Tries(s.guesses, k) + n
  }

  lemma OneLater(s: System, s1: System, s2: System, n: nat, phone: string, guess: string, k: nat)
    requires phone in s.db.hashes && Later(s, s1, n, phone, guess, k) && Later(s1, s2, 1, phone, guess, k)
    ensures Later(s, s2, n + 1, phone, guess, k)
  {
  }

  lemma OneUndeleted(s: System, id: nat, phone: string, guess: string, k: nat)
    requires Guessable(s, phone, k) && CodeOf(s.db.hashes[phone]) != guess && id !in s.calls
    ensures var es := Wrong(id, phone, guess) + [Stop(id)];
            var s' := Exec(s, es);
            NoOverlap(s, es, phone) && Later(s, s', 1, phone, guess, k) && s'.calls.Keys <= s.calls.Keys + {id}
  {
    WrongRead(s, id, phone, guess, k);
    var es := [Guess(id, phone, guess)] + [Read(id)];
    ExclusiveIsNoOverlap(s, es, phone);
    MissThenStop(Exec(s, es), id, phone, k);
    NoOverlapConcat(s, es, [Miss(id)] + [Stop(id)], phone);
    assert Wrong(id, phone, guess) + [Stop(id)] == es + ([Miss(id)] + [Stop(id)]);
  }

  lemma MissThenStop(s: System, id: nat, phone: string, k: nat)
    requires s.db.HasHash(phone) && IssueIn(s, phone) == Some(k) && id in s.calls && s.calls[id] == Mistaken(phone)
    requires forall c :: Busy(s, c, phone) ==> c == id
    ensures var es := [Miss(id)] + [Stop(id)];
            var s' := Exec(s, es);
            && NoOverlap(s, es, phone) && Guessable(s', phone, k) && s'.calls.Keys <= s.calls.Keys
            && s'.issued == s.issued && s'.guesses == s.guesses
            && s'.db.hashes[phone] == s.db.hashes[phone].(attempts := s.db.hashes[phone].attempts + 1)
  {
    var s1 := Apply(s, Miss(id));
    assert s1 == DoMiss(s, id, phone);
    var s2 := Apply(s1, Stop(id));
    assert [Miss(id)] + [Stop(id)] == [Miss(id), Stop(id)] && [Miss(id), Stop(id)][1..] == [Stop(id)];
    ExecOne(s1, Stop(id));
    assert [Stop(id)][1..] == [] && NoOverlap(s2, [], phone);
    assert NoOverlap(s1, [Stop(id)], phone);
    forall c | c in s2.calls ensures !IsBusy(s2.calls[c], phone) {
      assert c != id ==> s2.calls[c] == s.calls[c] && !Busy(s, c, phone);
    }
  }

  lemma {:induction false} UndeletedRuns(s: System, n: nat, id: nat, phone: string, guess: string, k: nat)
    requires Guessable(s, phone, k) && CodeOf(s.db.hashes[phone]) != guess && forall c :: c in s.calls ==> c <= id
    ensures var s' := Exec(s, Undeleted(n, id, phone, guess));
            && NoOverlap(s, Undeleted(n, id, phone, guess), phone)
            && Later(s, s', n, phone, guess, k) && (forall c :: c in s'.calls ==> c <= id + n)
  {
    if n > 0 {
      UndeletedRuns(s, n - 1, id, phone, guess, k);
      var s1 := Exec(s, Undeleted(n - 1, id, phone, guess));
      OneUndeleted(s1, id + n, phone, guess, k);
      OneLater(s, s1, Exec(s1, Wrong(id + n, phone, guess) + [Stop(id + n)]), n - 1, phone, guess, k);
      NoOverlapConcat(s, Undeleted(n - 1, id, phone, guess), Wrong(id + n, phone, guess) + [Stop(id + n)], phone);
    }
  }
}
