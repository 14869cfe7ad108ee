/** Comparisons between two clears of the counter of month challenges: how many there can be. */
module AccountsLate {
  import opened Accounts
  import opened AccountsProofs
  import opened AccountsRuns
  import opened Collections

  /** The call was let through and has not compared months yet. */
  predicate Waits(p: Phase, user: int) {
    (p.First? || p.Admitted?) && p.user == user
  }

  ghost predicate NoneWaits(s: System, user: int) {
    forall id :: id in s.calls ==> !Waits(s.calls[id], user)
  }

  /** The comparisons of a user that `s'` has and `s` has not. */
  function Added(s: System, s': System, user: int): set<Comparison> {
    set c | c in s'.compared && c !in s.compared && c.user == user
  }

  // ---- without a call that waits

  /** From a state with `n` counters of the user so far, none of them live: what was let through and
      compared since belongs to later counters. */
  ghost predicate Since(s: System, user: int, n: nat, before: set<Comparison>) {
    && |LivesOf(s, user)| >= n
    && (|LivesOf(s, user)| == n ==> LiveCount(s.db, user) == 0)
    && (forall id :: id in s.calls && Waits(s.calls[id], user) ==> s.calls[id].life > n)
    && (forall c :: c in s.compared && c !in before && c.user == user ==> c.life > n)
  }

  lemma AttemptKeepsSince(s: System, id: nat, u: int, fingerprint: string, month: string, user: int, n: nat, before: set<Comparison>)
    requires Since(s, user, n, before) && (u in s.db.counters ==> s.db.counters[u].count >= 1)
    ensures Since(DoAttempt(s, id, u, fingerprint, month), user, n, before)
  {
  }

  lemma CompareKeepsSince(s: System, id: nat, p: Phase, user: int, n: nat, before: set<Comparison>)
    requires Since(s, user, n, before) && id in s.calls && s.calls[id] == p && p.Admitted?
    ensures Since(DoCompare(s, id, p.user, p.fingerprint, p.month, p.life), user, n, before)
  {
  }

  // Any other step lets nothing through, and makes no counter live.
  lemma QuietKeepsSince(s: System, s': System, user: int, n: nat, before: set<Comparison>)
    requires Since(s, user, n, before) && s'.lives == s.lives && s'.compared == s.compared
    requires LiveCount(s.db, user) == 0 ==> LiveCount(s'.db, user) == 0
    requires forall id :: id in s'.calls && Waits(s'.calls[id], user) ==>
               id in s.calls && Waits(s.calls[id], user) && s'.calls[id].life == s.calls[id].life
    ensures Since(s', user, n, before)
  {
  }

  lemma NextKeepsSince(s: System, id: nat, user: int, n: nat, before: set<Comparison>)
    requires Since(s, user, n, before) && id in s.calls && ChallengesOk(s)
    ensures Since(DoNext(s, id, s.calls[id]), user, n, before)
  {
    var p, s' := s.calls[id], DoNext(s, id, s.calls[id]);
    if p.Challenged? {
      assert LifeOk(s.db, p.user, LivesOf(s, p.user));
      AttemptKeepsSince(s, id, p.user, p.fingerprint, p.month, user, n, before);
    } else if p.Admitted? {
      CompareKeepsSince(s, id, p, user, n, before);
    } else {
      NextCountsNothing(s, id);
      NextKeepsTime(s, id);
      QuietKeepsSince(s, s', user, n, before);
    }
  }

  lemma NextKeepsTime(s: System, id: nat)
    requires id in s.calls && !s.calls[id].Challenged?
    ensures DoNext(s, id, s.calls[id]).db.now == s.db.now
  {
  }

  lemma ApplyKeepsSince(s: System, e: Event, user: int, n: nat, before: set<Comparison>)
    requires Since(s, user, n, before) && ChallengesOk(s)
    ensures Since(Apply(s, e), user, n, before)
  {
    if e.Next? {
      if e.id in s.calls { NextKeepsSince(s, e.id, user, n, before); }
    } else {
      OthersAreQuiet(s, e, user);
      QuietKeepsSince(s, Apply(s, e), user, n, before);
    }
  }

  lemma OthersAreQuiet(s: System, e: Event, user: int)
    requires !e.Next?
    ensures var s' := Apply(s, e);
            && s'.lives == s.lives && s'.compared == s.compared
            && (LiveCount(s.db, user) == 0 ==> LiveCount(s'.db, user) == 0)
            && forall id :: id in s'.calls && Waits(s'.calls[id], user) ==>
                 id in s.calls && Waits(s.calls[id], user) && s'.calls[id].life == s.calls[id].life
  {
  }

  lemma {:induction false} SinceKept(s: System, es: seq<Event>, user: int, n: nat, before: set<Comparison>)
    requires Since(s, user, n, before) && ChallengesOk(s)
    ensures Since(Exec(s, es), user, n, before) && ChallengesOk(Exec(s, es))
    decreases es
  {
    if es != [] {
      ApplyKeepsSince(s, es[0], user, n, before);
      ApplyKeepsChallenges(s, es[0]);
      SinceKept(Apply(s, es[0]), es[1..], user, n, before);
    }
  }

  lemma {:induction false} ByIds(cs: set<Comparison>, user: int, life: nat, ids: set<nat>)
    requires forall c :: c in cs ==> c.user == user && c.life == life && c.id in ids
    ensures |cs| <= |ids|
    decreases |cs|
  {
    if cs != {} {
      var c :| c in cs;
      forall d | d in cs - {c} ensures d.id in ids - {c.id} {
        assert d == Comparison(d.id, user, life) && c == Comparison(c.id, user, life);
      }
      ByIds(cs - {c}, user, life, ids - {c.id});
      Removed(ids, c.id);
    }
  }

  lemma NoWaitNoMore(s: System, es: seq<Event>, user: int)
    requires ChallengesOk(s) && LiveCount(s.db, user) == 0 && NoneWaits(s, user)
    requires |LivesOf(Exec(s, es), user)| <= |LivesOf(s, user)| + 1
    ensures |Added(s, Exec(s, es), user)| <= MAX_CHALLENGES
  {
    var n, s', cs := |LivesOf(s, user)|, Exec(s, es), Added(s, Exec(s, es), user);
    SinceKept(s, es, user, n, s.compared);
    if cs != {} {
      var lives := LivesOf(s', user);
      forall c | c in cs ensures c.life == n + 1 && IsIn(lives, c.id, n + 1) {
        assert IsIn(LivesOf(s', c.user), c.id, c.life);
      }
      var c :| c in cs;
      assert IsIn(lives, c.id, n + 1) && LifeOk(s'.db, user, lives);
      ByIds(cs, user, n + 1, lives[n]);
    }
  }

  // ---- with one

  /** A call compares months once, when it waits no more. */
  ghost predicate ComparedOnce(s: System) {
    forall c :: c in s.compared ==> c.id in s.calls && IsPast(s.calls[c.id])
  }

  lemma ApplyKeepsOnce(s: System, e: Event)
    requires ComparedOnce(s)
    ensures ComparedOnce(Apply(s, e))
  {
    var s' := Apply(s, e);
    if e.Next? && e.id in s.calls && s.calls[e.id].Admitted? {
      var p := s.calls[e.id];
      assert s' == DoCompare(s, e.id, p.user, p.fingerprint, p.month, p.life);
    } else {
      OthersCompareNothing(s, e);
    }
  }

  /** Past its entry and its EXPIRE, and not about to compare. */
  predicate IsPast(p: Phase) {
    !IsEntry(p) && !p.First? && !p.Admitted?
  }

  lemma NextStaysPast(s: System, id: nat)
    requires id in s.calls && IsPast(s.calls[id])
    ensures id in DoNext(s, id, s.calls[id]).calls && IsPast(DoNext(s, id, s.calls[id]).calls[id])
  {
  }

  lemma OthersCompareNothing(s: System, e: Event)
    requires !(e.Next? && e.id in s.calls && s.calls[e.id].Admitted?)
    ensures var s' := Apply(s, e);
            s'.compared == s.compared && forall id :: id in s.calls && IsPast(s.calls[id]) ==> id in s'.calls && IsPast(s'.calls[id])
  {
    if e.Next? && e.id in s.calls {
      NextMoves(s, e.id);
      if s.calls[e.id].Challenged? {
        assert Apply(s, e).compared == s.compared;
      } else {
        NextCountsNothing(s, e.id);
      }
      if IsPast(s.calls[e.id]) {
        NextStaysPast(s, e.id);
      }
    }
  }

  lemma {:induction false} OnceKept(s: System, es: seq<Event>)
    requires ComparedOnce(s)
    ensures ComparedOnce(Exec(s, es))
    decreases es
  {
    if es != [] {
      ApplyKeepsOnce(s, es[0]);
      OnceKept(Apply(s, es[0]), es[1..]);
    }
  }

  // A new call of the user is counted.
  function Enter(id: nat, user: int): seq<Event> {
    [Begin(id, Challenged(user, "", "")), Next(id), Open(id, true)]
  }

  function Entered(user: int, life: nat): Phase {
    Admitted(user, "", "", life)
  }

  /** The account exists, and its live counter stands at `count`. */
  predicate Stands(s: System, user: int, count: nat) {
    && user in s.db.users && LiveCount(s.db, user) == count
    && (user in s.db.counters ==> s.db.counters[user].count >= 1)
  }

  lemma EnterRuns(s: System, id: nat, user: int, count: nat)
    requires Stands(s, user, count) && count < MAX_CHALLENGES && id !in s.calls && (count > 0 ==> LivesOf(s, user) != [])
    ensures var s' := Exec(s, Enter(id, user));
            && Stands(s', user, count + 1) && s'.db.users == s.db.users && s'.compared == s.compared
            && s'.calls == s.calls[id := Entered(user, |LivesOf(s', user)|)]
            && |LivesOf(s', user)| == |LivesOf(s, user)| + (if count == 0 then 1 else 0)
  {
    var p := Challenged(user, "", "");
    ExecThree(s, Begin(id, p), Next(id), Open(id, true));
    var s1 := Apply(s, Begin(id, p));
    assert s1 == To(s, id, p) && LivesOf(s1, user) == LivesOf(s, user);
    var s2 := Apply(s1, Next(id));
    assert s2 == DoAttempt(s1, id, user, "", "");
    var s3 := Apply(s2, Open(id, true));
    if count == 0 {
      assert s2.calls[id] == First(user, "", "", |LivesOf(s2, user)|);
      assert s3 == DoOpen(s2, id, s2.calls[id], true);
    } else {
      assert s3 == s2;
    }
    assert s3.calls == s.calls[id := s3.calls[id]];
  }

  lemma CompareRuns(s: System, id: nat, user: int, life: nat)
    requires user in s.db.users && id in s.calls && s.calls[id].Admitted?
    requires s.calls[id].user == user && s.calls[id].life == life
    ensures var s' := Exec(s, [Next(id)]);
            && s'.db == s.db && s'.lives == s.lives && s'.compared == s.compared + {Comparison(id, user, life)}
            && id in s'.calls && s'.calls == s.calls[id := s'.calls[id]]
  {
    ExecOne(s, Next(id));
  }

  /** Three more calls are counted by one new counter. */
  function Three(id: nat, user: int): seq<Event> {
    Enter(id, user) + (Enter(id + 1, user) + Enter(id + 2, user))
  }

  lemma TwoEnter(s: System, id: nat, user: int)
    requires Stands(s, user, 1) && id !in s.calls && id + 1 !in s.calls && LivesOf(s, user) != []
    ensures var s', life := Exec(s, Enter(id, user) + Enter(id + 1, user)), |LivesOf(s, user)|;
            && Stands(s', user, 3) && s'.compared == s.compared && |LivesOf(s', user)| == life
            && s'.calls == s.calls[id := Entered(user, life)][id + 1 := Entered(user, life)]
  {
    ExecConcat(s, Enter(id, user), Enter(id + 1, user));
    EnterRuns(s, id, user, 1);
    EnterRuns(Exec(s, Enter(id, user)), id + 1, user, 2);
  }

  lemma ThreeEnter(s: System, id: nat, user: int)
    requires Stands(s, user, 0) && forall c :: c in s.calls ==> c < id
    ensures var s', life := Exec(s, Three(id, user)), |LivesOf(s, user)| + 1;
            && Stands(s', user, 3) && s'.compared == s.compared && |LivesOf(s', user)| == life
            && s'.calls == s.calls[id := Entered(user, life)][id + 1 := Entered(user, life)][id + 2 := Entered(user, life)]
  {
    ExecConcat(s, Enter(id, user), Enter(id + 1, user) + Enter(id + 2, user));
    EnterRuns(s, id, user, 0);
    TwoEnter(Exec(s, Enter(id, user)), id + 1, user);
  }

  /** And they compare, after the one that waits. */
  function Compares(c: nat, id: nat): seq<Event> {
    ([Next(c)] + [Next(id)]) + ([Next(id + 1)] + [Next(id + 2)])
  }

  predicate IsAdmitted(s: System, id: nat, user: int, life: nat) {
    id in s.calls && s.calls[id].Admitted? && s.calls[id].user == user && s.calls[id].life == life
  }

  lemma TwoCompare(s: System, a: nat, b: nat, user: int, la: nat, lb: nat)
    requires user in s.db.users && a != b && IsAdmitted(s, a, user, la) && IsAdmitted(s, b, user, lb)
    ensures var s' := Exec(s, [Next(a)] + [Next(b)]);
            && s'.db == s.db && s'.lives == s.lives
            && s'.compared == s.compared + {Comparison(a, user, la), Comparison(b, user, lb)}
            && forall id :: id in s.calls && id != a && id != b ==> id in s'.calls && s'.calls[id] == s.calls[id]
  {
    ExecConcat(s, [Next(a)], [Next(b)]);
    CompareRuns(s, a, user, la);
    CompareRuns(Exec(s, [Next(a)]), b, user, lb);
  }

  lemma FourCompare(s: System, c: nat, id: nat, user: int, earlier: nat, life: nat)
    requires user in s.db.users && c < id && IsAdmitted(s, c, user, earlier) && IsAdmitted(s, id, user, life)
    requires IsAdmitted(s, id + 1, user, life) && IsAdmitted(s, id + 2, user, life)
    ensures var s' := Exec(s, Compares(c, id));
            s'.lives == s.lives && s'.compared == s.compared + Four(c, id, user, earlier, life)
  {
    ExecConcat(s, [Next(c)] + [Next(id)], [Next(id + 1)] + [Next(id + 2)]);
    TwoCompare(s, c, id, user, earlier, life);
    TwoCompare(Exec(s, [Next(c)] + [Next(id)]), id + 1, id + 2, user, life, life);
  }

  function Four(c: nat, id: nat, user: int, earlier: nat, life: nat): set<Comparison> {
    {Comparison(c, user, earlier), Comparison(id, user, life), Comparison(id + 1, user, life), Comparison(id + 2, user, life)}
  }

  // The call that waits is past its EXPIRE.
  lemma Opened(s: System, c: nat, user: int)
    requires c in s.calls && Waits(s.calls[c], user) && LiveCount(s.db, user) == 0
    requires user in s.db.counters ==> s.db.counters[user].count >= 1
    ensures var s' := Exec(s, [Open(c, true)]);
            && s'.db == s.db && s'.lives == s.lives && s'.compared == s.compared
            && c in s'.calls && s'.calls == s.calls[c := s'.calls[c]]
            && s'.calls[c].Admitted? && s'.calls[c].user == user && s'.calls[c].life == s.calls[c].life
  {
    ExecOne(s, Open(c, true));
  }

  /** A call that waits makes four comparisons possible. */
  lemma LateCall(s: System, c: nat, user: int) returns (es: seq<Event>)
    requires ChallengesOk(s) && ComparedOnce(s) && user in s.db.users && LiveCount(s.db, user) == 0
    requires c in s.calls && Waits(s.calls[c], user)
    ensures var s' := Exec(s, es);
            |LivesOf(s', user)| == |LivesOf(s, user)| + 1 && |Added(s, s', user)| == 4
  {
    assert LifeOk(s.db, user, LivesOf(s, user));
    var id := Above(s.calls.Keys);
    var life := |LivesOf(s, user)| + 1;
    es := [Open(c, true)] + (Three(id, user) + Compares(c, id));
    ExecConcat(s, [Open(c, true)], Three(id, user) + Compares(c, id));
    Opened(s, c, user);
    var s1 := Exec(s, [Open(c, true)]);
    ExecConcat(s1, Three(id, user), Compares(c, id));
    ThreeEnter(s1, id, user);
    FourCompare(Exec(s1, Three(id, user)), c, id, user, s.calls[c].life, life);
    FourAreNew(s, Exec(s, es), c, id, user, s.calls[c].life, life);
  }

  lemma FourAreNew(s: System, s': System, c: nat, id: nat, user: int, earlier: nat, life: nat)
    requires ComparedOnce(s) && s'.compared == s.compared + Four(c, id, user, earlier, life)
    requires c in s.calls && Waits(s.calls[c], user) && forall d :: d in s.calls ==> d < id
    ensures |Added(s, s', user)| == 4
  {
    assert Added(s, s', user) == Four(c, id, user, earlier, life);
  }

  /** In a reachable state in which the counter of an account is clear: every continuation that begins
      at most one more counter makes at most three comparisons of that account, if and only if no call
      let through before still waits to compare. */
  lemma ThreeBetweenClearsIff(before: seq<Event>, user: int)
    requires var s := Exec(INIT, before); user in s.db.users && LiveCount(s.db, user) == 0
    ensures var s := Exec(INIT, before);
            && (NoneWaits(s, user) <==>
                  forall es :: |LivesOf(Exec(s, es), user)| <= |LivesOf(s, user)| + 1 ==>
                    |Added(s, Exec(s, es), user)| <= 3)
  {
    var s := Exec(INIT, before);
    ChallengesKept(INIT, before);
    OnceKept(INIT, before);
    if NoneWaits(s, user) {
      forall es | |LivesOf(Exec(s, es), user)| <= |LivesOf(s, user)| + 1 ensures |Added(s, Exec(s, es), user)| <= MAX_CHALLENGES {
        NoWaitNoMore(s, es, user);
      }
    } else {
      var c :| c in s.calls && Waits(s.calls[c], user);
      var es := LateCall(s, c, user);
    }
  }

  // ---- such a state is reachable

  const USER := 1

  // Two calls are counted, and the first of them succeeds and clears the counter.
  function Start(): seq<Event> {
    [Begin(0, SigningUp("phone", "")), Create(0, USER, "")] + (Enter(1, USER) + (Enter(2, USER) + [Next(1), Next(1)]))
  }

  lemma SignupRuns()
    ensures var s := Exec(INIT, [Begin(0, SigningUp("phone", "")), Create(0, USER, "")]);
            && Stands(s, USER, 0) && s.db.users[USER].month == "" && LivesOf(s, USER) == []
            && (forall id :: id in s.calls <==> id == 0)
  {
    ExecTwo(INIT, Begin(0, SigningUp("phone", "")), Create(0, USER, ""));
    var s1 := Apply(INIT, Begin(0, SigningUp("phone", "")));
    assert Apply(s1, Create(0, USER, "")) == DoCreate(s1, 0, "phone", "", USER, "");
  }

  lemma MatchAndClear(s: System)
    requires USER in s.db.users && s.db.users[USER].month == "" && 1 in s.calls && s.calls[1] == Entered(USER, 1)
    ensures var s' := Exec(s, [Next(1), Next(1)]);
            s'.db.users == s.db.users && USER !in s'.db.counters && forall id :: id in s.calls && id != 1 ==> id in s'.calls && s'.calls[id] == s.calls[id]
  {
    ExecTwo(s, Next(1), Next(1));
    var s1 := Apply(s, Next(1));
    assert s1.calls[1] == Matched(USER, "", "");
    assert Apply(s1, Next(1)) == DoReset(s1, 1, USER, "", "");
  }

  /** A run into a state with a clear counter and a call that still waits, and from there four
      comparisons before the next clear. */
  lemma LateComparisonsCanExceedThree() returns (es: seq<Event>)
    ensures var s, s' := Exec(INIT, Start()), Exec(INIT, Start() + es);
            && USER in s.db.users && USER !in s.db.counters && !NoneWaits(s, USER)
            && |LivesOf(s', USER)| == |LivesOf(s, USER)| + 1 && |Added(s, s', USER)| == 4
  {
    var signup := [Begin(0, SigningUp("phone", "")), Create(0, USER, "")];
    SignupRuns();
    var s0 := Exec(INIT, signup);
    ExecConcat(INIT, signup, Enter(1, USER) + (Enter(2, USER) + [Next(1), Next(1)]));
    ExecConcat(s0, Enter(1, USER), Enter(2, USER) + [Next(1), Next(1)]);
    EnterRuns(s0, 1, USER, 0);
    var s1 := Exec(s0, Enter(1, USER));
    ExecConcat(s1, Enter(2, USER), [Next(1), Next(1)]);
    EnterRuns(s1, 2, USER, 1);
    MatchAndClear(Exec(s1, Enter(2, USER)));
    var s := Exec(INIT, Start());
    ChallengesKept(INIT, Start());
    OnceKept(INIT, Start());
    assert Waits(s.calls[2], USER);
    es := LateCall(s, 2, USER);
    ExecConcat(INIT, Start(), es);
  }
}
