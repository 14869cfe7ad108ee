/** What every run of the login flows keeps. */
module AccountsProofs {
  import opened Collections
  import opened Accounts

  // ---- where devices come from

  /** Each registration has its reason: the signup of that user, a reactivation from a status that
      allows it, or the creation month of that account. */
  predicate OriginOk(db: Db, r: Registration) {
    && r.device.user in db.users
    && match r.origin
       case BySignup(phone) => phone in db.phones && db.phones[phone] == r.device.user
       case ByReactivation(from) => from == Pending || from == Dormant || from == Suspended
       case ByMonth(month) => db.users[r.device.user].month == month
  }

  predicate OriginsOk(s: System) {
    forall i :: 0 <= i < |s.registered| ==> OriginOk(s.db, s.registered[i])
  }

  ghost predicate DevicesOk(s: System) {
    forall d :: d in s.db.devices <==> exists i :: 0 <= i < |s.registered| && s.registered[i].device == d
  }

  /** What a call already knows when it comes to register its device. */
  predicate PhaseOk(db: Db, p: Phase) {
    match p
    case KnownDevice(user, fingerprint) => Device(user, fingerprint) in db.devices
    case SignedUp(user, phone, _) => user in db.users && phone in db.phones && db.phones[phone] == user
    case Allowed(user, _, from) => user in db.users && CanTransition(from, Active)
    case Reactivated(user, _, from) => user in db.users && CanTransition(from, Active)
    case Matched(user, _, month) => user in db.users && db.users[user].month == month
    case Cleared(user, _, month) => user in db.users && db.users[user].month == month
    case _ => true
  }

  predicate CallsOk(s: System) {
    forall id :: id in s.calls ==> PhaseOk(s.db, s.calls[id])
  }

  predicate KeysOk(db: Db) {
    forall phone :: phone in db.phones ==> db.phones[phone] in db.users
  }

  ghost predicate Inv(s: System) {
    OriginsOk(s) && DevicesOk(s) && CallsOk(s) && KeysOk(s.db)
  }

  /** Accounts are never removed, and keep their month; credentials and devices stay. */
  ghost predicate Extends(a: Db, b: Db) {
    && (forall u :: u in a.users ==> u in b.users && b.users[u].month == a.users[u].month)
    && (forall p :: p in a.phones ==> p in b.phones && b.phones[p] == a.phones[p])
    && a.devices <= b.devices
  }

  lemma ExtensionKeeps(s: System, s': System, id: nat, p: Phase)
    requires Inv(s) && Extends(s.db, s'.db) && KeysOk(s'.db)
    requires s'.db.devices == s.db.devices && s'.registered == s.registered
    requires s'.calls == s.calls[id := p] && PhaseOk(s'.db, p)
    ensures Inv(s')
  {
    forall i | 0 <= i < |s'.registered| ensures OriginOk(s'.db, s'.registered[i]) {
      assert OriginOk(s.db, s.registered[i]);
    }
    forall k | k in s'.calls ensures PhaseOk(s'.db, s'.calls[k]) {
      if k != id {
        assert PhaseOk(s.db, s.calls[k]);
      }
    }
  }

  lemma RegisterKeeps(s: System, id: nat, user: int, fingerprint: string, origin: Origin)
    requires Inv(s) && OriginOk(s.db, Registration(Device(user, fingerprint), origin))
    ensures Inv(DoRegister(s, id, user, fingerprint, origin))
  {
    var s' := DoRegister(s, id, user, fingerprint, origin);
    if fingerprint == "" {
      assert s'.registered == s.registered;
      ExtensionKeeps(s, s', id, Done(Tokens(user)));
    } else {
      RegisterLogs(s, s', Registration(Device(user, fingerprint), origin));
      forall k | k in s'.calls ensures PhaseOk(s'.db, s'.calls[k]) {
        if k != id {
          assert PhaseOk(s.db, s.calls[k]);
        }
      }
    }
  }

  lemma RegisterLogs(s: System, s': System, r: Registration)
    requires OriginsOk(s) && DevicesOk(s) && OriginOk(s.db, r)
    requires s'.db == s.db.(devices := s.db.devices + {r.device}) && s'.registered == s.registered + [r]
    ensures OriginsOk(s') && DevicesOk(s')
  {
    forall i | 0 <= i < |s'.registered| ensures OriginOk(s'.db, s'.registered[i]) {
      if i < |s.registered| {
        assert OriginOk(s.db, s.registered[i]);
      }
    }
    forall d ensures d in s'.db.devices <==> exists i :: 0 <= i < |s'.registered| && s'.registered[i].device == d {
      if d in s.db.devices {
        var i :| 0 <= i < |s.registered| && s.registered[i].device == d;
        assert s'.registered[i].device == d;
      } else if d == r.device {
        assert s'.registered[|s.registered|].device == d;
      }
    }
  }

  predicate Registers(p: Phase) {
    p.SignedUp? || p.Reactivated? || p.Cleared?
  }

  /** Any other command leaves the registrations as they are. */
  lemma NextExtends(s: System, id: nat)
    requires Inv(s) && id in s.calls && !Registers(s.calls[id])
    ensures var s' := DoNext(s, id, s.calls[id]);
            && Extends(s.db, s'.db) && s'.db.phones == s.db.phones && s'.db.devices == s.db.devices
            && s'.registered == s.registered
  {
    assert PhaseOk(s.db, s.calls[id]);
  }

  lemma NextPhase(s: System, id: nat)
    requires Inv(s) && id in s.calls
    ensures var s' := DoNext(s, id, s.calls[id]);
            id in s'.calls && s'.calls == s.calls[id := s'.calls[id]] && PhaseOk(s'.db, s'.calls[id])
  {
    assert PhaseOk(s.db, s.calls[id]);
  }

  lemma NextKeeps(s: System, id: nat)
    requires Inv(s) && id in s.calls
    ensures Inv(DoNext(s, id, s.calls[id]))
  {
    var p, s' := s.calls[id], DoNext(s, id, s.calls[id]);
    assert PhaseOk(s.db, p);
    match p {
      case SignedUp(user, phone, fingerprint) => RegisterKeeps(s, id, user, fingerprint, BySignup(phone));
      case Reactivated(user, fingerprint, from) => RegisterKeeps(s, id, user, fingerprint, ByReactivation(from));
      case Cleared(user, fingerprint, month) => RegisterKeeps(s, id, user, fingerprint, ByMonth(month));
      case _ => {
        NextExtends(s, id);
        NextPhase(s, id);
        ExtensionKeeps(s, s', id, s'.calls[id]);
      }
    }
  }

  lemma CreateKeeps(s: System, id: nat, phone: string, fingerprint: string, user: int, month: string)
    requires Inv(s)
    ensures Inv(DoCreate(s, id, phone, fingerprint, user, month))
  {
    var s' := DoCreate(s, id, phone, fingerprint, user, month);
    if s' != s {
      ExtensionKeeps(s, s', id, s'.calls[id]);
    }
  }

  lemma AdminKeeps(s: System, user: int, to: Status)
    requires Inv(s)
    ensures Inv(DoAdmin(s, user, to))
  {
    var s' := DoAdmin(s, user, to);
    forall i | 0 <= i < |s'.registered| ensures OriginOk(s'.db, s'.registered[i]) {
      assert OriginOk(s.db, s.registered[i]);
    }
    forall k | k in s'.calls ensures PhaseOk(s'.db, s'.calls[k]) {
      assert PhaseOk(s.db, s.calls[k]);
    }
  }

  lemma ApplyKeeps(s: System, e: Event)
    requires Inv(s)
    ensures Inv(Apply(s, e))
  {
    match e
    case Tick(d) => TickKeeps(s, d);
    case Begin(id, p) => if id !in s.calls && IsEntry(p) { ExtensionKeeps(s, To(s, id, p), id, p); }
    case Create(id, user, month) =>
      if id in s.calls && s.calls[id].SigningUp? { CreateKeeps(s, id, s.calls[id].phone, s.calls[id].fingerprint, user, month); }
    case Open(id, ok) =>
      if id in s.calls && s.calls[id].First? {
        var s' := DoOpen(s, id, s.calls[id], ok);
        ExtensionKeeps(s, s', id, s'.calls[id]);
      }
    case Next(id) => if id in s.calls { NextKeeps(s, id); }
    case Stop(id) => if id in s.calls { ExtensionKeeps(s, To(s, id, Done(Stopped)), id, Done(Stopped)); }
    case Admin(user, to) => AdminKeeps(s, user, to);
  }

  lemma TickKeeps(s: System, d: nat)
    requires Inv(s)
    ensures Inv(s.(db := s.db.(now := s.db.now + d)))
  {
    var s' := s.(db := s.db.(now := s.db.now + d));
    forall i | 0 <= i < |s'.registered| ensures OriginOk(s'.db, s'.registered[i]) {
      assert OriginOk(s.db, s.registered[i]);
    }
    forall k | k in s'.calls ensures PhaseOk(s'.db, s'.calls[k]) {
      assert PhaseOk(s.db, s.calls[k]);
    }
  }

  lemma {:induction false} InvKept(s: System, es: seq<Event>)
    requires Inv(s)
    ensures Inv(Exec(s, es))
    decreases es
  {
    if es != [] {
      ApplyKeeps(s, es[0]);
      InvKept(Apply(s, es[0]), es[1..]);
    }
  }

  predicate IsLogin(p: Phase) {
    p.LoggingIn? || p.CheckingDevice? || p.KnownDevice?
  }

  /** In every reachable state, no step of VerifyOtp changes the set of registered devices. */
  lemma LoginNeverRegisters(es: seq<Event>, id: nat)
    requires var s := Exec(INIT, es); id in s.calls && IsLogin(s.calls[id])
    ensures Exec(INIT, es + [Next(id)]).db.devices == Exec(INIT, es).db.devices
  {
    var s := Exec(INIT, es);
    InvKept(INIT, es);
    ExecConcat(INIT, es, [Next(id)]);
    assert [Next(id)][1..] == [];
    assert Exec(s, [Next(id)]) == Apply(s, Next(id));
    assert PhaseOk(s.db, s.calls[id]);
  }

  /** Every registered device came from the signup of its user, a reactivation of its user out of
      PENDING, DORMANT or SUSPENDED, or an answer that was the creation month of its user. */
  lemma DevicesHaveOrigins(es: seq<Event>, d: Device)
    requires d in Exec(INIT, es).db.devices
    ensures var s := Exec(INIT, es);
            exists i :: 0 <= i < |s.registered| && s.registered[i].device == d && OriginOk(s.db, s.registered[i])
  {
    InvKept(INIT, es);
    var s := Exec(INIT, es);
    var i :| 0 <= i < |s.registered| && s.registered[i].device == d;
    assert OriginOk(s.db, s.registered[i]);
  }

  // ---- the month challenge

  predicate LifeOk(db: Db, user: int, lives: seq<set<nat>>) {
    && (forall k :: 0 <= k < |lives| ==> |lives[k]| <= MAX_CHALLENGES)
    && (user in db.counters ==>
          lives != [] && db.counters[user].count >= 1 && |lives[|lives| - 1]| <= db.counters[user].count)
  }

  predicate IsIn(lives: seq<set<nat>>, id: nat, life: nat) {
    1 <= life <= |lives| && id in lives[life - 1]
  }

  predicate AdmittedOk(s: System, id: nat, p: Phase) {
    p.First? || p.Admitted? ==> IsIn(LivesOf(s, p.user), id, p.life)
  }

  ghost predicate LivesOk(s: System) {
    forall user :: LifeOk(s.db, user, LivesOf(s, user))
  }

  ghost predicate ChallengesOk(s: System) {
    && LivesOk(s)
    && (forall id :: id in s.calls ==> AdmittedOk(s, id, s.calls[id]))
    && (forall c :: c in s.compared ==> IsIn(LivesOf(s, c.user), c.id, c.life))
  }

  lemma AddOne(ids: set<nat>, id: nat)
    ensures |ids + {id}| <= |ids| + 1
  {
    if id in ids {
      assert ids + {id} == ids;
    }
  }

  lemma CountedKeepsLife(db: Db, user: int, lives: seq<set<nat>>, id: nat)
    requires LifeOk(db, user, lives)
    ensures var (db', count) := Incr(db, user);
            var lives' := Counted(lives, id, count == 1, count <= MAX_CHALLENGES);
            LifeOk(db', user, lives') && (count <= MAX_CHALLENGES ==> IsIn(lives', id, |lives'|))
  {
    if lives != [] {
      AddOne(lives[|lives| - 1], id);
    }
  }

  lemma CountedGrows(lives: seq<set<nat>>, id: nat, isNew: bool, admits: bool, other: nat, life: nat)
    requires IsIn(lives, other, life)
    ensures IsIn(Counted(lives, id, isNew, admits), other, life)
  {
  }

  lemma AttemptKeepsLives(s: System, id: nat, user: int, fingerprint: string, month: string)
    requires LivesOk(s)
    ensures LivesOk(DoAttempt(s, id, user, fingerprint, month))
  {
    var s' := DoAttempt(s, id, user, fingerprint, month);
    forall u ensures LifeOk(s'.db, u, LivesOf(s', u)) {
      assert LifeOk(s.db, u, LivesOf(s, u));
      if u == user {
        CountedKeepsLife(s.db, user, LivesOf(s, user), id);
      }
    }
  }

  lemma AttemptKeepsMembers(s: System, id: nat, user: int, fingerprint: string, month: string, other: nat, u: int, life: nat)
    requires IsIn(LivesOf(s, u), other, life)
    ensures IsIn(LivesOf(DoAttempt(s, id, user, fingerprint, month), u), other, life)
  {
    var count := Incr(s.db, user).1;
    if u == user {
      CountedGrows(LivesOf(s, user), id, count == 1, count <= MAX_CHALLENGES, other, life);
    }
  }

  lemma AttemptKeepsChallenges(s: System, id: nat, user: int, fingerprint: string, month: string)
    requires ChallengesOk(s)
    ensures ChallengesOk(DoAttempt(s, id, user, fingerprint, month))
  {
    var s' := DoAttempt(s, id, user, fingerprint, month);
    AttemptKeepsLives(s, id, user, fingerprint, month);
    forall k | k in s'.calls ensures AdmittedOk(s', k, s'.calls[k]) {
      if k == id {
        assert LifeOk(s.db, user, LivesOf(s, user));
        CountedKeepsLife(s.db, user, LivesOf(s, user), id);
      } else {
        var p := s.calls[k];
        assert AdmittedOk(s, k, p);
        if p.First? || p.Admitted? {
          AttemptKeepsMembers(s, id, user, fingerprint, month, k, p.user, p.life);
        }
      }
    }
    forall c | c in s'.compared ensures IsIn(LivesOf(s', c.user), c.id, c.life) {
      AttemptKeepsMembers(s, id, user, fingerprint, month, c.id, c.user, c.life);
    }
  }

  lemma CompareKeepsChallenges(s: System, id: nat, p: Phase)
    requires ChallengesOk(s) && id in s.calls && s.calls[id] == p && p.Admitted?
    ensures ChallengesOk(DoCompare(s, id, p.user, p.fingerprint, p.month, p.life))
  {
    var s' := DoCompare(s, id, p.user, p.fingerprint, p.month, p.life);
    assert AdmittedOk(s, id, p);
    var t := s'.(compared := s.compared);
    OtherKeepsChallenges(s, t, id, s'.calls[id]);
    forall u ensures LifeOk(s'.db, u, LivesOf(s', u)) {
      assert LifeOk(t.db, u, LivesOf(t, u));
    }
    forall k | k in s'.calls ensures AdmittedOk(s', k, s'.calls[k]) {
      assert AdmittedOk(t, k, t.calls[k]);
    }
  }

  /** Commands that count nothing: a counter may get a deadline, or go. */
  lemma OtherKeepsChallenges(s: System, s': System, id: nat, p: Phase)
    requires ChallengesOk(s) && s'.lives == s.lives && s'.compared == s.compared && s'.calls == s.calls[id := p]
    requires AdmittedOk(s, id, p)
    requires forall u :: u in s'.db.counters ==> u in s.db.counters && s'.db.counters[u].count == s.db.counters[u].count
    ensures ChallengesOk(s')
  {
    forall u ensures LifeOk(s'.db, u, LivesOf(s', u)) {
      assert LifeOk(s.db, u, LivesOf(s, u));
    }
    forall k | k in s'.calls ensures AdmittedOk(s', k, s'.calls[k]) {
      if k != id {
        assert AdmittedOk(s, k, s.calls[k]);
      }
    }
  }

  lemma QuietKeepsChallenges(s: System, s': System)
    requires ChallengesOk(s) && s'.lives == s.lives && s'.compared == s.compared && s'.calls == s.calls
    requires s'.db.counters == s.db.counters
    ensures ChallengesOk(s')
  {
    forall u ensures LifeOk(s'.db, u, LivesOf(s', u)) {
      assert LifeOk(s.db, u, LivesOf(s, u));
    }
    forall k | k in s'.calls ensures AdmittedOk(s', k, s'.calls[k]) {
      assert AdmittedOk(s, k, s.calls[k]);
    }
  }

  lemma NextKeepsChallenges(s: System, id: nat)
    requires ChallengesOk(s) && id in s.calls
    ensures ChallengesOk(DoNext(s, id, s.calls[id]))
  {
    var p, s' := s.calls[id], DoNext(s, id, s.calls[id]);
    match p {
      case Challenged(user, fingerprint, month) => AttemptKeepsChallenges(s, id, user, fingerprint, month);
      case Admitted(_, _, _, _) => CompareKeepsChallenges(s, id, p);
      case _ =>
        assert AdmittedOk(s, id, p);
        NextCountsNothing(s, id);
        OtherKeepsChallenges(s, s', id, s'.calls[id]);
    }
  }

  lemma NextCountsNothing(s: System, id: nat)
    requires id in s.calls && !s.calls[id].Challenged? && !s.calls[id].Admitted?
    ensures var s' := DoNext(s, id, s.calls[id]);
            && s'.lives == s.lives && s'.compared == s.compared
            && id in s'.calls && s'.calls == s.calls[id := s'.calls[id]]
            && (s'.calls[id].First? || s'.calls[id].Admitted? ==> s'.calls[id] == s.calls[id])
            && (forall u :: u in s'.db.counters ==> u in s.db.counters && s'.db.counters[u] == s.db.counters[u])
  {
    var p, s' := s.calls[id], DoNext(s, id, s.calls[id]);
    if p.Matched? {
      assert s' == DoReset(s, id, p.user, p.fingerprint, p.month);
    } else {
      assert s'.db.counters == s.db.counters;
    }
  }

  lemma ApplyKeepsChallenges(s: System, e: Event)
    requires ChallengesOk(s)
    ensures ChallengesOk(Apply(s, e))
  {
    var s' := Apply(s, e);
    match e
    case Tick(_) => QuietKeepsChallenges(s, s');
    case Admin(_, _) => QuietKeepsChallenges(s, s');
    case Next(id) => if id in s.calls { NextKeepsChallenges(s, id); }
    case Begin(id, p) => if s' != s { OtherKeepsChallenges(s, s', id, p); }
    case Create(id, _, _) => if s' != s { OtherKeepsChallenges(s, s', id, s'.calls[id]); }
    case Stop(id) => if s' != s { OtherKeepsChallenges(s, s', id, Done(Stopped)); }
    case Open(id, _) =>
      if s' != s {
        assert AdmittedOk(s, id, s.calls[id]);
        OtherKeepsChallenges(s, s', id, s'.calls[id]);
      }
  }

  lemma {:induction false} ChallengesKept(s: System, es: seq<Event>)
    requires ChallengesOk(s)
    ensures ChallengesOk(Exec(s, es))
    decreases es
  {
    if es != [] {
      ApplyKeepsChallenges(s, es[0]);
      ChallengesKept(Apply(s, es[0]), es[1..]);
    }
  }

  /** The calls that a counter let through and that compared months. */
  function Comparers(s: System, user: int, life: nat): set<nat> {
    set c | c in s.compared && c.user == user && c.life == life :: c.id
  }

  /** In any interleaving, of the calls counted between two clears of a user's counter at most three
      ever reach the month comparison. */
  lemma ThreeComparisonsPerCounter(es: seq<Event>, user: int, life: nat)
    ensures |Comparers(Exec(INIT, es), user, life)| <= 3
  {
    ChallengesKept(INIT, es);
    var s := Exec(INIT, es);
    var ids := Comparers(s, user, life);
    if ids != {} {
      var lives := LivesOf(s, user);
      assert LifeOk(s.db, user, lives);
      forall id | id in ids ensures IsIn(lives, id, life) {
        assert Comparison(id, user, life) in s.compared;
      }
      var id :| id in ids;
      assert IsIn(lives, id, life);
      SubsetSize(ids, lives[life - 1]);
    }
  }

  // ---- deletion

  predicate IsPastGate(s: System, id: nat, user: int) {
    id in s.calls && s.calls[id].Allowed? && s.calls[id].user == user
  }

  predicate IsDeleted(db: Db, user: int) {
    user in db.users && db.users[user].status == Deleted
  }

  lemma NextKeepsUsers(s: System, id: nat)
    requires id in s.calls && !s.calls[id].Allowed?
    ensures DoNext(s, id, s.calls[id]).db.users == s.db.users
  {
    var p := s.calls[id];
    if p.Challenged? {
      assert DoNext(s, id, p) == DoAttempt(s, id, p.user, p.fingerprint, p.month);
    }
  }

  lemma NextMoves(s: System, id: nat)
    requires id in s.calls
    ensures var s' := DoNext(s, id, s.calls[id]);
            id in s'.calls && s'.calls == s.calls[id := s'.calls[id]] && (s'.calls[id].Allowed? ==> s.calls[id].Reactivating?)
  {
  }

  lemma DeletedNext(s: System, id: nat, user: int)
    requires IsDeleted(s.db, user) && id in s.calls && !IsPastGate(s, id, user)
    ensures var s' := DoNext(s, id, s.calls[id]);
            && IsDeleted(s'.db, user) && id in s'.calls && s'.calls == s.calls[id := s'.calls[id]] && !IsPastGate(s', id, user)
  {
    var p, s' := s.calls[id], DoNext(s, id, s.calls[id]);
    NextMoves(s, id);
    if p.Allowed? {
      assert s' == DoActivate(s, id, p.user, p.fingerprint, p.from);
    } else {
      NextKeepsUsers(s, id);
      if p.Reactivating? {
        assert s' == DoAllow(s, id, p.user, p.fingerprint);
      }
    }
  }

  lemma DeletedStep(s: System, e: Event, user: int)
    requires IsDeleted(s.db, user) && forall id :: id in s.calls ==> !IsPastGate(s, id, user)
    ensures IsDeleted(Apply(s, e).db, user) && forall id :: id in Apply(s, e).calls ==> !IsPastGate(Apply(s, e), id, user)
  {
    var s' := Apply(s, e);
    if e.Next? && e.id in s.calls {
      DeletedNext(s, e.id, user);
    }
    assert IsDeleted(s'.db, user);
    forall id | id in s'.calls ensures !IsPastGate(s', id, user) {
      assert id in s.calls ==> !IsPastGate(s, id, user);
    }
  }

  lemma {:induction false} DeletedStays(s: System, es: seq<Event>, user: int)
    requires IsDeleted(s.db, user) && forall id :: id in s.calls ==> !IsPastGate(s, id, user)
    ensures IsDeleted(Exec(s, es).db, user)
    decreases es
  {
    if es != [] {
      DeletedStep(s, es[0], user);
      DeletedStays(Apply(s, es[0]), es[1..], user);
    }
  }

  /** DELETED is terminal exactly when no reactivation of the account is already past its check: its
      UPDATE does not look again. */
  lemma DeletedIsTerminalIff(s: System, user: int)
    requires IsDeleted(s.db, user)
    ensures (forall es :: IsDeleted(Exec(s, es).db, user)) <==> forall id :: id in s.calls ==> !IsPastGate(s, id, user)
  {
    if forall id :: id in s.calls ==> !IsPastGate(s, id, user) {
      forall es ensures IsDeleted(Exec(s, es).db, user) {
        DeletedStays(s, es, user);
      }
    } else {
      var id :| id in s.calls && IsPastGate(s, id, user);
      assert [Next(id)][1..] == [];
      assert Exec(s, [Next(id)]) == Apply(s, Next(id));
      assert !IsDeleted(Exec(s, [Next(id)]).db, user);
    }
  }
}
