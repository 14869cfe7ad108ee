/** The login flows of the identity service (services/identity/internal/usecase/auth.go) as an
    interleaving of their database and Redis commands: accounts, devices and the counter of device
    challenges (services/identity/internal/devverify/limiter.go).  Any call may stop between two of
    its commands. */
module Accounts {
  import opened RedisCounter

  const MAX_CHALLENGES: nat := 3
  const CHALLENGE_WINDOW: nat := 10 * 60 * 1000 // milliseconds

  datatype Status = Pending | Active | Dormant | Suspended | Deleted

  predicate CanTransition(from: Status, to: Status) {
    match from
    case Pending => to == Active || to == Deleted
    case Active => to == Dormant || to == Suspended || to == Deleted
    case Dormant => to == Active || to == Suspended || to == Deleted
    case Suspended => to == Active || to == Deleted
    case Deleted => false
  }

  // `month` is the UTC month of the creation time, as "2006-01" prints it.
  datatype Account = Account(status: Status, month: string)

  datatype Device = Device(user: int, fingerprint: string)

  datatype Db = Db(
    now: nat,
    users: map<int, Account>,
    phones: map<string, int>,       // PHONE credentials; (auth_type, identifier) is unique
    devices: set<Device>,           // (user_id, device_fingerprint) is unique
    counters: map<int, Counter>)    // devverify:attempts:<user>
  {
    predicate HasCounter(user: int) {
      Has(counters, user, now)
    }
  }

  /** INCR, and its reply. */
  function Incr(db: Db, user: int): (Db, nat) {
    (db.(counters := RedisCounter.Incremented(db.counters, user, db.now)), Live(db.counters, user, db.now) + 1)
  }

  function Expire(db: Db, user: int): Db {
    db.(counters := RedisCounter.Expiring(db.counters, user, db.now, CHALLENGE_WINDOW))
  }

  function Reset(db: Db, user: int): Db {
    db.(counters := db.counters - {user})
  }

  /** UpsertDevice; an empty fingerprint registers nothing. */
  function Register(db: Db, user: int, fingerprint: string): Db {
    if fingerprint == "" then db else db.(devices := db.devices + {Device(user, fingerprint)})
  }

  /** UPDATE users SET status = ... WHERE id = ...: whatever the status is now. */
  function SetStatus(db: Db, user: int, status: Status): Db {
    if user in db.users then db.(users := db.users[user := db.users[user].(status := status)]) else db
  }

  datatype Outcome =
    | Tokens(user: int)
    | SignupRequired | ReactivationRequired(user: int) | VerificationRequired(user: int)
    | LoginNotAllowed | UserNotFound | CredentialConflict | InvalidTransition | ConsentRequired
    | TooManyAttempts | VerifyFailed | InvalidFlowToken | Failed | Stopped

  /** Where a call is. */
  datatype Phase =
    // VerifyOtp, its code accepted
    | LoggingIn(phone: string, fingerprint: string)
    | CheckingDevice(user: int, fingerprint: string)
    | KnownDevice(user: int, fingerprint: string)
    // CompleteSignup, its flow token accepted
    | SigningUp(phone: string, fingerprint: string)
    | SignedUp(user: int, phone: string, fingerprint: string)
    // CompleteReactivation, its flow token accepted and consent given
    | Reactivating(user: int, fingerprint: string)
    | Allowed(user: int, fingerprint: string, from: Status)
    | Reactivated(user: int, fingerprint: string, from: Status)
    // VerifyDevice, its flow token accepted
    | Challenged(user: int, fingerprint: string, month: string)
    | First(user: int, fingerprint: string, month: string, life: nat)
    | Admitted(user: int, fingerprint: string, month: string, life: nat)
    | Matched(user: int, fingerprint: string, month: string)
    | Cleared(user: int, fingerprint: string, month: string)
    | Done(outcome: Outcome)

  predicate IsEntry(p: Phase) {
    p.LoggingIn? || p.SigningUp? || p.Reactivating? || p.Challenged?
  }

  // Why a device was registered.
  datatype Origin = BySignup(phone: string) | ByReactivation(from: Status) | ByMonth(month: string)

  datatype Registration = Registration(device: Device, origin: Origin)

  // A call that compared months, and the counter that had let it.
  datatype Comparison = Comparison(id: nat, user: int, life: nat)

  datatype System = System(
    db: Db,
    calls: map<nat, Phase>,
    registered: seq<Registration>,
    lives: map<int, seq<set<nat>>>,     // every counter of a user, with the calls it let through
    compared: set<Comparison>)

  const INIT := System(Db(0, map[], map[], {}, map[]), map[], [], map[], {})

  datatype Event =
    | Tick(d: nat)
    | Begin(id: nat, entry: Phase)
    | Create(id: nat, user: int, month: string)   // the signup transaction, with its new id and time
    | Open(id: nat, ok: bool)                     // EXPIRE, whose error is ignored
    | Next(id: nat)                               // any other command of the call
    | Stop(id: nat)
    | Admin(user: int, to: Status)                // a status change elsewhere, by the same state machine

  function To(s: System, id: nat, p: Phase): System {
    s.(calls := s.calls[id := p])
  }

  function DoFind(s: System, id: nat, phone: string, fingerprint: string): System {
    if phone !in s.db.phones || s.db.phones[phone] !in s.db.users then To(s, id, Done(SignupRequired))
    else
      var user := s.db.phones[phone];
      match s.db.users[user].status
      case Active => if fingerprint == "" then To(s, id, Done(Tokens(user))) else To(s, id, CheckingDevice(user, fingerprint))
      case Dormant => To(s, id, Done(ReactivationRequired(user)))
      case _ => To(s, id, Done(LoginNotAllowed))
  }

  function DoCheck(s: System, id: nat, user: int, fingerprint: string): System {
    To(s, id, if Device(user, fingerprint) in s.db.devices then KnownDevice(user, fingerprint)
              else Done(VerificationRequired(user)))
  }

  /** The upsert of a known device: nothing is registered, so nothing is logged. */
  function DoTouch(s: System, id: nat, user: int, fingerprint: string): System {
    To(s.(db := Register(s.db, user, fingerprint)), id, Done(Tokens(user)))
  }

  function DoRegister(s: System, id: nat, user: int, fingerprint: string, origin: Origin): System {
    var log := if fingerprint == "" then [] else [Registration(Device(user, fingerprint), origin)];
    To(s.(db := Register(s.db, user, fingerprint), registered := s.registered + log), id, Done(Tokens(user)))
  }

  function DoCreate(s: System, id: nat, phone: string, fingerprint: string, user: int, month: string): System {
    if phone in s.db.phones then To(s, id, Done(CredentialConflict))
    else if user in s.db.users then s
    else
      To(s.(db := s.db.(users := s.db.users[user := Account(Active, month)], phones := s.db.phones[phone := user])),
         id, SignedUp(user, phone, fingerprint))
  }

  function DoAllow(s: System, id: nat, user: int, fingerprint: string): System {
    if user !in s.db.users then To(s, id, Done(UserNotFound))
    else
      var from := s.db.users[user].status;
      To(s, id, if CanTransition(from, Active) then Allowed(user, fingerprint, from) else Done(InvalidTransition))
  }

  function DoActivate(s: System, id: nat, user: int, fingerprint: string, from: Status): System {
    To(s.(db := SetStatus(s.db, user, Active)), id, Reactivated(user, fingerprint, from))
  }

  function LivesOf(s: System, user: int): seq<set<nat>> {
    if user in s.lives then s.lives[user] else []
  }

  /** The counters of a user after call `id` counted itself. */
  function Counted(lives: seq<set<nat>>, id: nat, isNew: bool, admits: bool): seq<set<nat>> {
    if isNew || lives == [] then lives + [{id}]
    else if admits then lives[|lives| - 1 := lives[|lives| - 1] + {id}]
    else lives
  }

  function DoAttempt(s: System, id: nat, user: int, fingerprint: string, month: string): System {
    var (db', count) := Incr(s.db, user);
    var lives := Counted(LivesOf(s, user), id, count == 1, count <= MAX_CHALLENGES);
    To(s.(db := db', lives := s.lives[user := lives]), id,
       if count == 1 then First(user, fingerprint, month, |lives|)
       else if count <= MAX_CHALLENGES then Admitted(user, fingerprint, month, |lives|)
       else Done(TooManyAttempts))
  }

  function DoOpen(s: System, id: nat, p: Phase, ok: bool): System
    requires p.First?
  {
    To(s.(db := if ok then Expire(s.db, p.user) else s.db), id, Admitted(p.user, p.fingerprint, p.month, p.life))
  }

  /** FindByID, and the month of the account against the answer. */
  function DoCompare(s: System, id: nat, user: int, fingerprint: string, month: string, life: nat): System {
    if user !in s.db.users then To(s, id, Done(UserNotFound))
    else
      To(s.(compared := s.compared + {Comparison(id, user, life)}), id,
         if s.db.users[user].month == month then Matched(user, fingerprint, month) else Done(VerifyFailed))
  }

  function DoReset(s: System, id: nat, user: int, fingerprint: string, month: string): System {
    To(s.(db := Reset(s.db, user)), id, Cleared(user, fingerprint, month))
  }

  function DoNext(s: System, id: nat, p: Phase): System {
    match p
    case LoggingIn(phone, fingerprint) => DoFind(s, id, phone, fingerprint)
    case CheckingDevice(user, fingerprint) => DoCheck(s, id, user, fingerprint)
    case KnownDevice(user, fingerprint) => DoTouch(s, id, user, fingerprint)
    case SignedUp(user, phone, fingerprint) => DoRegister(s, id, user, fingerprint, BySignup(phone))
    case Reactivating(user, fingerprint) => DoAllow(s, id, user, fingerprint)
    case Allowed(user, fingerprint, from) => DoActivate(s, id, user, fingerprint, from)
    case Reactivated(user, fingerprint, from) => DoRegister(s, id, user, fingerprint, ByReactivation(from))
    case Challenged(user, fingerprint, month) => DoAttempt(s, id, user, fingerprint, month)
    case Admitted(user, fingerprint, month, life) => DoCompare(s, id, user, fingerprint, month, life)
    case Matched(user, fingerprint, month) => DoReset(s, id, user, fingerprint, month)
    case Cleared(user, fingerprint, month) => DoRegister(s, id, user, fingerprint, ByMonth(month))
    case _ => s
  }

  function DoAdmin(s: System, user: int, to: Status): System {
    if user in s.db.users && CanTransition(s.db.users[user].status, to) then s.(db := SetStatus(s.db, user, to)) else s
  }

  function Apply(s: System, e: Event): System {
    match e
    case Tick(d) => s.(db := s.db.(now := s.db.now + d))
    case Begin(id, p) => if id in s.calls || !IsEntry(p) then s else To(s, id, p)
    case Create(id, user, month) =>
      if id in s.calls && s.calls[id].SigningUp? then DoCreate(s, id, s.calls[id].phone, s.calls[id].fingerprint, user, month) else s
    case Open(id, ok) => if id in s.calls && s.calls[id].First? then DoOpen(s, id, s.calls[id], ok) else s
    case Next(id) => if id in s.calls then DoNext(s, id, s.calls[id]) else s
    case Stop(id) => if id in s.calls && !s.calls[id].Done? then To(s, id, Done(Stopped)) else s
    case Admin(user, to) => DoAdmin(s, user, to)
  }

  function Exec(s: System, es: seq<Event>): System
    decreases es
  {
    if es == [] then s else Exec(Apply(s, es[0]), es[1..])
  }

  lemma {:induction false} ExecConcat(s: System, a: seq<Event>, b: seq<Event>)
    ensures Exec(s, a + b) == Exec(Exec(s, a), b)
    decreases a
  {
    if a == [] {
      assert a + b == b;
    } else {
      assert (a + b)[0] == a[0] && (a + b)[1..] == a[1..] + b;
      ExecConcat(Apply(s, a[0]), a[1..], b);
    }
  }
}
