/** Whole calls of the login flows, alone and against each other. */
module AccountsRuns {
  import opened Accounts
  import opened RedisCounter

  lemma ExecOne(s: System, a: Event)
    ensures Exec(s, [a]) == Apply(s, a)
  {
    assert [a][1..] == [];
    assert Exec(Apply(s, a), []) == Apply(s, a);
  }

  lemma ExecTwo(s: System, a: Event, b: Event)
    ensures Exec(s, [a, b]) == Apply(Apply(s, a), b)
  {
    assert [a, b][1..] == [b];
    ExecOne(Apply(s, a), b);
  }

  lemma ExecThree(s: System, a: Event, b: Event, c: Event)
    ensures Exec(s, [a, b, c]) == Apply(Apply(Apply(s, a), b), c)
  {
    assert [a, b, c][1..] == [b, c];
    ExecTwo(Apply(s, a), b, c);
  }

  function LiveCount(db: Db, user: int): nat {
    Live(db.counters, user, db.now)
  }

  // ---- VerifyDevice alone

  /** The limiter: INCR, and EXPIRE if the counter is new. */
  lemma AttemptAlone(s: System, id: nat, user: int, fingerprint: string, month: string, ok: bool)
    requires id in s.calls && s.calls[id] == Challenged(user, fingerprint, month)
    requires user in s.db.counters ==> s.db.counters[user].count >= 1
    ensures var s' := Exec(s, [Next(id), Open(id, ok)]);
            && s'.db.users == s.db.users && s'.db.devices == s.db.devices && id in s'.calls
            && s'.calls[id] == (if LiveCount(s.db, user) < MAX_CHALLENGES then Admitted(user, fingerprint, month, |LivesOf(s', user)|)
                                else Done(TooManyAttempts))
  {
    ExecTwo(s, Next(id), Open(id, ok));
    var s1 := Apply(s, Next(id));
    assert s1 == DoAttempt(s, id, user, fingerprint, month);
    if s1.calls[id].First? {
      assert Apply(s1, Open(id, ok)) == DoOpen(s1, id, s1.calls[id], ok);
    }
  }

  lemma CompareAlone(s: System, id: nat, user: int, fingerprint: string, month: string, life: nat)
    requires id in s.calls && s.calls[id] == Admitted(user, fingerprint, month, life)
    ensures var s' := Exec(s, [Next(id), Next(id), Next(id)]);
            && id in s'.calls
            && (if user in s.db.users && s.db.users[user].month == month then
                  && s'.calls[id] == Done(Tokens(user)) && s'.db == Register(Reset(s.db, user), user, fingerprint)
                else s'.calls[id] == Done(if user in s.db.users then VerifyFailed else UserNotFound) && s'.db == s.db)
  {
    ExecThree(s, Next(id), Next(id), Next(id));
    var s1 := Apply(s, Next(id));
    assert s1 == DoCompare(s, id, user, fingerprint, month, life);
  }

  lemma IdleNexts(s: System, id: nat)
    requires id in s.calls && s.calls[id].Done?
    ensures Exec(s, [Next(id), Next(id), Next(id)]) == s
  {
    ExecThree(s, Next(id), Next(id), Next(id));
  }

  /** A challenge succeeds exactly when fewer than three are counted and the month is right, whatever
      the status of the account is; only then the device is registered and the counter cleared. */
  lemma ChallengeGate(s: System, id: nat, user: int, fingerprint: string, month: string, ok: bool)
    requires id in s.calls && s.calls[id] == Challenged(user, fingerprint, month)
    requires user in s.db.counters ==> s.db.counters[user].count >= 1
    ensures var s' := Exec(s, [Next(id), Open(id, ok)] + [Next(id), Next(id), Next(id)]);
            var passes := LiveCount(s.db, user) < 3 && user in s.db.users && s.db.users[user].month == month;
            && id in s'.calls
            && s'.calls[id] == Done(if passes then Tokens(user) else if LiveCount(s.db, user) >= 3 then TooManyAttempts
                                    else if user in s.db.users then VerifyFailed else UserNotFound)
            && s'.db.devices == (if passes && fingerprint != "" then s.db.devices + {Device(user, fingerprint)} else s.db.devices)
            && (passes ==> user !in s'.db.counters)
            && s'.db.users == s.db.users
  {
    ExecConcat(s, [Next(id), Open(id, ok)], [Next(id), Next(id), Next(id)]);
    AttemptAlone(s, id, user, fingerprint, month, ok);
    var s1 := Exec(s, [Next(id), Open(id, ok)]);
    if LiveCount(s.db, user) < MAX_CHALLENGES {
      CompareAlone(s1, id, user, fingerprint, month, |LivesOf(s1, user)|);
    } else {
      IdleNexts(s1, id);
    }
  }

  // ---- the other flows alone

  /** VerifyOtp after its code: the state of the account decides, and nothing changes. */
  lemma LoginGate(s: System, id: nat, phone: string, fingerprint: string)
    requires id in s.calls && s.calls[id] == LoggingIn(phone, fingerprint)
    requires phone in s.db.phones ==> s.db.phones[phone] in s.db.users
    ensures var s' := Exec(s, [Next(id), Next(id), Next(id)]);
            && s'.db == s.db && id in s'.calls
            && (phone !in s.db.phones ==> s'.calls[id] == Done(SignupRequired))
            && (phone in s.db.phones ==>
                  var user := s.db.phones[phone];
                  match s.db.users[user].status
                  case Active =>
                    s'.calls[id] == Done(if fingerprint == "" || Device(user, fingerprint) in s.db.devices then Tokens(user)
                                         else VerificationRequired(user))
                  case Dormant => s'.calls[id] == Done(ReactivationRequired(user))
                  case _ => s'.calls[id] == Done(LoginNotAllowed))
  {
    ExecThree(s, Next(id), Next(id), Next(id));
    var s1 := Apply(s, Next(id));
    assert s1 == DoFind(s, id, phone, fingerprint);
    if s1.calls[id].CheckingDevice? {
      CheckAlone(s1, id, s1.calls[id].user, fingerprint);
    }
  }

  lemma CheckAlone(s: System, id: nat, user: int, fingerprint: string)
    requires id in s.calls && s.calls[id] == CheckingDevice(user, fingerprint)
    ensures var s' := Apply(Apply(s, Next(id)), Next(id));
            && s'.db == s.db && id in s'.calls
            && s'.calls[id] == Done(if Device(user, fingerprint) in s.db.devices then Tokens(user) else VerificationRequired(user))
  {
    var s1 := Apply(s, Next(id));
    assert s1 == DoCheck(s, id, user, fingerprint);
    if Device(user, fingerprint) in s.db.devices {
      assert Apply(s1, Next(id)) == DoTouch(s1, id, user, fingerprint);
      assert s.db.devices + {Device(user, fingerprint)} == s.db.devices;
    }
  }

  /** CompleteSignup after its flow token: a free phone gets an ACTIVE account and its device. */
  lemma SignupGate(s: System, id: nat, phone: string, fingerprint: string, user: int, month: string)
    requires id in s.calls && s.calls[id] == SigningUp(phone, fingerprint) && user !in s.db.users
    ensures var s' := Exec(s, [Create(id, user, month), Next(id)]);
            && id in s'.calls
            && (phone in s.db.phones ==> s'.calls[id] == Done(CredentialConflict) && s'.db == s.db)
            && (phone !in s.db.phones ==>
                  && s'.calls[id] == Done(Tokens(user))
                  && s'.db.users == s.db.users[user := Account(Active, month)] && s'.db.phones == s.db.phones[phone := user]
                  && s'.db.devices == s.db.devices + (if fingerprint == "" then {} else {Device(user, fingerprint)}))
  {
    ExecTwo(s, Create(id, user, month), Next(id));
    var s1 := Apply(s, Create(id, user, month));
    assert s1 == DoCreate(s, id, phone, fingerprint, user, month);
    if phone !in s.db.phones {
      assert Apply(s1, Next(id)) == DoRegister(s1, id, user, fingerprint, BySignup(phone));
    }
  }

  /** CompleteReactivation after its flow token and consent: an account becomes ACTIVE out of three statuses. */
  lemma ReactivationGate(s: System, id: nat, user: int, fingerprint: string)
    requires id in s.calls && s.calls[id] == Reactivating(user, fingerprint)
    ensures var s' := Exec(s, [Next(id), Next(id), Next(id)]);
            var allowed := user in s.db.users && s.db.users[user].status in {Pending, Dormant, Suspended};
            && id in s'.calls
            && s'.calls[id] == Done(if allowed then Tokens(user) else if user in s.db.users then InvalidTransition else UserNotFound)
            && (!allowed ==> s'.db == s.db)
            && (allowed ==>
                  && s'.db.users == s.db.users[user := s.db.users[user].(status := Active)] && s'.db.phones == s.db.phones
                  && s'.db.devices == s.db.devices + (if fingerprint == "" then {} else {Device(user, fingerprint)}))
  {
    ExecThree(s, Next(id), Next(id), Next(id));
    var s1 := Apply(s, Next(id));
    assert s1 == DoAllow(s, id, user, fingerprint);
    if s1.calls[id].Allowed? {
      ActivateAlone(s1, id, user, fingerprint, s1.calls[id].from);
    }
  }

  lemma ActivateAlone(s: System, id: nat, user: int, fingerprint: string, from: Status)
    requires id in s.calls && s.calls[id] == Allowed(user, fingerprint, from) && user in s.db.users
    ensures var s' := Apply(Apply(s, Next(id)), Next(id));
            && id in s'.calls && s'.calls[id] == Done(Tokens(user))
            && s'.db.users == s.db.users[user := s.db.users[user].(status := Active)] && s'.db.phones == s.db.phones
            && s'.db.devices == s.db.devices + (if fingerprint == "" then {} else {Device(user, fingerprint)})
  {
    var s1 := Apply(s, Next(id));
    assert s1 == DoActivate(s, id, user, fingerprint, from);
    assert Apply(s1, Next(id)) == DoRegister(s1, id, user, fingerprint, ByReactivation(from));
  }

  // ---- the state machine

  /** DELETED is never left and always within one step of every other status; PENDING is never entered;
      ACTIVE is reached from every status but DELETED and itself; DORMANT and SUSPENDED only from ACTIVE or,
      the latter, from DORMANT. */
  lemma Transitions(from: Status)
    ensures !CanTransition(Deleted, from) && !CanTransition(from, Pending) && !CanTransition(from, from)
    ensures CanTransition(from, Deleted) <==> from != Deleted
    ensures CanTransition(from, Active) <==> from == Pending || from == Dormant || from == Suspended
    ensures CanTransition(from, Dormant) <==> from == Active
    ensures CanTransition(from, Suspended) <==> from == Active || from == Dormant
  {
  }
}
