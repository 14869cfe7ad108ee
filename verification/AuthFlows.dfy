/** usecase.Auth: the login flows as calls on the database and the limiter
    (services/identity/internal/usecase/auth.go). */
module AuthFlows {
  import opened Decimal
  import opened Accounts
  import opened IdentityRepo
  import OtpModel
  import OtpStore
  import RtrLedger
  import RtrRedis
  import RtrStore
  import Tokens

  const SIGNUP := "signup"
  const REACTIVATION := "reactivation"
  const DEVICE_VERIFY := "device_verify"
  const REFRESH_GRANT := "refresh_token"

  /** The flow that goes on after an outcome of VerifyOtp. */
  function FlowFor(phone: string, o: Outcome): Option<Tokens.Class> {
    match o
    case SignupRequired => Some(Tokens.Flow(SIGNUP, phone))
    case ReactivationRequired(user) => Some(Tokens.Flow(REACTIVATION, Format(user)))
    case VerificationRequired(user) => Some(Tokens.Flow(DEVICE_VERIFY, Format(user)))
    case _ => None
  }

  /** And its flow token. */
  function FlowTokenFor(issuer: Tokens.Issuer, now: nat, phone: string, o: Outcome): Option<Tokens.Presented> {
    var flow := FlowFor(phone, o);
    if flow.Some? then Some(Tokens.Mint(issuer, now, flow.value)) else None
  }

  function StatusName(status: Status): string {
    match status
    case Pending => "PENDING"
    case Active => "ACTIVE"
    case Dormant => "DORMANT"
    case Suspended => "SUSPENDED"
    case Deleted => "DELETED"
  }

  // The answer of the token endpoint.
  datatype Refreshed =
    | UnsupportedGrant
    | Rejected(out: RtrRedis.Outcome)
    | NoUser
    | Pair(access: Tokens.Presented, identity: Tokens.Presented, refresh: RtrRedis.Token)

  /** The three tokens of a session of `user`, whatever the status of the account. */
  function PairFor(issuer: Tokens.Issuer, now: nat, user: int, account: Account, profile: Profile, refresh: RtrRedis.Token): Refreshed {
    Pair(issuer.AccessToken(now, user, StatusName(account.status)), issuer.IDToken(now, user, profile.nickname), refresh)
  }

  /** A session of `user`, read by those who get it: an access token for the board with the id and the
      status, an identity token for the browser with the nickname, both of fifteen minutes, and `refresh`. */
  ghost predicate IsSession(r: Refreshed, issuer: Tokens.Issuer, now: nat, user: int, account: Account, profile: Profile,
                            refresh: RtrRedis.Token) {
    && r.Pair? && r.refresh == refresh
    && r.access == Tokens.Jwt("RS256", issuer.kid, issuer.key,
                              Tokens.Claims(Some(issuer.issuer), Some(Format(user)), Some("board"), Some((now + 900_000) / 1000),
                                            None, Some(StatusName(account.status)), None))
    && r.identity == Tokens.Jwt("RS256", issuer.kid, issuer.key,
                                Tokens.Claims(Some(issuer.issuer), Some(Format(user)), Some("poc-frontend"), Some((now + 900_000) / 1000),
                                              None, None, Some(profile.nickname)))
  }

  // The strings that Issue generates.
  datatype Ids = Ids(token: RtrRedis.Token, family: RtrRedis.Family)

  ghost predicate Unused(l: RtrLedger.Ledger, ids: Ids) {
    ids.token != RtrRedis.NoToken && ids.token !in l.minted && ids.family !in l.lines
  }

  /** One new line of refresh tokens for exactly the user of the outcome, and the three tokens of its
      session; no session for any other outcome. */
  ghost predicate Opens(o: Outcome, pair: Option<Refreshed>, before: RtrLedger.Ledger, after: RtrLedger.Ledger, ids: Ids,
                        issuer: Tokens.Issuer, now: nat, users: map<int, Account>, profiles: map<int, Profile>) {
    if o.Tokens? then
      && o.user in users && o.user in profiles
      && after == before.Extend(ids.family, o.user, ids.token)
      && pair.Some? && IsSession(pair.value, issuer, now, o.user, users[o.user], profiles[o.user], ids.token)
    else after == before && pair == None
  }

  /** An account becomes ACTIVE, with consent, out of exactly three statuses; nothing else changes. */
  ghost predicate Reactivates(o: Outcome, consent: bool, user: Option<int>, before: map<int, Account>, after: map<int, Account>) {
    && (o.Tokens? || o == (if !consent then ConsentRequired else if user == None then InvalidFlowToken
                           else if user.value !in before then UserNotFound else InvalidTransition))
    && (o.Tokens? <==>
          consent && user.Some? && user.value in before && before[user.value].status in {Pending, Dormant, Suspended})
    && (if o.Tokens? then o.user == user.value && after == before[o.user := before[o.user].(status := Active)]
        else after == before)
  }

  // What VerifyOtp answers.
  datatype VerifyResult =
    | Refused(verdict: OtpModel.Outcome)
    | Routed(next: Outcome, tokens: Option<Refreshed>, flow: Option<Tokens.Presented>)

  class Auth {
    const repo: UserRepo
    const otp: OtpStore.Store
    const rtr: RtrStore.Store
    const limiter: Limiter
    const issuer: Tokens.Issuer

    constructor (repo: UserRepo, otp: OtpStore.Store, rtr: RtrStore.Store, limiter: Limiter, issuer: Tokens.Issuer)
      ensures this.repo == repo && this.otp == otp && this.rtr == rtr && this.limiter == limiter && this.issuer == issuer
    {
      this.repo, this.otp, this.rtr, this.limiter, this.issuer := repo, otp, rtr, limiter, issuer;
    }

    /** The session of a flow that ends with one. */
    method Start(o: Outcome, now: nat, ids: Ids) returns (pair: Option<Refreshed>)
      requires repo.Valid() && (o.Tokens? ==> o.user in repo.users)
      requires rtr.Valid() && Unused(rtr.ledger, ids)
      modifies rtr
      ensures rtr.Valid()
      ensures Opens(o, pair, old(rtr.ledger), rtr.ledger, ids, issuer, now, repo.users, repo.profiles)
      ensures o.Tokens? ==> pair.value.refresh == ids.token && rtr.ledger.Current(ids.token, o.user, rtr.ledger.now + 1_209_600_000)
      ensures !o.Tokens? ==> rtr.db == old(rtr.db)
    {
      pair := None;
      if o.Tokens? {
        pair := IssueTokens(o.user, repo.users[o.user], now, ids);
      }
    }

    /** A session for the user, whatever the status of the account. */
    method IssueTokens(user: int, account: Account, now: nat, ids: Ids) returns (pair: Option<Refreshed>)
      requires repo.Valid() && user in repo.users && repo.users[user] == account
      requires rtr.Valid() && Unused(rtr.ledger, ids)
      modifies rtr
      ensures rtr.Valid()
      ensures Opens(Outcome.Tokens(user), pair, old(rtr.ledger), rtr.ledger, ids, issuer, now, repo.users, repo.profiles)
      ensures rtr.ledger.Current(ids.token, user, rtr.ledger.now + 1_209_600_000)
    {
      RtrStore.OpenedIsCurrent(rtr.ledger, ids.family, user, ids.token);
      pair := Some(PairFor(issuer, now, user, account, repo.profiles[user], ids.token));
      rtr.Issue(user, ids.token, ids.family);
    }

    /** VerifyOtp for an accepted code, up to its session: routed by the state of the account.  No device
        is added; a known one is seen again. */
    method Route(phone: string, fingerprint: string, name: string, now: nat) returns (o: Outcome)
      requires repo.Valid()
      modifies repo`devices
      ensures repo.Valid() && repo.devices.Keys == old(repo.devices).Keys
      ensures o == SignupRequired <==> phone !in repo.credentials
      ensures phone in repo.credentials ==>
                var user := repo.credentials[phone];
                match repo.users[user].status
                case Active =>
                  o == if fingerprint == "" || Device(user, fingerprint) in repo.devices then Outcome.Tokens(user) else VerificationRequired(user)
                case Dormant => o == ReactivationRequired(user)
                case _ => o == LoginNotAllowed
      ensures repo.devices == if !o.Tokens? || fingerprint == "" then old(repo.devices)
                              else old(repo.devices)[Device(o.user, fingerprint) := Seen(Nullable(name), now)]
    {
      var found := repo.FindByCredential(phone);
      if found == NotFound {
        return SignupRequired;
      }
      var user := found.user;
      match found.account.status {
        case Active =>
          if fingerprint != "" {
            var known := repo.IsDeviceKnown(user, fingerprint);
            if !known {
              return VerificationRequired(user);
            }
            var _ := repo.UpsertDevice(user, fingerprint, name, now);
          }
          return Outcome.Tokens(user);
        case Dormant => return ReactivationRequired(user);
        case _ => return LoginNotAllowed;
      }
    }

    /** Nothing but the hash of the phone changes for a refused code; an accepted one is gone, and is
        answered with a session or with the continuation of exactly one flow. */
    method VerifyOtp(phone: string, code: string, fingerprint: string, name: string, now: nat, ids: Ids) returns (r: VerifyResult)
      requires repo.Valid() && rtr.Valid() && Unused(rtr.ledger, ids)
      modifies otp, repo`devices, rtr
      ensures repo.Valid() && rtr.Valid() && repo.devices.Keys == old(repo.devices).Keys
      ensures r.Routed? <==> old(otp.View().HasHash(phone)) && OtpModel.CodeOf(old(otp.hashes)[phone]) == code
      ensures otp.View() == OtpModel.VerifyOnce(old(otp.View()), phone, code).0
      ensures r.Refused? ==>
                && r.verdict == OtpModel.VerifyOnce(old(otp.View()), phone, code).1
                && repo.devices == old(repo.devices) && rtr.db == old(rtr.db) && rtr.ledger == old(rtr.ledger)
      ensures r.Routed? ==>
                && phone !in otp.hashes
                && (r.next == SignupRequired <==> phone !in repo.credentials)
                && r.flow == FlowTokenFor(issuer, now, phone, r.next)
                && (r.flow.Some? <==> r.next.SignupRequired? || r.next.ReactivationRequired? || r.next.VerificationRequired?)
                && Opens(r.next, r.tokens, old(rtr.ledger), rtr.ledger, ids, issuer, now, repo.users, repo.profiles)
                && (r.next.Tokens? ==>
                      && r.tokens.value.refresh == ids.token
                      && rtr.ledger.Current(ids.token, r.next.user, rtr.ledger.now + 1_209_600_000))
                && (r.next.Tokens? || rtr.db == old(rtr.db))
                && repo.devices == (if !r.next.Tokens? || fingerprint == "" then old(repo.devices)
                                    else old(repo.devices)[Device(r.next.user, fingerprint) := Seen(Nullable(name), now)])
      ensures r.Routed? && phone in repo.credentials ==>
                var user := repo.credentials[phone];
                match repo.users[user].status
                case Active =>
                  r.next == if fingerprint == "" || Device(user, fingerprint) in repo.devices then Outcome.Tokens(user) else VerificationRequired(user)
                case Dormant => r.next == ReactivationRequired(user)
                case _ => r.next == LoginNotAllowed
    {
      var verdict := otp.Verify(phone, code);
      if verdict != OtpModel.Accepted {
        return Refused(verdict);
      }
      var o := Route(phone, fingerprint, name, now);
      var pair := Start(o, now, ids);
      return Routed(o, pair, FlowTokenFor(issuer, now, phone, o));
    }

    /** A new ACTIVE account for the phone of the flow token, and its first session. */
    method CompleteSignup(now: nat, tok: Tokens.Presented, nickname: string, image: string, fingerprint: string, name: string,
                          month: string, fault: Fault, ids: Ids) returns (o: Outcome, pair: Option<Refreshed>)
      requires repo.Valid() && rtr.Valid() && Unused(rtr.ledger, ids)
      modifies repo, rtr
      ensures repo.Valid() && rtr.Valid()
      ensures var phone := issuer.VerifyFlowToken(now, tok, SIGNUP);
              o.Tokens? || o == (if phone == None then InvalidFlowToken
                                 else if phone.value in old(repo.credentials) && fault != AtUser && fault != AtCredential then CredentialConflict
                                 else Failed)
      ensures o.Tokens? <==>
                && issuer.VerifyFlowToken(now, tok, SIGNUP).Some? && fault == NoFault
                && issuer.VerifyFlowToken(now, tok, SIGNUP).value !in old(repo.credentials)
      ensures o.Tokens? ==>
                && o.user !in old(repo.users) && repo.users == old(repo.users)[o.user := Account(Active, month)]
                && repo.profiles == old(repo.profiles)[o.user := Profile(nickname, Nullable(image))]
                && repo.credentials == old(repo.credentials)[issuer.VerifyFlowToken(now, tok, SIGNUP).value := o.user]
                && repo.outbox == old(repo.outbox) + [Events.Row(o.user, nickname, false)]
                && repo.devices == (if fingerprint == "" then old(repo.devices)
                                    else old(repo.devices)[Device(o.user, fingerprint) := Seen(Nullable(name), now)])
      ensures Opens(o, pair, old(rtr.ledger), rtr.ledger, ids, issuer, now, repo.users, repo.profiles)
      ensures o.Tokens? ==> pair.value.refresh == ids.token && rtr.ledger.Current(ids.token, o.user, rtr.ledger.now + 1_209_600_000)
      ensures !o.Tokens? ==>
                && repo.users == old(repo.users) && repo.credentials == old(repo.credentials) && repo.devices == old(repo.devices)
                && repo.profiles == old(repo.profiles) && repo.outbox == old(repo.outbox) && rtr.db == old(rtr.db)
    {
      o := SignUp(now, tok, nickname, image, fingerprint, name, month, fault);
      pair := Start(o, now, ids);
    }

    /** CompleteSignup up to its session. */
    method SignUp(now: nat, tok: Tokens.Presented, nickname: string, image: string, fingerprint: string, name: string,
                  month: string, fault: Fault) returns (o: Outcome)
      requires repo.Valid()
      modifies repo
      ensures repo.Valid()
      ensures var phone := issuer.VerifyFlowToken(now, tok, SIGNUP);
              o.Tokens? || o == (if phone == None then InvalidFlowToken
                                 else if phone.value in old(repo.credentials) && fault != AtUser && fault != AtCredential then CredentialConflict
                                 else Failed)
      ensures o.Tokens? <==>
                && issuer.VerifyFlowToken(now, tok, SIGNUP).Some? && fault == NoFault
                && issuer.VerifyFlowToken(now, tok, SIGNUP).value !in old(repo.credentials)
      ensures o.Tokens? ==>
                && o.user !in old(repo.users) && repo.users == old(repo.users)[o.user := Account(Active, month)]
                && repo.profiles == old(repo.profiles)[o.user := Profile(nickname, Nullable(image))]
                && repo.credentials == old(repo.credentials)[issuer.VerifyFlowToken(now, tok, SIGNUP).value := o.user]
                && repo.outbox == old(repo.outbox) + [Events.Row(o.user, nickname, false)]
                && repo.devices == (if fingerprint == "" then old(repo.devices)
                                    else old(repo.devices)[Device(o.user, fingerprint) := Seen(Nullable(name), now)])
      ensures !o.Tokens? ==>
                && repo.users == old(repo.users) && repo.credentials == old(repo.credentials) && repo.devices == old(repo.devices)
                && repo.profiles == old(repo.profiles) && repo.outbox == old(repo.outbox)
    {
      var phone := issuer.VerifyFlowToken(now, tok, SIGNUP);
      if phone == None {
        return InvalidFlowToken;
      }
      if !CanTransition(Pending, Active) {
        return InvalidTransition;
      }
      var created := repo.CreateUser(phone.value, nickname, image, Active, month, fault);
      match created {
        case Conflict => return CredentialConflict;
        case Error => return Failed;
        case Created(user) =>
          if fingerprint != "" {
            var _ := repo.UpsertDevice(user, fingerprint, name, now);
          }
          return Outcome.Tokens(user);
      }
    }

    /** With consent, the account of the flow token becomes ACTIVE out of any status that allows it. */
    method CompleteReactivation(now: nat, tok: Tokens.Presented, consent: bool, fingerprint: string, name: string, ids: Ids)
      returns (o: Outcome, pair: Option<Refreshed>)
      requires repo.Valid() && rtr.Valid() && Unused(rtr.ledger, ids)
      modifies repo`users, repo`devices, rtr
      ensures repo.Valid() && rtr.Valid()
      ensures Reactivates(o, consent, issuer.FlowUserID(now, tok, REACTIVATION), old(repo.users), repo.users)
      ensures repo.devices == if !o.Tokens? || fingerprint == "" then old(repo.devices)
                              else old(repo.devices)[Device(o.user, fingerprint) := Seen(Nullable(name), now)]
      ensures Opens(o, pair, old(rtr.ledger), rtr.ledger, ids, issuer, now, repo.users, repo.profiles)
      ensures o.Tokens? ==> pair.value.refresh == ids.token && rtr.ledger.Current(ids.token, o.user, rtr.ledger.now + 1_209_600_000)
      ensures !o.Tokens? ==> rtr.db == old(rtr.db)
    {
      o := Reactivate(now, tok, consent);
      pair := None;
      if o.Tokens? {
        pair := FinishLogin(o.user, fingerprint, name, now, ids);
      }
    }

    /** CompleteReactivation up to its device and session. */
    method Reactivate(now: nat, tok: Tokens.Presented, consent: bool) returns (o: Outcome)
      requires repo.Valid()
      modifies repo`users
      ensures repo.Valid()
      ensures Reactivates(o, consent, issuer.FlowUserID(now, tok, REACTIVATION), old(repo.users), repo.users)
    {
      if !consent {
        return ConsentRequired;
      }
      var user := issuer.FlowUserID(now, tok, REACTIVATION);
      if user == None {
        return InvalidFlowToken;
      }
      var found := repo.FindByID(user.value);
      if found == NotFound {
        return UserNotFound;
      }
      if !CanTransition(found.account.status, Active) {
        return InvalidTransition;
      }
      repo.UpdateStatus(user.value, Active);
      return Outcome.Tokens(user.value);
    }

    /** At most three attempts are counted; the right month clears them and registers the device,
        whatever the status of the account. */
    method VerifyDevice(now: nat, tok: Tokens.Presented, month: string, fingerprint: string, name: string, expires: bool, ids: Ids)
      returns (o: Outcome, pair: Option<Refreshed>)
      requires repo.Valid() && limiter.Valid() && rtr.Valid() && Unused(rtr.ledger, ids)
      modifies repo`devices, limiter, rtr
      ensures repo.Valid() && limiter.Valid() && rtr.Valid()
      ensures var user := issuer.FlowUserID(now, tok, DEVICE_VERIFY);
              && (o.Tokens? || o == (if user == None then InvalidFlowToken else if old(limiter.Live(user.value)) >= 3 then TooManyAttempts
                                     else if user.value !in repo.users then UserNotFound else VerifyFailed))
              && (o.Tokens? <==>
                    && user.Some? && old(limiter.Live(user.value)) < 3
                    && user.value in repo.users && repo.users[user.value].month == month)
              && (o.Tokens? ==> o.user == user.value && user.value !in limiter.counters)
              && (user.Some? && !o.Tokens? ==>
                    user.value in limiter.counters && limiter.counters[user.value].count == old(limiter.Live(user.value)) + 1)
      ensures Opens(o, pair, old(rtr.ledger), rtr.ledger, ids, issuer, now, repo.users, repo.profiles)
      ensures o.Tokens? ==> pair.value.refresh == ids.token && rtr.ledger.Current(ids.token, o.user, rtr.ledger.now + 1_209_600_000)
      ensures repo.devices == if !o.Tokens? || fingerprint == "" then old(repo.devices)
                              else old(repo.devices)[Device(o.user, fingerprint) := Seen(Nullable(name), now)]
      ensures !o.Tokens? ==> rtr.db == old(rtr.db)
    {
      o := Challenge(now, tok, month, expires);
      pair := None;
      if o.Tokens? {
        pair := FinishLogin(o.user, fingerprint, name, now, ids);
      }
    }

    /** VerifyDevice up to its device and session. */
    method Challenge(now: nat, tok: Tokens.Presented, month: string, expires: bool) returns (o: Outcome)
      requires limiter.Valid()
      modifies limiter
      ensures limiter.Valid()
      ensures var user := issuer.FlowUserID(now, tok, DEVICE_VERIFY);
              && (o.Tokens? || o == (if user == None then InvalidFlowToken else if old(limiter.Live(user.value)) >= 3 then TooManyAttempts
                                     else if user.value !in repo.users then UserNotFound else VerifyFailed))
              && (o.Tokens? <==>
                    && user.Some? && old(limiter.Live(user.value)) < 3
                    && user.value in repo.users && repo.users[user.value].month == month)
              && (o.Tokens? ==> o.user == user.value && user.value !in limiter.counters)
              && (user.Some? && !o.Tokens? ==>
                    user.value in limiter.counters && limiter.counters[user.value].count == old(limiter.Live(user.value)) + 1)
    {
      var user := issuer.FlowUserID(now, tok, DEVICE_VERIFY);
      if user == None {
        return InvalidFlowToken;
      }
      var allowed := limiter.Attempt(user.value, expires);
      if !allowed {
        return TooManyAttempts;
      }
      var found := repo.FindByID(user.value);
      if found == NotFound {
        return UserNotFound;
      }
      if found.account.month != month {
        return VerifyFailed;
      }
      limiter.Reset(user.value);
      return Outcome.Tokens(user.value);
    }

    /** The refresh_token grant: the rotation is committed before the user is read. */
    method Refresh(now: nat, grantType: string, refreshToken: RtrRedis.Token, next: RtrRedis.Token) returns (r: Refreshed)
      requires repo.Valid() && rtr.Valid() && next != RtrRedis.NoToken && next !in rtr.ledger.minted
      modifies rtr
      ensures rtr.Valid()
      ensures r == UnsupportedGrant <==> grantType != "refresh_token"
      ensures r == UnsupportedGrant ==> rtr.db == old(rtr.db) && rtr.ledger == old(rtr.ledger)
      ensures r != UnsupportedGrant ==>
                && rtr.ledger == RtrStore.Decided(old(rtr.ledger), refreshToken, next).0
                && Answers(r, RtrStore.Decided(old(rtr.ledger), refreshToken, next).1, issuer, now, repo.users, repo.profiles)
      ensures r.Pair? ==> r.refresh == next
      ensures HandsOn(r, rtr.ledger, repo.users)
      ensures forall user, until :: old(rtr.ledger).Current(refreshToken, user, until) && user in repo.users && grantType == "refresh_token" ==>
                r.Pair?
    {
      if grantType != REFRESH_GRANT {
        return UnsupportedGrant;
      }
      ghost var before := rtr.ledger;
      r := Exchange(now, refreshToken, next);
      SessionGoesOn(r, before, refreshToken, next, issuer, now, repo.users, repo.profiles);
    }

    method Exchange(now: nat, refreshToken: RtrRedis.Token, next: RtrRedis.Token) returns (r: Refreshed)
      requires repo.Valid() && rtr.Valid() && next != RtrRedis.NoToken && next !in rtr.ledger.minted
      modifies rtr
      ensures rtr.Valid()
      ensures rtr.ledger == RtrStore.Decided(old(rtr.ledger), refreshToken, next).0
      ensures Answers(r, RtrStore.Decided(old(rtr.ledger), refreshToken, next).1, issuer, now, repo.users, repo.profiles)
      ensures r != UnsupportedGrant
    {
      var out := rtr.Rotate(refreshToken, next);
      if !out.Rotated? {
        return Rejected(out);
      }
      var found := repo.FindByID(out.user);
      if found == NotFound {
        return NoUser;
      }
      return PairFor(issuer, now, out.user, found.account, repo.profiles[out.user], out.next);
    }

    /** The device and the session of a user who proved control of the account. */
    method FinishLogin(user: int, fingerprint: string, name: string, now: nat, ids: Ids) returns (pair: Option<Refreshed>)
      requires repo.Valid() && user in repo.users
      requires rtr.Valid() && Unused(rtr.ledger, ids)
      modifies repo`devices, rtr
      ensures repo.Valid() && rtr.Valid()
      ensures Opens(Outcome.Tokens(user), pair, old(rtr.ledger), rtr.ledger, ids, issuer, now, repo.users, repo.profiles)
      ensures rtr.ledger.Current(ids.token, user, rtr.ledger.now + 1_209_600_000)
      ensures repo.devices == if fingerprint == "" then old(repo.devices)
                              else old(repo.devices)[Device(user, fingerprint) := Seen(Nullable(name), now)]
    {
      if fingerprint != "" {
        var _ := repo.UpsertDevice(user, fingerprint, name, now);
      }
      pair := IssueTokens(user, repo.users[user], now, ids);
    }
  }

  /** A session for the user of a rotation, with the token of the rotation; anything else is no session. */
  ghost predicate Answers(r: Refreshed, out: RtrRedis.Outcome, issuer: Tokens.Issuer, now: nat, users: map<int, Account>,
                          profiles: map<int, Profile>) {
    if !out.Rotated? then r == Rejected(out)
    else if out.user !in users || out.user !in profiles then r == NoUser
    else IsSession(r, issuer, now, out.user, users[out.user], profiles[out.user], out.next)
  }

  /** The refresh token of a session is current for the user of its access token, for 14 days. */
  ghost predicate HandsOn(r: Refreshed, l: RtrLedger.Ledger, users: map<int, Account>) {
    r.Pair? ==>
      exists user :: l.Current(r.refresh, user, l.now + 1_209_600_000) && user in users
                     && r.access.Jwt? && r.access.claims.sub == Some(Format(user))
  }

  lemma SessionGoesOn(r: Refreshed, l: RtrLedger.Ledger, t: RtrRedis.Token, next: RtrRedis.Token, issuer: Tokens.Issuer, now: nat,
                      users: map<int, Account>, profiles: map<int, Profile>)
    requires l.Valid() && next !in l.minted && profiles.Keys == users.Keys
    requires Answers(r, RtrStore.Decided(l, t, next).1, issuer, now, users, profiles)
    ensures HandsOn(r, RtrStore.Decided(l, t, next).0, users) && (forall user, until :: l.Current(t, user, until) && user in users ==> r.Pair?)
            && (r.Pair? ==> r.refresh == next)
  {
    var (l', out) := RtrStore.Decided(l, t, next);
    if r.Pair? {
      RtrStore.RotatedIsCurrent(l, t, next);
      assert l'.Current(r.refresh, out.user, l'.now + 1_209_600_000);
    }
    forall user, until | l.Current(t, user, until) && user in users ensures r.Pair? {
      RtrStore.CurrentRotates(l, t, user, until, next);
    }
  }

  /** The access token of a session is accepted by a resource server until it ends, and says who the user
      is and which status the account had: every status refreshes.  The identity token is for the
      browser alone and tells the nickname; neither continues a login flow. */
  lemma RefreshedSessionVerifies(r: Refreshed, issuer: Tokens.Issuer, keys: map<string, nat>, minted: nat, now: nat, user: int,
                                 account: Account, profile: Profile, refresh: RtrRedis.Token)
    requires IsSession(r, issuer, minted, user, account, profile, refresh)
    requires issuer.kid != "" && issuer.kid in keys && keys[issuer.kid] == issuer.key
    requires IsInt64(user) && now < ((minted + 900_000) / 1000) * 1000
    ensures var status := match account.status
              case Pending => "PENDING" case Active => "ACTIVE" case Dormant => "DORMANT" case Suspended => "SUSPENDED"
              case Deleted => "DELETED";
            var v := Tokens.Verify(keys, issuer.issuer, "board", now, r.access);
            v == Tokens.Verified(Format(user), status) && ParseInt(v.subject) == Some(user)
    ensures Tokens.Verify(keys, issuer.issuer, "poc-frontend", now, r.identity) == Tokens.Verified(Format(user), "")
    ensures r.identity.claims.nickname == Some(profile.nickname)
    ensures !Tokens.Verify(keys, issuer.issuer, "board", now, r.identity).Verified?
    ensures issuer.VerifyFlowToken(now, r.access, DEVICE_VERIFY) == None
  {
    var access, identity := Tokens.Access(user, StatusName(account.status)), Tokens.Identity(user, profile.nickname);
    assert r.access == Tokens.Mint(issuer, minted, access) && r.identity == Tokens.Mint(issuer, minted, identity);
    Tokens.BoardAcceptsAccessOnly(issuer, keys, minted, now, access);
    Tokens.BoardAcceptsAccessOnly(issuer, keys, minted, now, identity);
    Tokens.VerifyAccepts(issuer, keys, issuer.issuer, "poc-frontend", minted, now, identity);
    Tokens.FormatIsNotEmpty(user);
    Tokens.FlowAcceptsItsPurposeOnly(issuer, minted, now, access, DEVICE_VERIFY);
  }

  ghost predicate IsCurrent(l: RtrLedger.Ledger, t: RtrRedis.Token, users: map<int, Account>) {
    exists user :: l.Current(t, user, l.now + 1_209_600_000) && user in users
  }

  lemma CurrentLasts(l: RtrLedger.Ledger, t: RtrRedis.Token, users: map<int, Account>, wait: nat) returns (user: int, until: nat)
    requires IsCurrent(l, t, users) && wait < 1_209_600_000
    ensures l.(now := l.now + wait).Current(t, user, until) && user in users
  {
    until := l.now + 1_209_600_000;
    user :| l.Current(t, user, until) && user in users;
  }

  /** A token that is current, the one of a login say, opens the next session when it is presented in
      time. */
  method RefreshLater(auth: Auth, t: RtrRedis.Token, wait: nat, now: nat, next: RtrRedis.Token) returns (r: Refreshed)
    requires auth.repo.Valid() && auth.rtr.Valid() && next != RtrRedis.NoToken && next !in auth.rtr.ledger.minted
    requires wait < 1_209_600_000 && IsCurrent(auth.rtr.ledger, t, auth.repo.users)
    modifies auth.rtr
    ensures auth.rtr.Valid() && r.Pair? && r.refresh == next
  {
    ghost var user, until := CurrentLasts(auth.rtr.ledger, t, auth.repo.users, wait);
    auth.rtr.Advance(wait);
    assert auth.rtr.ledger.Current(t, user, until);
    r := auth.Refresh(now, "refresh_token", t, next);
  }

  /** So a session that was refreshed once is refreshed again. */
  method RefreshTwice(auth: Auth, now: nat, t: RtrRedis.Token, next: RtrRedis.Token, wait: nat, later: nat, next2: RtrRedis.Token)
    returns (r: Refreshed, r2: Refreshed)
    requires auth.repo.Valid() && auth.rtr.Valid() && next != RtrRedis.NoToken && next !in auth.rtr.ledger.minted
    requires next2 != RtrRedis.NoToken && next2 !in auth.rtr.ledger.minted + {next} && wait < 1_209_600_000
    modifies auth.rtr
    ensures auth.rtr.Valid() && (r.Pair? ==> r2.Pair?)
  {
    r := auth.Refresh(now, "refresh_token", t, next);
    r2 := r;
    if r.Pair? {
      r2 := RefreshLater(auth, r.refresh, wait, later, next2);
    }
  }

  lemma PurposesDiffer()
    ensures SIGNUP != REACTIVATION && SIGNUP != DEVICE_VERIFY && REACTIVATION != DEVICE_VERIFY
  {
    assert |SIGNUP| != |REACTIVATION| && |SIGNUP| != |DEVICE_VERIFY| && |REACTIVATION| != |DEVICE_VERIFY|;
  }

  /** The continuation that VerifyOtp hands out works for its own flow alone, and carries exactly
      the phone or the user it was handed out for. */
  lemma ContinuationIsBound(issuer: Tokens.Issuer, minted: nat, now: nat, phone: string, o: Outcome, purpose: string)
    requires FlowTokenFor(issuer, minted, phone, o).Some? && phone != ""
    requires o.ReactivationRequired? || o.VerificationRequired? ==> IsInt64(o.user)
    requires now < ((minted + Tokens.FLOW_TTL) / 1000) * 1000
    ensures var tok := FlowTokenFor(issuer, minted, phone, o).value;
            && (purpose == SIGNUP ==> issuer.VerifyFlowToken(now, tok, purpose) == if o.SignupRequired? then Some(phone) else None)
            && (purpose == REACTIVATION ==> issuer.FlowUserID(now, tok, purpose) == if o.ReactivationRequired? then Some(o.user) else None)
            && (purpose == DEVICE_VERIFY ==> issuer.FlowUserID(now, tok, purpose) == if o.VerificationRequired? then Some(o.user) else None)
  {
    PurposesDiffer();
    match o {
      case SignupRequired => Tokens.FlowAcceptsItsPurposeOnly(issuer, minted, now, Tokens.Flow(SIGNUP, phone), purpose);
      case ReactivationRequired(user) =>
        Tokens.FlowAcceptsItsPurposeOnly(issuer, minted, now, Tokens.Flow(REACTIVATION, Format(user)), purpose);
        Tokens.FlowKeepsUser(issuer, minted, now, REACTIVATION, user);
      case VerificationRequired(user) =>
        Tokens.FlowAcceptsItsPurposeOnly(issuer, minted, now, Tokens.Flow(DEVICE_VERIFY, Format(user)), purpose);
        Tokens.FlowKeepsUser(issuer, minted, now, DEVICE_VERIFY, user);
      case _ =>
    }
  }
}
