/** Codes, flow tokens and accounts in one run: what an account or a session rests on.

    A call of VerifyOtp is one call of the code store and, once its DEL is done, one call on the
    accounts; the later calls of a flow begin with a token.  The handler lets no empty code through
    (services/identity/internal/delivery/grpc/handler.go). */
module PhoneProof {
  import opened Decimal
  import opened Accounts
  import Otp = OtpModel
  import OtpProofs
  import OtpStore
  import AccountsProofs
  import AuthFlows
  import Tokens

  // A code that VerifyOtp accepted, and when it was compared.
  datatype Login = Login(phone: string, code: string, at: nat)

  // A flow token: what VerifyOtp found, for which login, and when it was minted.
  datatype Given = Given(found: Outcome, login: nat, at: nat)

  // How a call on the accounts began: the login behind it, if any, when the login was answered, and when the call began.
  datatype Entry = Entry(login: Option<nat>, answered: nat, at: nat)

  datatype World = World(
    otp: Otp.System,
    accounts: System,
    logins: seq<Login>,
    given: seq<Given>,
    entries: map<nat, Entry>)

  const START := World(Otp.INIT, INIT, [], [], map[])

  // What a caller can present: a flow token that was handed out, another token of the issuer, or
  // one that the issuer did not sign.
  datatype Held =
    | FlowToken(g: nat)
    | Other(class_: Tokens.Class, minted: nat)
    | Foreign(tok: Tokens.Presented)

  datatype Action =
    | Tick(d: nat)
    | OnCode(step: Otp.Event)                              // a step of the code store
    | Enter(id: nat, fingerprint: string)                  // the DEL of an accepted code; VerifyOtp goes on
    | Reply(id: nat)                                       // VerifyOtp answers with a flow token
    | Present(id: nat, held: Held, entry: Phase)           // a call with a token
    | OnAccount(e: Event)                                  // a step on the accounts

  predicate IsOwn(e: Otp.Event) {
    !e.Tick? && (e.Guess? ==> e.code != "")
  }

  predicate IsOnward(e: Event) {
    !e.Tick? && !e.Begin? && (e.Create? ==> IsInt64(e.user))
  }

  function Presented(w: World, issuer: Tokens.Issuer, held: Held): Tokens.Presented {
    match held
    case FlowToken(g) =>
      if g < |w.given| && w.given[g].login < |w.logins| then
        var flow := AuthFlows.FlowFor(w.logins[w.given[g].login].phone, w.given[g].found);
        if flow.Some? then Tokens.Mint(issuer, w.given[g].at, flow.value) else Tokens.Garbage
      else Tokens.Garbage
    case Other(class_, minted) => if class_.Flow? then Tokens.Garbage else Tokens.Mint(issuer, minted, class_)
    case Foreign(tok) => if tok.Jwt? && tok.signer == issuer.key then Tokens.Garbage else tok
  }

  /** Whether the token lets its caller begin here. */
  predicate Admits(issuer: Tokens.Issuer, now: nat, tok: Tokens.Presented, entry: Phase) {
    match entry
    case SigningUp(phone, _) => issuer.VerifyFlowToken(now, tok, AuthFlows.SIGNUP) == Some(phone)
    case Reactivating(user, _) => issuer.FlowUserID(now, tok, AuthFlows.REACTIVATION) == Some(user)
    case Challenged(user, _, _) => issuer.FlowUserID(now, tok, AuthFlows.DEVICE_VERIFY) == Some(user)
    case _ => false
  }

  function DoEnter(w: World, id: nat, fingerprint: string): World
    requires id in w.otp.calls && w.otp.calls[id].Matched?
  {
    var p, now := w.otp.calls[id], w.otp.db.now;
    w.(otp := Otp.Apply(w.otp, Otp.Drop(id)),
       accounts := To(w.accounts, id, LoggingIn(p.phone, fingerprint)),
       logins := w.logins + [Login(p.phone, p.code, p.at)],
       entries := w.entries[id := Entry(Some(|w.logins|), now, now)])
  }

  function DoReply(w: World, id: nat, o: Outcome, login: nat): World
    requires login < |w.logins|
  {
    if AuthFlows.FlowFor(w.logins[login].phone, o).Some? then w.(given := w.given + [Given(o, login, w.otp.db.now)]) else w
  }

  function DoPresent(w: World, id: nat, held: Held, entry: Phase): World {
    var from := if held.FlowToken? && held.g < |w.given| then
                  Entry(Some(w.given[held.g].login), w.given[held.g].at, w.otp.db.now)
                else Entry(None, w.otp.db.now, w.otp.db.now);
    w.(accounts := To(w.accounts, id, entry), entries := w.entries[id := from])
  }

  function Step(issuer: Tokens.Issuer, w: World, a: Action): World {
    match a
    case Tick(d) => w.(otp := Otp.Apply(w.otp, Otp.Tick(d)), accounts := Apply(w.accounts, Event.Tick(d)))
    case OnCode(e) => if IsOwn(e) then w.(otp := Otp.Apply(w.otp, e)) else w
    case Enter(id, fingerprint) =>
      if id in w.otp.calls && w.otp.calls[id].Matched? && id !in w.accounts.calls then DoEnter(w, id, fingerprint) else w
    case Reply(id) =>
      if id in w.accounts.calls && w.accounts.calls[id].Done? && id in w.entries && w.entries[id].login.Some?
         && w.entries[id].login.value < |w.logins|
      then DoReply(w, id, w.accounts.calls[id].outcome, w.entries[id].login.value)
      else w
    case Present(id, held, entry) =>
      if id !in w.accounts.calls && Admits(issuer, w.otp.db.now, Presented(w, issuer, held), entry)
      then DoPresent(w, id, held, entry)
      else w
    case OnAccount(e) => if IsOnward(e) then w.(accounts := Apply(w.accounts, e)) else w
  }

  function Run(issuer: Tokens.Issuer, w: World, actions: seq<Action>): World
    decreases actions
  {
    if actions == [] then w else Run(issuer, Step(issuer, w, actions[0]), actions[1..])
  }

  // ---- whose call it is

  ghost predicate Maps(phones: map<string, int>, phone: string, user: int) {
    phone in phones && phones[phone] == user && IsInt64(user)
  }

  function PhoneOf(p: Phase): Option<string> {
    match p
    case LoggingIn(phone, _) => Some(phone)
    case SigningUp(phone, _) => Some(phone)
    case SignedUp(_, phone, _) => Some(phone)
    case _ => None
  }

  function UserOf(p: Phase): Option<int> {
    match p
    case CheckingDevice(user, _) => Some(user)
    case KnownDevice(user, _) => Some(user)
    case SignedUp(user, _, _) => Some(user)
    case Reactivating(user, _) => Some(user)
    case Allowed(user, _, _) => Some(user)
    case Reactivated(user, _, _) => Some(user)
    case Challenged(user, _, _) => Some(user)
    case First(user, _, _, _) => Some(user)
    case Admitted(user, _, _, _) => Some(user)
    case Matched(user, _, _) => Some(user)
    case Cleared(user, _, _) => Some(user)
    case Done(Tokens(user)) => Some(user)
    case Done(ReactivationRequired(user)) => Some(user)
    case Done(VerificationRequired(user)) => Some(user)
    case _ => None
  }

  /** The call is about this phone, and about no account but the one of this phone. */
  ghost predicate About(phones: map<string, int>, phone: string, p: Phase) {
    && (PhoneOf(p).Some? ==> PhoneOf(p).value == phone)
    && (UserOf(p).Some? ==> Maps(phones, phone, UserOf(p).value))
  }

  ghost predicate AllWide(phones: map<string, int>) {
    forall p :: p in phones ==> IsInt64(phones[p])
  }

  /** No phone ever changes hands. */
  ghost predicate PhonesStay(phones: map<string, int>, phones': map<string, int>) {
    forall p :: p in phones ==> p in phones' && phones'[p] == phones[p]
  }

  lemma NextKeepsPhones(s: System, id: nat)
    requires id in s.calls
    ensures DoNext(s, id, s.calls[id]).db.phones == s.db.phones
  {
    var p := s.calls[id];
    match p {
      case LoggingIn(phone, fingerprint) => assert DoNext(s, id, p) == DoFind(s, id, phone, fingerprint);
      case Challenged(user, fingerprint, month) => assert DoNext(s, id, p) == DoAttempt(s, id, user, fingerprint, month);
      case Admitted(user, fingerprint, month, life) => assert DoNext(s, id, p) == DoCompare(s, id, user, fingerprint, month, life);
      case _ =>
    }
  }

  lemma NextAddsNoUser(s: System, id: nat)
    requires id in s.calls
    ensures DoNext(s, id, s.calls[id]).db.users.Keys == s.db.users.Keys
  {
    var p := s.calls[id];
    if p.Allowed? {
      assert DoNext(s, id, p) == DoActivate(s, id, p.user, p.fingerprint, p.from);
    } else {
      AccountsProofs.NextKeepsUsers(s, id);
    }
  }

  lemma LoginIsAbout(s: System, id: nat, p: Phase, phone: string)
    requires AllWide(s.db.phones) && About(s.db.phones, phone, p) && p.LoggingIn?
    ensures About(s.db.phones, phone, DoFind(s, id, p.phone, p.fingerprint).calls[id])
  {
  }

  lemma NextIsAbout(s: System, id: nat, phone: string)
    requires id in s.calls && AllWide(s.db.phones) && About(s.db.phones, phone, s.calls[id])
    ensures id in DoNext(s, id, s.calls[id]).calls && About(s.db.phones, phone, DoNext(s, id, s.calls[id]).calls[id])
  {
    var p := s.calls[id];
    if p.LoggingIn? {
      LoginIsAbout(s, id, p, phone);
    } else {
      NextHasUser(s, id);
    }
  }

  /** Any command after the first keeps the user, until the call ends without one. */
  lemma NextHasUser(s: System, id: nat)
    requires id in s.calls && !s.calls[id].LoggingIn?
    ensures id in DoNext(s, id, s.calls[id]).calls
    ensures var p, p' := s.calls[id], DoNext(s, id, s.calls[id]).calls[id];
            (UserOf(p') == UserOf(p) || UserOf(p') == None) && (PhoneOf(p') == PhoneOf(p) || PhoneOf(p') == None)
  {
    var p := s.calls[id];
    match p {
      case CheckingDevice(user, fingerprint) => assert DoNext(s, id, p) == DoCheck(s, id, user, fingerprint);
      case Reactivating(user, fingerprint) => assert DoNext(s, id, p) == DoAllow(s, id, user, fingerprint);
      case Challenged(user, fingerprint, month) => assert DoNext(s, id, p) == DoAttempt(s, id, user, fingerprint, month);
      case Admitted(user, fingerprint, month, life) => assert DoNext(s, id, p) == DoCompare(s, id, user, fingerprint, month, life);
      case _ =>
    }
  }

  /** A call stays about the phone and the account it began with. */
  lemma StepIsAbout(s: System, e: Event, id: nat, phone: string)
    requires IsOnward(e) && id in s.calls && AllWide(s.db.phones) && About(s.db.phones, phone, s.calls[id])
    ensures id in Apply(s, e).calls && About(Apply(s, e).db.phones, phone, Apply(s, e).calls[id])
  {
    if e.Next? {
      if e.id in s.calls {
        AccountsProofs.NextMoves(s, e.id);
        NextKeepsPhones(s, e.id);
        NextIsAbout(s, id, phone);
      }
    } else {
      OtherIsAbout(s, e, id, phone);
    }
  }

  lemma OtherIsAbout(s: System, e: Event, id: nat, phone: string)
    requires IsOnward(e) && !e.Next? && id in s.calls && AllWide(s.db.phones) && About(s.db.phones, phone, s.calls[id])
    ensures id in Apply(s, e).calls && About(Apply(s, e).db.phones, phone, Apply(s, e).calls[id])
  {
  }

  /** Accounts come from signups alone, each for the phone of its call. */
  lemma UsersComeFromSignups(s: System, e: Event, user: int)
    requires IsOnward(e) && AllWide(s.db.phones)
    ensures AllWide(Apply(s, e).db.phones) && PhonesStay(s.db.phones, Apply(s, e).db.phones)
    ensures Apply(s, e).calls.Keys == s.calls.Keys
    ensures user in Apply(s, e).db.users && user !in s.db.users ==>
              && e.Create? && e.id in s.calls && s.calls[e.id].SigningUp?
              && Maps(Apply(s, e).db.phones, s.calls[e.id].phone, user)
  {
    match e {
      case Next(k) =>
        if k in s.calls {
          AccountsProofs.NextMoves(s, k);
          NextKeepsPhones(s, k);
          NextAddsNoUser(s, k);
        }
      case _ =>
    }
  }

  // ---- the invariant

  /** An unexpired code that was issued to the phone was presented. */
  ghost predicate Unexpired(issued: seq<Otp.Issued>, l: Login) {
    exists at: nat :: at <= l.at < at + 180_000 && Otp.Issued(l.phone, l.code, at) in issued
  }

  /** No guess is empty, and a match is not in the future. */
  ghost predicate CallOk(s: Otp.System, p: Otp.Phase) {
    (p.Guessing? || p.Matched? ==> p.code != "") && (p.Matched? ==> p.at <= s.db.now)
  }

  ghost predicate OtpOk(s: Otp.System) {
    OtpProofs.CodesOk(s) && forall id :: id in s.calls ==> CallOk(s, s.calls[id])
  }

  ghost predicate LoginsOk(otp: Otp.System, logins: seq<Login>) {
    forall k :: 0 <= k < |logins| ==> Unexpired(otp.issued, logins[k]) && logins[k].at <= otp.db.now
  }

  ghost predicate GivenOk(phones: map<string, int>, logins: seq<Login>, now: nat, g: Given) {
    && g.login < |logins| && logins[g.login].at <= g.at <= now
    && About(phones, logins[g.login].phone, Done(g.found))
  }

  /** The call goes back to a login of its phone, answered at most ten minutes before it began. */
  ghost predicate EntryOk(phones: map<string, int>, logins: seq<Login>, now: nat, e: Entry, p: Phase) {
    && e.login.Some? && e.login.value < |logins|
    && logins[e.login.value].at <= e.answered <= e.at < e.answered + Tokens.FLOW_TTL && e.at <= now
    && About(phones, logins[e.login.value].phone, p)
  }

  ghost predicate HasLogin(phones: map<string, int>, logins: seq<Login>, user: int) {
    exists k :: 0 <= k < |logins| && Maps(phones, logins[k].phone, user)
  }

  ghost predicate CallsOk(w: World) {
    && w.accounts.calls.Keys <= w.entries.Keys
    && (forall id :: id in w.accounts.calls ==>
          EntryOk(w.accounts.db.phones, w.logins, w.otp.db.now, w.entries[id], w.accounts.calls[id]))
  }

  ghost predicate Inv(w: World) {
    && OtpOk(w.otp) && LoginsOk(w.otp, w.logins) && AllWide(w.accounts.db.phones)
    && (forall g :: 0 <= g < |w.given| ==> GivenOk(w.accounts.db.phones, w.logins, w.otp.db.now, w.given[g]))
    && CallsOk(w)
    && (forall u :: u in w.accounts.db.users ==> HasLogin(w.accounts.db.phones, w.logins, u))
  }

  // ---- every step keeps it

  lemma OneStep(s: Otp.System, e: Otp.Event)
    ensures Otp.Exec(s, [e]) == Otp.Apply(s, e)
  {
    assert [e][1..] == [];
  }

  lemma MatchesAreDated(s: Otp.System, e: Otp.Event, id: nat)
    requires id in Otp.Apply(s, e).calls && (e.Guess? ==> e.code != "")
    requires id in s.calls ==> CallOk(s, s.calls[id])
    ensures CallOk(Otp.Apply(s, e), Otp.Apply(s, e).calls[id])
  {
  }

  lemma OtpKeeps(s: Otp.System, e: Otp.Event)
    requires OtpOk(s) && (e.Guess? ==> e.code != "")
    ensures OtpOk(Otp.Apply(s, e))
  {
    OtpProofs.CodesKept(s, [e]);
    OneStep(s, e);
    forall id | id in Otp.Apply(s, e).calls ensures CallOk(Otp.Apply(s, e), Otp.Apply(s, e).calls[id]) {
      MatchesAreDated(s, e, id);
    }
  }

  lemma IssuedGrows(s: Otp.System, e: Otp.Event)
    ensures var s' := Otp.Apply(s, e);
            && s'.db.now >= s.db.now && |s'.issued| >= |s.issued| && s'.issued[..|s.issued|] == s.issued
  {
  }

  lemma LoginsStay(otp: Otp.System, otp': Otp.System, logins: seq<Login>)
    requires LoginsOk(otp, logins) && otp'.db.now >= otp.db.now
    requires |otp'.issued| >= |otp.issued| && otp'.issued[..|otp.issued|] == otp.issued
    ensures LoginsOk(otp', logins)
  {
    forall k | 0 <= k < |logins| ensures Unexpired(otp'.issued, logins[k]) {
      var at: nat :| at <= logins[k].at < at + Otp.CODE_TTL && Otp.Issued(logins[k].phone, logins[k].code, at) in otp.issued;
      assert Otp.Issued(logins[k].phone, logins[k].code, at) in otp'.issued[..|otp.issued|];
    }
  }

  lemma CodeStepKeeps(w: World, e: Otp.Event)
    requires Inv(w) && (e.Guess? ==> e.code != "")
    ensures Inv(w.(otp := Otp.Apply(w.otp, e)))
  {
    OtpKeeps(w.otp, e);
    IssuedGrows(w.otp, e);
    LoginsStay(w.otp, Otp.Apply(w.otp, e), w.logins);
  }

  lemma TickKeeps(w: World, d: nat)
    requires Inv(w)
    ensures Inv(w.(otp := Otp.Apply(w.otp, Otp.Tick(d)), accounts := Apply(w.accounts, Event.Tick(d))))
  {
    CodeStepKeeps(w, Otp.Tick(d));
  }

  lemma AccountStepKeeps(w: World, e: Event)
    requires Inv(w) && IsOnward(e)
    ensures Inv(w.(accounts := Apply(w.accounts, e)))
  {
    var s, s' := w.accounts, Apply(w.accounts, e);
    UsersComeFromSignups(s, e, 0);
    forall id | id in s'.calls
      ensures EntryOk(s'.db.phones, w.logins, w.otp.db.now, w.entries[id], s'.calls[id])
    {
      StepIsAbout(s, e, id, w.logins[w.entries[id].login.value].phone);
    }
    forall u | u in s'.db.users ensures HasLogin(s'.db.phones, w.logins, u) {
      UserKeepsLogin(w, e, u);
    }
  }

  lemma UserKeepsLogin(w: World, e: Event, u: int)
    requires Inv(w) && IsOnward(e) && u in Apply(w.accounts, e).db.users
    ensures HasLogin(Apply(w.accounts, e).db.phones, w.logins, u)
  {
    UsersComeFromSignups(w.accounts, e, u);
    var phones := Apply(w.accounts, e).db.phones;
    if u in w.accounts.db.users {
      var k :| 0 <= k < |w.logins| && Maps(w.accounts.db.phones, w.logins[k].phone, u);
      assert Maps(phones, w.logins[k].phone, u);
    } else {
      var k := w.entries[e.id].login.value;
      assert About(w.accounts.db.phones, w.logins[k].phone, w.accounts.calls[e.id]);
      assert Maps(phones, w.logins[k].phone, u);
    }
  }

  lemma EnterKeeps(w: World, id: nat, fingerprint: string)
    requires Inv(w) && id in w.otp.calls && w.otp.calls[id].Matched? && id !in w.accounts.calls
    ensures Inv(DoEnter(w, id, fingerprint))
  {
    var w' := DoEnter(w, id, fingerprint);
    var p := w.otp.calls[id];
    CodeStepKeeps(w, Otp.Drop(id));
    assert w'.otp.issued == w.otp.issued && w'.otp.db.now == w.otp.db.now;
    assert OtpProofs.MatchOk(w.otp.issued, p);
    assert Unexpired(w'.otp.issued, Login(p.phone, p.code, p.at));
    LoginsGrow(w, Login(p.phone, p.code, p.at));
  }

  lemma LoginsGrow(w: World, l: Login)
    requires Inv(w) && Unexpired(w.otp.issued, l) && l.at <= w.otp.db.now
    ensures Inv(w.(logins := w.logins + [l]))
  {
    var more := w.logins + [l];
    forall u | u in w.accounts.db.users ensures HasLogin(w.accounts.db.phones, more, u) {
      var k :| 0 <= k < |w.logins| && Maps(w.accounts.db.phones, w.logins[k].phone, u);
      assert Maps(w.accounts.db.phones, more[k].phone, u);
    }
  }

  lemma BeginKeeps(w: World, id: nat, p: Phase, e: Entry)
    requires Inv(w) && EntryOk(w.accounts.db.phones, w.logins, w.otp.db.now, e, p)
    ensures Inv(w.(accounts := To(w.accounts, id, p), entries := w.entries[id := e]))
  {
  }

  lemma ReplyKeeps(w: World, id: nat)
    requires Inv(w) && id in w.accounts.calls && w.accounts.calls[id].Done?
    ensures Inv(DoReply(w, id, w.accounts.calls[id].outcome, w.entries[id].login.value))
  {
    var e := w.entries[id];
    assert EntryOk(w.accounts.db.phones, w.logins, w.otp.db.now, e, w.accounts.calls[id]);
    assert Done(w.accounts.calls[id].outcome) == w.accounts.calls[id];
  }

  /** Only a flow token of a login for the right phone or account admits a call. */
  lemma AdmittedIsAbout(w: World, issuer: Tokens.Issuer, held: Held, entry: Phase)
    requires Inv(w) && Admits(issuer, w.otp.db.now, Presented(w, issuer, held), entry)
    ensures held.FlowToken? && held.g < |w.given|
    ensures var g := w.given[held.g];
            && w.otp.db.now < g.at + Tokens.FLOW_TTL
            && About(w.accounts.db.phones, w.logins[g.login].phone, entry)
  {
    match held {
      case FlowToken(g) => FlowTokenIsAbout(w, issuer, g, entry);
      case Other(class_, minted) =>
        if !class_.Flow? {
          Tokens.FlowAcceptsItsPurposeOnly(issuer, minted, w.otp.db.now, class_, PurposeOf(entry));
        }
      case Foreign(tok) =>
    }
  }

  function PurposeOf(entry: Phase): string {
    match entry
    case SigningUp(_, _) => AuthFlows.SIGNUP
    case Reactivating(_, _) => AuthFlows.REACTIVATION
    case _ => AuthFlows.DEVICE_VERIFY
  }

  lemma FlowTokenIsAbout(w: World, issuer: Tokens.Issuer, g: nat, entry: Phase)
    requires Inv(w) && Admits(issuer, w.otp.db.now, Presented(w, issuer, FlowToken(g)), entry)
    ensures g < |w.given|
    ensures w.otp.db.now < w.given[g].at + Tokens.FLOW_TTL
    ensures About(w.accounts.db.phones, w.logins[w.given[g].login].phone, entry)
  {
    var given := w.given[g];
    var phone := w.logins[given.login].phone;
    assert GivenOk(w.accounts.db.phones, w.logins, w.otp.db.now, given);
    var flow := AuthFlows.FlowFor(phone, given.found);
    assert flow.Some?;
    Tokens.FlowAcceptsItsPurposeOnly(issuer, given.at, w.otp.db.now, flow.value, PurposeOf(entry));
    FlowIsAbout(w.accounts.db.phones, phone, given.found, entry);
  }

  /** The flow of an outcome continues with that phone or user alone. */
  lemma FlowIsAbout(phones: map<string, int>, phone: string, found: Outcome, entry: Phase)
    requires About(phones, phone, Done(found)) && AuthFlows.FlowFor(phone, found).Some? && IsEntry(entry) && !entry.LoggingIn?
    requires AuthFlows.FlowFor(phone, found).value.purpose == PurposeOf(entry)
    requires entry.SigningUp? ==> entry.phone == AuthFlows.FlowFor(phone, found).value.subject
    requires !entry.SigningUp? ==> ParseInt(AuthFlows.FlowFor(phone, found).value.subject) == Some(entry.user)
    ensures About(phones, phone, entry)
  {
    AuthFlows.PurposesDiffer();
    match found {
      case ReactivationRequired(user) => ParseFormat(user);
      case VerificationRequired(user) => ParseFormat(user);
      case _ =>
    }
  }

  lemma PresentKeeps(w: World, issuer: Tokens.Issuer, id: nat, held: Held, entry: Phase)
    requires Inv(w) && Admits(issuer, w.otp.db.now, Presented(w, issuer, held), entry)
    ensures Inv(DoPresent(w, id, held, entry))
  {
    AdmittedIsAbout(w, issuer, held, entry);
    var g := w.given[held.g];
    assert GivenOk(w.accounts.db.phones, w.logins, w.otp.db.now, g);
    BeginKeeps(w, id, entry, Entry(Some(g.login), g.at, w.otp.db.now));
  }

  lemma StepKeeps(issuer: Tokens.Issuer, w: World, a: Action)
    requires Inv(w)
    ensures Inv(Step(issuer, w, a))
  {
    match a {
      case Tick(d) => TickKeeps(w, d);
      case OnCode(e) => if IsOwn(e) { CodeStepKeeps(w, e); }
      case Enter(id, fingerprint) =>
        if id in w.otp.calls && w.otp.calls[id].Matched? && id !in w.accounts.calls { EnterKeeps(w, id, fingerprint); }
      case Reply(id) => if id in w.accounts.calls && w.accounts.calls[id].Done? { ReplyKeeps(w, id); }
      case Present(id, held, entry) =>
        if Admits(issuer, w.otp.db.now, Presented(w, issuer, held), entry) { PresentKeeps(w, issuer, id, held, entry); }
      case OnAccount(e) => if IsOnward(e) { AccountStepKeeps(w, e); }
    }
  }

  lemma {:induction false} RunKeeps(issuer: Tokens.Issuer, w: World, actions: seq<Action>)
    requires Inv(w)
    ensures Inv(Run(issuer, w, actions))
    decreases actions
  {
    if actions != [] {
      StepKeeps(issuer, w, actions[0]);
      RunKeeps(issuer, Step(issuer, w, actions[0]), actions[1..]);
    }
  }

  // ---- what the phone of an account has proved

  /** In every run an account exists only for a phone to which an unexpired code was issued and
      presented back. */
  lemma AccountNeedsItsCode(issuer: Tokens.Issuer, actions: seq<Action>, user: int)
    requires user in Run(issuer, START, actions).accounts.db.users
    ensures var w := Run(issuer, START, actions);
            exists k :: 0 <= k < |w.logins| && Maps(w.accounts.db.phones, w.logins[k].phone, user) && Unexpired(w.otp.issued, w.logins[k])
  {
    RunKeeps(issuer, START, actions);
    var w := Run(issuer, START, actions);
    var k :| 0 <= k < |w.logins| && Maps(w.accounts.db.phones, w.logins[k].phone, user);
    assert Unexpired(w.otp.issued, w.logins[k]);
  }

  predicate HasSession(s: System, id: nat) {
    id in s.calls && s.calls[id].Done? && s.calls[id].outcome.Tokens?
  }

  /** The entry goes back to an accepted code that was issued to the phone of this account and had not
      expired, and whose VerifyOtp was answered less than ten minutes before. */
  ghost predicate RestsOnCode(w: World, e: Entry, user: int) {
    && e.login.Some? && e.login.value < |w.logins|
    && Maps(w.accounts.db.phones, w.logins[e.login.value].phone, user)
    && Unexpired(w.otp.issued, w.logins[e.login.value])
    && w.logins[e.login.value].at <= e.answered <= e.at < e.answered + 600_000
  }

  /** And a call, whichever flow it belongs to, ends in a session only for the account of the phone
      whose unexpired code was presented for it, by VerifyOtp itself or at most ten minutes before. */
  lemma SessionNeedsItsCode(issuer: Tokens.Issuer, actions: seq<Action>, id: nat)
    requires HasSession(Run(issuer, START, actions).accounts, id)
    ensures var w := Run(issuer, START, actions);
            id in w.entries && RestsOnCode(w, w.entries[id], w.accounts.calls[id].outcome.user)
  {
    RunKeeps(issuer, START, actions);
  }

  // ---- and the code suffices

  lemma {:induction false} RunConcat(issuer: Tokens.Issuer, w: World, a: seq<Action>, b: seq<Action>)
    ensures Run(issuer, w, a + b) == Run(issuer, Run(issuer, w, a), b)
    decreases a
  {
    if a == [] {
      assert a + b == b;
    } else {
      assert (a + b)[0] == a[0] && (a + b)[1..] == a[1..] + b;
      RunConcat(issuer, Step(issuer, w, a[0]), a[1..], b);
    }
  }

  lemma RunTwo(issuer: Tokens.Issuer, w: World, a: Action, b: Action)
    ensures Run(issuer, w, [a, b]) == Step(issuer, Step(issuer, w, a), b)
  {
    var w1 := Step(issuer, w, a);
    assert [a, b][1..] == [b] && [b][1..] == [];
    assert Run(issuer, w1, [b]) == Run(issuer, Step(issuer, w1, b), []);
  }

  lemma RunThree(issuer: Tokens.Issuer, w: World, a: Action, b: Action, c: Action)
    ensures Run(issuer, w, [a, b, c]) == Step(issuer, Step(issuer, Step(issuer, w, a), b), c)
  {
    RunTwo(issuer, Step(issuer, w, a), b, c);
    assert [a, b, c][1..] == [b, c];
  }

  /** The code of the phone is stored. */
  ghost predicate CodeStored(w: World, phone: string, code: string) {
    && w.otp.db == Otp.Put(w.otp.db, phone, code)
    && w.otp.calls.Keys == {0} && w.accounts == INIT && w.logins == [] && w.given == []
  }

  lemma Requested(issuer: Tokens.Issuer, phone: string, n: nat)
    requires n < 1_000_000
    ensures var w := Run(issuer, Step(issuer, START, OnCode(Otp.Ask(0, phone))),
                         [OnCode(Otp.Count(0)), OnCode(Otp.Expire(0, true)), OnCode(Otp.Store(0, n))]);
            CodeStored(w, phone, Otp.SixDigits(n))
  {
    var w0 := Step(issuer, START, OnCode(Otp.Ask(0, phone)));
    RunThree(issuer, w0, OnCode(Otp.Count(0)), OnCode(Otp.Expire(0, true)), OnCode(Otp.Store(0, n)));
    var s1 := Otp.DoCount(w0.otp, 0, phone);
    assert Step(issuer, w0, OnCode(Otp.Count(0))) == w0.(otp := s1);
    var s2 := Otp.DoExpire(s1, 0, phone, true);
    assert Step(issuer, w0.(otp := s1), OnCode(Otp.Expire(0, true))) == w0.(otp := s2);
    var s3 := Otp.DoStore(s2, 0, phone, n);
    assert Step(issuer, w0.(otp := s2), OnCode(Otp.Store(0, n))) == w0.(otp := s3);
    assert s3.db == Otp.Put(s3.db, phone, Otp.SixDigits(n));
  }

  lemma Verified(issuer: Tokens.Issuer, w: World, phone: string, code: string, fingerprint: string)
    requires CodeStored(w, phone, code) && code != ""
    ensures var w' := Run(issuer, w, [OnCode(Otp.Guess(1, phone, code)), OnCode(Otp.Read(1)), Enter(1, fingerprint)]);
            && w'.accounts == To(INIT, 1, LoggingIn(phone, fingerprint))
            && |w'.logins| == 1 && w'.logins[0].phone == phone && w'.given == []
            && 1 in w'.entries && w'.entries[1].login == Some(0)
  {
    RunThree(issuer, w, OnCode(Otp.Guess(1, phone, code)), OnCode(Otp.Read(1)), Enter(1, fingerprint));
    var s1 := Otp.To(w.otp, 1, Otp.Guessing(phone, code));
    assert Step(issuer, w, OnCode(Otp.Guess(1, phone, code))) == w.(otp := s1);
    var s2 := Otp.DoRead(s1, 1, phone, code);
    assert Step(issuer, w.(otp := s1), OnCode(Otp.Read(1))) == w.(otp := s2);
    assert Step(issuer, w.(otp := s2), Enter(1, fingerprint)) == DoEnter(w.(otp := s2), 1, fingerprint);
  }

  lemma SignupTokenAdmits(issuer: Tokens.Issuer, w: World, phone: string, fingerprint: string)
    requires |w.logins| == 1 && w.logins[0].phone == phone && phone != "" && w.given == [Given(SignupRequired, 0, w.otp.db.now)]
    ensures Admits(issuer, w.otp.db.now, Presented(w, issuer, FlowToken(0)), SigningUp(phone, fingerprint))
  {
    var now := w.otp.db.now;
    Tokens.FlowAcceptsItsPurposeOnly(issuer, now, now, Tokens.Flow(AuthFlows.SIGNUP, phone), AuthFlows.SIGNUP);
  }

  /** A first login is answered with a flow token, which begins a signup. */
  lemma Answered(issuer: Tokens.Issuer, w: World, phone: string, fingerprint: string)
    requires w.accounts == To(INIT, 1, LoggingIn(phone, fingerprint)) && phone != ""
    requires |w.logins| == 1 && w.logins[0].phone == phone && w.given == [] && 1 in w.entries && w.entries[1].login == Some(0)
    ensures var w' := Run(issuer, w, [OnAccount(Next(1)), Reply(1), Present(2, FlowToken(0), SigningUp(phone, fingerprint))]);
            w'.accounts.db == INIT.db && 2 in w'.accounts.calls && w'.accounts.calls[2] == SigningUp(phone, fingerprint)
  {
    var present := Present(2, FlowToken(0), SigningUp(phone, fingerprint));
    RunThree(issuer, w, OnAccount(Next(1)), Reply(1), present);
    var w1 := w.(accounts := DoFind(w.accounts, 1, phone, fingerprint));
    assert Step(issuer, w, OnAccount(Next(1))) == w1;
    var w2 := w1.(given := [Given(SignupRequired, 0, w.otp.db.now)]);
    assert Step(issuer, w1, Reply(1)) == w2;
    SignupTokenAdmits(issuer, w2, phone, fingerprint);
    assert Step(issuer, w2, present) == DoPresent(w2, 2, FlowToken(0), SigningUp(phone, fingerprint));
  }

  lemma SignsUp(issuer: Tokens.Issuer, w: World, phone: string, fingerprint: string, user: int, month: string)
    requires w.accounts.db == INIT.db && 2 in w.accounts.calls && w.accounts.calls[2] == SigningUp(phone, fingerprint) && IsInt64(user)
    ensures var w' := Run(issuer, w, [OnAccount(Create(2, user, month)), OnAccount(Next(2))]);
            user in w'.accounts.db.users && 2 in w'.accounts.calls && w'.accounts.calls[2] == Done(Outcome.Tokens(user))
  {
    RunTwo(issuer, w, OnAccount(Create(2, user, month)), OnAccount(Next(2)));
    var s1 := DoCreate(w.accounts, 2, phone, fingerprint, user, month);
    assert Step(issuer, w, OnAccount(Create(2, user, month))) == w.(accounts := s1);
    assert Step(issuer, w.(accounts := s1), OnAccount(Next(2)))
        == w.(accounts := DoRegister(s1, 2, user, fingerprint, BySignup(phone)));
  }

  /** Whoever asks for a code and presents it gets an account and a session, whatever the phone, the
      code and the device. */
  lemma CodeIsEnough(issuer: Tokens.Issuer, phone: string, n: nat, fingerprint: string, user: int, month: string) returns (actions: seq<Action>)
    requires phone != "" && n < 1_000_000 && IsInt64(user)
    ensures var s := Run(issuer, START, actions).accounts;
            user in s.db.users && 2 in s.calls && s.calls[2] == Done(Outcome.Tokens(user))
  {
    var code := Otp.SixDigits(n);
    OtpStore.CodeSpellsItsNumber(n);
    var a0, w0 := [OnCode(Otp.Ask(0, phone))], Step(issuer, START, OnCode(Otp.Ask(0, phone)));
    assert Run(issuer, START, a0) == w0 by {
      assert a0[1..] == [];
    }
    var a1 := [OnCode(Otp.Count(0)), OnCode(Otp.Expire(0, true)), OnCode(Otp.Store(0, n))];
    var a2 := [OnCode(Otp.Guess(1, phone, code)), OnCode(Otp.Read(1)), Enter(1, fingerprint)];
    var a3 := [OnAccount(Next(1)), Reply(1), Present(2, FlowToken(0), SigningUp(phone, fingerprint))];
    var a4 := [OnAccount(Create(2, user, month)), OnAccount(Next(2))];
    Requested(issuer, phone, n);
    Verified(issuer, Run(issuer, w0, a1), phone, code, fingerprint);
    Answered(issuer, Run(issuer, Run(issuer, w0, a1), a2), phone, fingerprint);
    SignsUp(issuer, Run(issuer, Run(issuer, Run(issuer, w0, a1), a2), a3), phone, fingerprint, user, month);
    actions := (((a0 + a1) + a2) + a3) + a4;
    RunConcat(issuer, START, a0, a1);
    RunConcat(issuer, START, a0 + a1, a2);
    RunConcat(issuer, START, (a0 + a1) + a2, a3);
    RunConcat(issuer, START, ((a0 + a1) + a2) + a3, a4);
  }
}
