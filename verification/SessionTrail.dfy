/** Logins and refresh tokens in one run: what every refreshed session goes back to.

    A call of a login flow that ends with tokens opens one family of refresh tokens for its user
    (services/identity/internal/usecase/auth.go, issueTokens); everything else on the refresh token store
    goes on beside it. */
module SessionTrail {
  import opened Decimal
  import A = Accounts
  import AccountsProofs
  import Tokens
  import AuthFlows
  import IdentityRepo
  import PhoneProof
  import opened RtrRedis
  import opened RtrLedger
  import opened RtrRefinement
  import opened RtrTheorems
  import opened RtrLinks

  // The login call that opened a family, and the refresh token it was given.
  datatype Founder = Founder(call: nat, token: Token)

  datatype Joint = Joint(
    login: PhoneProof.World,
    store: World,
    log: seq<Event>,                // what happened to the store
    founders: map<Family, Founder>)

  const NOTHING := Joint(PhoneProof.START, Start, [], map[])

  datatype Move =
    | Tick(d: nat)
    | OnLogin(a: PhoneProof.Action)
    | Open(call: nat, f: Family, t: Token)   // rtr.Issue at the end of a login flow
    | OnStore(e: Event)

  function Happens(j: Joint, e: Event): Joint {
    j.(store := Apply(j.store, e), log := j.log + [e])
  }

  function DoOpen(j: Joint, call: nat, f: Family, t: Token, user: int): Joint {
    Happens(j, Issue(f, t, user)).(founders := j.founders[f := Founder(call, t)])
  }

  predicate CanOpen(j: Joint, call: nat, f: Family, t: Token) {
    && PhoneProof.HasSession(j.login.accounts, call)
    && (forall g :: g in j.founders ==> j.founders[g].call != call)
    && Fresh(j.store, t) && f !in j.store.founded
  }

  function Play(issuer: Tokens.Issuer, j: Joint, m: Move): Joint {
    match m
    case Tick(d) => Happens(j, Advance(d)).(login := PhoneProof.Step(issuer, j.login, PhoneProof.Tick(d)))
    case OnLogin(a) => if a.Tick? then j else j.(login := PhoneProof.Step(issuer, j.login, a))
    case Open(call, f, t) =>
      if CanOpen(j, call, f, t) then DoOpen(j, call, f, t, j.login.accounts.calls[call].outcome.user) else j
    case OnStore(e) => if e.Issue? || e.Advance? then j else Happens(j, e)
  }

  function Run(issuer: Tokens.Issuer, j: Joint, ms: seq<Move>): Joint
    decreases ms
  {
    if ms == [] then j else Run(issuer, Play(issuer, j, ms[0]), ms[1..])
  }

  // ---- a session is not taken back

  lemma DoneStays(s: A.System, e: A.Event, id: nat)
    requires id in s.calls && s.calls[id].Done?
    ensures id in A.Apply(s, e).calls && A.Apply(s, e).calls[id] == s.calls[id]
  {
    if e.Next? && e.id in s.calls {
      AccountsProofs.NextMoves(s, e.id);
    }
  }

  lemma SessionStays(issuer: Tokens.Issuer, w: PhoneProof.World, a: PhoneProof.Action, id: nat)
    requires PhoneProof.HasSession(w.accounts, id)
    ensures var w' := PhoneProof.Step(issuer, w, a);
            id in w'.accounts.calls && w'.accounts.calls[id] == w.accounts.calls[id]
  {
    match a {
      case Tick(d) => DoneStays(w.accounts, A.Tick(d), id);
      case OnAccount(e) => DoneStays(w.accounts, e, id);
      case _ =>
    }
  }

  // ---- the store's side is one of its runs

  ghost function LedgerOf(j: Joint): Ledger {
    RtrLedger.Play(Blank, j.log)
  }

  ghost predicate StoreOk(j: Joint) {
    j.store == Exec(Start, j.log)
  }

  lemma StoreIsLinked(j: Joint)
    requires StoreOk(j)
    ensures Linked(j.store, LedgerOf(j)) && LinksMade(LedgerOf(j))
  {
    BlankIsLinked();
    RunRefines(Start, Blank, j.log);
    PlayKeepsLinks(Blank, j.log);
  }

  lemma HappensIsARun(j: Joint, e: Event)
    requires StoreOk(j)
    ensures StoreOk(Happens(j, e)) && LedgerOf(Happens(j, e)) == Enter(LedgerOf(j), e)
  {
    ExecConcat(Start, j.log, [e]);
    PlayConcat(Blank, j.log, [e]);
    assert [e][0] == e && [e][1..] == [];
    assert Exec(j.store, [e]) == Exec(Apply(j.store, e), []);
    assert RtrLedger.Play(LedgerOf(j), [e]) == RtrLedger.Play(Enter(LedgerOf(j), e), []);
  }

  // ---- every family was opened by a session of its user

  ghost predicate LineOk(line: Line, user: int, first: Token) {
    line.user == user && line.chain != [] && line.chain[0] == first
  }

  ghost predicate SessionOk(w: PhoneProof.World, l: Ledger, f: Family, o: Founder) {
    && PhoneProof.HasSession(w.accounts, o.call)
    && f in l.lines && LineOk(l.lines[f], w.accounts.calls[o.call].outcome.user, o.token)
  }

  ghost predicate Inv(j: Joint) {
    && PhoneProof.Inv(j.login) && StoreOk(j) && j.founders.Keys == j.store.founded
    && forall f :: f in j.founders ==> SessionOk(j.login, LedgerOf(j), f, j.founders[f])
  }

  lemma LinesGrow(l: Ledger, e: Event, f: Family, user: int, first: Token)
    requires l.Valid() && f in l.lines && LineOk(l.lines[f], user, first)
    ensures f in Enter(l, e).lines && LineOk(Enter(l, e).lines[f], user, first)
  {
    EnterGrows(l, e);
    assert LineGrows(l.lines[f], Enter(l, e).lines[f]);
  }

  lemma SessionSurvives(j: Joint, e: Event, f: Family, o: Founder)
    requires StoreOk(j) && SessionOk(j.login, LedgerOf(j), f, o)
    ensures SessionOk(j.login, LedgerOf(Happens(j, e)), f, o)
  {
    StoreIsLinked(j);
    HappensIsARun(j, e);
    LinesGrow(LedgerOf(j), e, f, j.login.accounts.calls[o.call].outcome.user, o.token);
  }

  lemma HappensKeeps(j: Joint, e: Event)
    requires Inv(j) && !e.Issue?
    ensures Inv(Happens(j, e))
  {
    var j' := Happens(j, e);
    HappensIsARun(j, e);
    forall f | f in j'.founders ensures SessionOk(j'.login, LedgerOf(j'), f, j'.founders[f]) {
      SessionSurvives(j, e, f, j.founders[f]);
    }
  }

  lemma LoginKeeps(issuer: Tokens.Issuer, j: Joint, a: PhoneProof.Action)
    requires Inv(j)
    ensures Inv(j.(login := PhoneProof.Step(issuer, j.login, a)))
  {
    PhoneProof.StepKeeps(issuer, j.login, a);
    forall f | f in j.founders ensures SessionOk(PhoneProof.Step(issuer, j.login, a), LedgerOf(j), f, j.founders[f]) {
      SessionStays(issuer, j.login, a, j.founders[f].call);
    }
  }

  lemma IssueOpensLine(l: Ledger, f: Family, t: Token, user: int)
    requires t != NoToken && t !in l.minted && f !in l.lines
    ensures f in Enter(l, Issue(f, t, user)).lines && LineOk(Enter(l, Issue(f, t, user)).lines[f], user, t)
  {
    assert Enter(l, Issue(f, t, user)).lines[f] == Line(user, [t], true);
  }

  lemma SessionOpens(j: Joint, call: nat, f: Family, t: Token)
    requires StoreOk(j) && CanOpen(j, call, f, t)
    ensures var user := j.login.accounts.calls[call].outcome.user;
            SessionOk(j.login, LedgerOf(Happens(j, Issue(f, t, user))), f, Founder(call, t))
  {
    var user := j.login.accounts.calls[call].outcome.user;
    StoreIsLinked(j);
    HappensIsARun(j, Issue(f, t, user));
    IssueOpensLine(LedgerOf(j), f, t, user);
  }

  lemma OpenKeeps(j: Joint, call: nat, f: Family, t: Token)
    requires Inv(j) && CanOpen(j, call, f, t)
    ensures Inv(DoOpen(j, call, f, t, j.login.accounts.calls[call].outcome.user))
  {
    var user := j.login.accounts.calls[call].outcome.user;
    var j' := DoOpen(j, call, f, t, user);
    HappensIsARun(j, Issue(f, t, user));
    SessionOpens(j, call, f, t);
    forall g | g in j'.founders ensures SessionOk(j'.login, LedgerOf(j'), g, j'.founders[g]) {
      if g != f {
        SessionSurvives(j, Issue(f, t, user), g, j.founders[g]);
      }
    }
  }

  lemma PlayKeeps(issuer: Tokens.Issuer, j: Joint, m: Move)
    requires Inv(j)
    ensures Inv(Play(issuer, j, m))
  {
    match m {
      case Tick(d) => {
        HappensKeeps(j, Advance(d));
        LoginKeeps(issuer, Happens(j, Advance(d)), PhoneProof.Tick(d));
      }
      case OnLogin(a) => if !a.Tick? { LoginKeeps(issuer, j, a); }
      case Open(call, f, t) => if CanOpen(j, call, f, t) { OpenKeeps(j, call, f, t); }
      case OnStore(e) => if !e.Issue? && !e.Advance? { HappensKeeps(j, e); }
    }
  }

  lemma {:induction false} RunKeeps(issuer: Tokens.Issuer, j: Joint, ms: seq<Move>)
    requires Inv(j)
    ensures Inv(Run(issuer, j, ms))
    decreases ms
  {
    if ms != [] {
      PlayKeeps(issuer, j, ms[0]);
      RunKeeps(issuer, Play(issuer, j, ms[0]), ms[1..]);
    }
  }

  // ---- the trail

  /** Call `c` rotated `a` into `b` for this user. */
  predicate Rotates(w: World, c: nat, a: Token, b: Token, user: int) {
    c in w.calls && w.calls[c] == Done(a, Rotated(b, user))
  }

  ghost predicate IsLink(w: World, a: Token, b: Token, user: int) {
    exists c :: Rotates(w, c, a, b, user)
  }

  /** From the first token of a session, rotation by rotation, each for its user. */
  ghost predicate IsTrail(w: World, trail: seq<Token>, user: int) {
    forall i :: 0 <= i < |trail| - 1 ==> IsLink(w, trail[i], trail[i + 1], user)
  }

  lemma LinkIsRotation(w: World, l: Ledger, f: Family, i: nat)
    requires Linked(w, l) && LinksMade(l) && f in l.lines && i < |l.lines[f].chain| - 1
    ensures IsLink(w, l.lines[f].chain[i], l.lines[f].chain[i + 1], l.lines[f].user)
  {
    var a, b := l.lines[f].chain[i], l.lines[f].chain[i + 1];
    assert LinkMade(l, a, b);
    var c :| MadeBy(l, c, a, b);
    assert SameTurn(w.calls[c], l.turns[c], l);
    assert l.TurnOk(l.turns[c]);
    assert l.home[a] == f;
    assert Rotates(w, c, a, b, l.lines[f].user);
  }

  lemma RotationIsLink(w: World, l: Ledger, c: nat) returns (f: Family, i: nat)
    requires Linked(w, l) && c in w.calls && w.calls[c].Done? && w.calls[c].out.Rotated?
    ensures f in l.lines && l.lines[f].user == w.calls[c].out.user && i < |l.lines[f].chain| - 1
    ensures l.lines[f].chain[i] == w.calls[c].held && l.lines[f].chain[i + 1] == w.calls[c].out.next
  {
    assert SameTurn(w.calls[c], l.turns[c], l);
    f, i := WonIsLink(l, l.turns[c]);
  }

  lemma WonIsLink(l: Ledger, turn: Turn) returns (f: Family, i: nat)
    requires l.TurnOk(turn) && turn.Answered? && turn.out.Rotated?
    ensures f in l.lines && l.lines[f].user == turn.out.user && i < |l.lines[f].chain| - 1
    ensures l.lines[f].chain[i] == turn.t && l.lines[f].chain[i + 1] == turn.out.next
  {
    f := l.home[turn.t];
    var chain := l.lines[f].chain;
    i :| 0 <= i < |chain| - 1 && chain[i] == turn.t && chain[i + 1] == turn.out.next;
  }

  // The chain of a rotated token, up to what it was rotated into.
  lemma TrailOf(w: World, l: Ledger, c: nat) returns (f: Family, trail: seq<Token>)
    requires Linked(w, l) && LinksMade(l) && c in w.calls && w.calls[c].Done? && w.calls[c].out.Rotated?
    ensures f in l.lines && l.lines[f].user == w.calls[c].out.user && trail <= l.lines[f].chain
    ensures EndsWith(trail, w.calls[c].held, w.calls[c].out.next) && IsTrail(w, trail, w.calls[c].out.user)
  {
    var i;
    f, i := RotationIsLink(w, l, c);
    trail := l.lines[f].chain[..i + 2];
    PrefixIsTrail(w, l, f, i + 2);
  }

  predicate EndsWith(trail: seq<Token>, a: Token, b: Token) {
    |trail| >= 2 && trail[|trail| - 2] == a && trail[|trail| - 1] == b
  }

  lemma PrefixIsTrail(w: World, l: Ledger, f: Family, n: nat)
    requires Linked(w, l) && LinksMade(l) && f in l.lines && n <= |l.lines[f].chain|
    ensures IsTrail(w, l.lines[f].chain[..n], l.lines[f].user)
  {
    var trail := l.lines[f].chain[..n];
    forall k | 0 <= k < |trail| - 1 ensures IsLink(w, trail[k], trail[k + 1], l.lines[f].user) {
      LinkIsRotation(w, l, f, k);
    }
  }

  /** The call ended in a session of the user, and rests on a code presented for the user's phone. */
  ghost predicate FromCode(w: PhoneProof.World, call: nat, user: int) {
    && PhoneProof.HasSession(w.accounts, call) && w.accounts.calls[call].outcome.user == user
    && call in w.entries && PhoneProof.RestsOnCode(w, w.entries[call], user)
  }

  lemma SessionIsFromCode(w: PhoneProof.World, call: nat)
    requires PhoneProof.Inv(w) && PhoneProof.HasSession(w.accounts, call)
    ensures FromCode(w, call, w.accounts.calls[call].outcome.user)
  {
  }

  lemma NothingIsOk()
    ensures Inv(NOTHING)
  {
  }

  lemma TrailFromInv(j: Joint, c: nat) returns (f: Family, trail: seq<Token>)
    requires Inv(j) && c in j.store.calls && j.store.calls[c].Done? && j.store.calls[c].out.Rotated?
    ensures f in j.founders && FromCode(j.login, j.founders[f].call, j.store.calls[c].out.user)
    ensures EndsWith(trail, j.store.calls[c].held, j.store.calls[c].out.next) && trail[0] == j.founders[f].token
    ensures IsTrail(j.store, trail, j.store.calls[c].out.user)
  {
    StoreIsLinked(j);
    f, trail := TrailOf(j.store, LedgerOf(j), c);
    assert f in j.store.founded;
    assert SessionOk(j.login, LedgerOf(j), f, j.founders[f]);
    SessionIsFromCode(j.login, j.founders[f].call);
  }

  /** Whatever happens: a refresh token that a rotation hands out, with the access token for its user, is
      the last of a trail of rotations for that user, whose first token was given to a login call of the
      user, which rests on an unexpired code that was issued to the user's phone and presented. */
  lemma RefreshGoesBackToACode(issuer: Tokens.Issuer, ms: seq<Move>, c: nat) returns (f: Family, trail: seq<Token>)
    requires var w := Run(issuer, NOTHING, ms).store; c in w.calls && w.calls[c].Done? && w.calls[c].out.Rotated?
    ensures var j := Run(issuer, NOTHING, ms);
            var Done(held, Rotated(next, user)) := j.store.calls[c];
            && f in j.founders && FromCode(j.login, j.founders[f].call, user)
            && EndsWith(trail, held, next) && trail[0] == j.founders[f].token
            && IsTrail(j.store, trail, user)
  {
    NothingIsOk();
    RunKeeps(issuer, NOTHING, ms);
    f, trail := TrailFromInv(Run(issuer, NOTHING, ms), c);
  }

  /** So whatever access token of a refreshed session a resource server accepts, it names a user who
      proved to have the phone of the account. */
  lemma AcceptedGoesBackToACode(issuer: Tokens.Issuer, ms: seq<Move>, c: nat, keys: map<string, nat>, minted: nat, now: nat,
                                account: A.Account, profile: IdentityRepo.Profile, r: AuthFlows.Refreshed) returns (call: nat)
    requires var w := Run(issuer, NOTHING, ms).store; c in w.calls && w.calls[c].Done? && w.calls[c].out.Rotated?
    requires issuer.kid != "" && issuer.kid in keys && keys[issuer.kid] == issuer.key
    requires var Rotated(next, user) := Run(issuer, NOTHING, ms).store.calls[c].out;
             AuthFlows.IsSession(r, issuer, minted, user, account, profile, next)
    requires now < ((minted + 900_000) / 1000) * 1000
    ensures var j := Run(issuer, NOTHING, ms);
            var Rotated(next, user) := j.store.calls[c].out;
            var v := Tokens.Verify(keys, issuer.issuer, "board", now, r.access);
            v.Verified? && ParseInt(v.subject) == Some(user) && FromCode(j.login, call, user)
  {
    var f, trail := RefreshGoesBackToACode(issuer, ms, c);
    var j := Run(issuer, NOTHING, ms);
    call := j.founders[f].call;
    AuthFlows.RefreshedSessionVerifies(r, issuer, keys, minted, now, j.store.calls[c].out.user, account, profile, j.store.calls[c].out.next);
  }
}
