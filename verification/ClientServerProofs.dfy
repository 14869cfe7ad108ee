/** Honest single-tab traffic never trips reuse detection, as long as no committed rotation's reply is lost. */
module ClientServerProofs {
  import opened RtrRedis
  import opened WebClient
  import opened ClientServer

  // ---- what other clients can do to the tab

  /** Of the tab's part of the store, other clients only ever see entries disappear. */
  ghost predicate Undisturbed(s: System, w: World) {
    DbUndisturbed(s, w.db) && CallsUndisturbed(s, w)
  }

  ghost predicate DbUndisturbed(s: System, db: Redis) {
    && (forall t :: t in s.owned && t in db.tokens ==>
          t in s.server.db.tokens && db.tokens[t].value == s.server.db.tokens[t].value)
    && (forall f :: f in s.own && f in db.families ==>
          f in s.server.db.families && db.families[f].value == s.server.db.families[f].value)
  }

  ghost predicate CallsUndisturbed(s: System, w: World) {
    && (forall c :: c in s.requests ==>
          (c in w.calls <==> c in s.server.calls) && (c in w.calls ==> w.calls[c] == s.server.calls[c]))
    && (forall t :: t in s.owned && Spent(w, t) ==> Spent(s.server, t))
  }

  // The system with another database and more tokens generated.
  function WithDb(s: System, db: Redis, minted: set<Token>): System {
    s.(server := s.server.(db := db, minted := minted))
  }

  lemma SaveElsewhere(s: System, rec: Record, t: Token)
    requires Apart(s) && t !in s.server.minted && rec.family in s.server.founded && rec.family !in s.own
    ensures Apart(WithDb(s, Save(s.server.db, t, rec), s.server.minted + {t}))
    ensures DbUndisturbed(s, Save(s.server.db, t, rec))
  {
  }

  lemma DeleteElsewhere(s: System, f: Family, ts: set<Token>, minted: set<Token>)
    requires Apart(s) && s.server.minted <= minted
    ensures Apart(WithDb(s, Delete(s.server.db, f, ts), minted))
    ensures DbUndisturbed(s, Delete(s.server.db, f, ts))
  {
  }

  lemma ForeignRotation(s: System, held: Token, rec: Record, next: Token)
    requires Apart(s) && next !in s.server.minted && rec.family in s.server.founded && rec.family !in s.own
    ensures var db := RotateScript(s.server.db, held, rec, next).0;
            Apart(WithDb(s, db, s.server.minted + {next})) && DbUndisturbed(s, db)
  {
    if !s.server.db.HasFamily(rec.family) {
    } else if s.server.db.families[rec.family].value != held {
      DeleteElsewhere(s, rec.family, {s.server.db.families[rec.family].value}, s.server.minted + {next});
    } else {
      SaveElsewhere(s, rec, next);
    }
  }

  lemma ForeignIssue(s: System, f: Family, t: Token, user: int)
    requires Shape(s) && Fresh(s.server, t) && f !in s.server.founded
    ensures var w := Apply(s.server, Issue(f, t, user)); Apart(s.(server := w)) && Undisturbed(s, w)
  {
    SaveElsewhere(s.(server := s.server.(founded := s.server.founded + {f})), Record(user, f), t);
  }

  lemma ForeignLookup(s: System, c: nat, t: Token)
    requires Shape(s) && c !in s.requests && t !in s.owned
    ensures var w := Apply(s.server, Lookup(c, t)); Apart(s.(server := w)) && Undisturbed(s, w)
    ensures c !in s.server.calls ==> CallApart(s.(server := Apply(s.server, Lookup(c, t))), c)
  {
    var w := Apply(s.server, Lookup(c, t));
    forall u | u in s.owned && Spent(w, u) ensures Spent(s.server, u) {
      var d :| d in w.calls && w.calls[d].Done? && w.calls[d].held == u && w.calls[d].out.Rotated?;
      assert d in s.server.calls;
    }
  }

  lemma ForeignScript(s: System, c: nat, next: Token)
    requires Shape(s) && c !in s.requests && c in s.server.calls && s.server.calls[c].Looked? && Fresh(s.server, next)
    ensures var w := RunScript(s.server, c, s.server.calls[c].held, s.server.calls[c].rec, next);
            Apart(s.(server := w)) && Undisturbed(s, w) && CallApart(s.(server := w), c)
  {
    assert CallApart(s, c);
    var Looked(held, rec) := s.server.calls[c];
    ForeignRotation(s, held, rec, next);
    var w := RunScript(s.server, c, held, rec, next);
    forall u | u in s.owned && Spent(w, u) ensures Spent(s.server, u) {
      var d :| d in w.calls && w.calls[d].Done? && w.calls[d].held == u && w.calls[d].out.Rotated?;
      assert d != c;
    }
  }

  // ---- what an undisturbed tab keeps

  lemma FitStays(s: System, w: World, t: Token)
    requires Apart(s) && Undisturbed(s, w) && Fit(s, t)
    ensures Fit(s.(server := w), t)
  {
  }

  lemma CallsApartStay(s: System, w: World, c: nat)
    requires CallsApart(s) && w.calls.Keys == s.server.calls.Keys + {c}
    requires forall d :: d in s.server.calls && d != c ==> w.calls[d] == s.server.calls[d]
    requires CallApart(s.(server := w), c) && s.server.minted <= w.minted && s.server.founded <= w.founded
    ensures CallsApart(s.(server := w))
  {
    forall d | d in w.calls ensures CallApart(s.(server := w), d) {
      assert d != c ==> CallApart(s, d);
    }
  }

  lemma OwnedStays(s: System, w: World)
    requires Owned(s) && CallsUndisturbed(s, w) && NoToken !in w.minted
    ensures Owned(s.(server := w))
  {
    var s' := s.(server := w);
    forall c | c in s.requests ensures Accounted(s', c) {
      assert Accounted(s, c);
    }
  }

  lemma FlightStays(s: System, w: World)
    requires Shape(s) && FlightOk(s) && Undisturbed(s, w)
    ensures FlightOk(s.(server := w))
  {
    if s.tab.flight.InFlight? {
      var c := s.tab.flight.c;
      if c !in s.server.calls {
        FitStays(s, w, s.tab.flight.rt);
      } else if s.server.calls[c].Looked? {
        FitStays(s, w, s.tab.flight.rt);
        assert CallApart(s, c);
      } else if s.server.calls[c].out.Rotated? {
        FitStays(s, w, s.server.calls[c].out.next);
      }
    }
  }

  lemma MailStays(s: System, w: World)
    requires Shape(s) && MailOk(s) && Undisturbed(s, w)
    ensures MailOk(s.(server := w))
  {
    forall t | t in s.mail ensures Fit(s.(server := w), t) {
      FitStays(s, w, t);
    }
  }

  lemma StoredStays(s: System, w: World)
    requires Shape(s) && StoredOk(s) && Undisturbed(s, w)
    ensures StoredOk(s.(server := w))
  {
    if Fit(s, s.tab.stored) {
      FitStays(s, w, s.tab.stored);
    }
  }

  lemma UndisturbedKeepsInv(s: System, w: World)
    requires Inv(s) && Undisturbed(s, w) && NoToken !in w.minted
    requires Apart(s.(server := w)) && CallsApart(s.(server := w))
    ensures Inv(s.(server := w))
  {
    OwnedStays(s, w);
    FlightStays(s, w);
    MailStays(s, w);
    StoredStays(s, w);
  }

  lemma ElsewhereIssue(s: System, f: Family, t: Token, user: int)
    requires Inv(s) && Fresh(s.server, t) && f !in s.server.founded
    ensures Inv(s.(server := Apply(s.server, Issue(f, t, user))))
  {
    var w := Apply(s.server, Issue(f, t, user));
    ForeignIssue(s, f, t, user);
    assert CallsApart(s.(server := w)) by {
      forall c | c in w.calls ensures CallApart(s.(server := w), c) {
        assert CallApart(s, c);
      }
    }
    UndisturbedKeepsInv(s, w);
  }

  lemma ElsewhereLookup(s: System, c: nat, t: Token)
    requires Inv(s) && c !in s.requests && t !in s.owned && c !in s.server.calls
    ensures Inv(s.(server := Apply(s.server, Lookup(c, t))))
  {
    var w := Apply(s.server, Lookup(c, t));
    ForeignLookup(s, c, t);
    CallsApartStay(s, w, c);
    UndisturbedKeepsInv(s, w);
  }

  lemma ElsewhereScript(s: System, c: nat, next: Token)
    requires Inv(s) && c !in s.requests && c in s.server.calls && s.server.calls[c].Looked? && Fresh(s.server, next)
    ensures Inv(s.(server := RunScript(s.server, c, s.server.calls[c].held, s.server.calls[c].rec, next)))
  {
    var w := RunScript(s.server, c, s.server.calls[c].held, s.server.calls[c].rec, next);
    ForeignScript(s, c, next);
    CallsApartStay(s, w, c);
    UndisturbedKeepsInv(s, w);
  }

  // Revocations and passing time.
  lemma ElsewhereQuietly(s: System, db: Redis)
    requires Inv(s) && Apart(WithDb(s, db, s.server.minted)) && DbUndisturbed(s, db)
    ensures Inv(s.(server := s.server.(db := db)))
  {
    var w := s.server.(db := db);
    assert s.(server := w) == WithDb(s, db, s.server.minted);
    forall c | c in w.calls ensures CallApart(s.(server := w), c) {
      assert CallApart(s, c);
    }
    forall t | Spent(w, t) ensures Spent(s.server, t) {
      var d :| d in w.calls && w.calls[d].Done? && w.calls[d].held == t && w.calls[d].out.Rotated?;
      assert d in s.server.calls;
    }
    UndisturbedKeepsInv(s, w);
  }

  lemma ElsewhereKeepsInv(s: System, e: Event)
    requires Inv(s) && IsForeign(s, e)
    ensures Inv(s.(server := Apply(s.server, e)))
  {
    match e
    case Issue(f, t, user) =>
      if Fresh(s.server, t) && f !in s.server.founded {
        ElsewhereIssue(s, f, t, user);
      }
    case Lookup(c, t) =>
      if c !in s.server.calls {
        ElsewhereLookup(s, c, t);
      }
    case Script(c, next) =>
      if c in s.server.calls && s.server.calls[c].Looked? && Fresh(s.server, next) {
        ElsewhereScript(s, c, next);
      }
    case Revoke(f, ts) =>
      DeleteElsewhere(s, f, Named(ts), s.server.minted);
      ElsewhereQuietly(s, Delete(s.server.db, f, Named(ts)));
    case Advance(ms) =>
      ElsewhereQuietly(s, s.server.db.(now := s.server.db.now + ms));
  }

  // ---- the server's steps for this tab

  lemma SpentIsMinted(s: System, t: Token)
    requires CallsApart(s) && Spent(s.server, t)
    ensures t in s.server.minted
  {
    var c :| c in s.server.calls && s.server.calls[c].Done? && s.server.calls[c].held == t && s.server.calls[c].out.Rotated?;
    assert CallApart(s, c);
  }

  lemma LoginKeepsShape(s: System, f: Family, t: Token, user: int)
    requires Shape(s) && Fresh(s.server, t) && f !in s.server.founded
    ensures Shape(Play(s, Login(f, t, user)))
  {
    var s' := Play(s, Login(f, t, user));
    assert CallsApart(s') by {
      forall c | c in s'.server.calls ensures CallApart(s', c) {
        assert CallApart(s, c);
      }
    }
    assert Owned(s') by {
      forall c | c in s.requests ensures Accounted(s', c) {
        assert Accounted(s, c);
      }
    }
  }

  lemma LoginFit(s: System, f: Family, t: Token, user: int, u: Token)
    requires Shape(s) && Fresh(s.server, t) && f !in s.server.founded
    requires u == t || Fit(s, u)
    ensures Fit(Play(s, Login(f, t, user)), u)
  {
    var s' := Play(s, Login(f, t, user));
    if Spent(s'.server, u) {
      assert Spent(s.server, u);
      SpentIsMinted(s, u);
    }
  }

  lemma LoginKeepsInv(s: System, f: Family, t: Token, user: int)
    requires Inv(s) && Fresh(s.server, t) && f !in s.server.founded
    ensures Inv(Play(s, Login(f, t, user)))
  {
    var s' := Play(s, Login(f, t, user));
    LoginKeepsShape(s, f, t, user);
    forall u | u == t || Fit(s, u) ensures Fit(s', u) {
      LoginFit(s, f, t, user, u);
    }
    assert FlightOk(s') by {
      if s.tab.flight.InFlight? && s.tab.flight.c in s.server.calls {
        assert CallApart(s, s.tab.flight.c);
      }
    }
  }

  lemma GetKeepsInv(s: System, c: nat)
    requires Inv(s) && c in s.requests && c !in s.server.calls
    ensures Inv(Play(s, ServerGet(c)))
  {
    var t := s.requests[c];
    var w := Apply(s.server, Lookup(c, t));
    var s' := s.(server := w);
    CallsApartStay(s, w, c);
    forall u ensures Spent(w, u) ==> Spent(s.server, u) {
      if Spent(w, u) {
        var d :| d in w.calls && w.calls[d].Done? && w.calls[d].held == u && w.calls[d].out.Rotated?;
        assert d in s.server.calls;
      }
    }
    assert Owned(s') by {
      forall d | d in s.requests ensures Accounted(s', d) {
        assert Accounted(s, d);
      }
    }
    assert Accounted(s, c);
  }

  // ---- the rotation script of this tab

  lemma RotationKeepsApart(s: System, held: Token, rec: Record, next: Token)
    requires Apart(s) && Fresh(s.server, next) && rec.family in s.own
    ensures var (db, out) := RotateScript(s.server.db, held, rec, next);
            Apart(WithDb(s, db, s.server.minted + {next}).(owned := if out.Rotated? then s.owned + {next} else s.owned))
  {
  }

  lemma ExecuteKeepsShape(s: System, c: nat, next: Token)
    requires Shape(s) && c in s.requests && c in s.server.calls && s.server.calls[c].Looked? && Fresh(s.server, next)
    ensures Shape(Execute(s, c, next))
  {
    var s' := Execute(s, c, next);
    assert CallApart(s, c);
    var Looked(held, rec) := s.server.calls[c];
    RotationKeepsApart(s, held, rec, next);
    assert CallsApart(s') by {
      forall d | d in s'.server.calls ensures CallApart(s', d) {
        assert d != c ==> CallApart(s, d);
      }
    }
    assert Owned(s') by {
      forall d | d in s.requests ensures Accounted(s', d) {
        assert Accounted(s, d);
      }
    }
  }

  ghost predicate Rotating(s: System, c: nat, next: Token) {
    && c in s.requests && c in s.server.calls && s.server.calls[c].Looked? && Fresh(s.server, next)
    && s.tab.flight.InFlight? && s.tab.flight.c == c
  }

  // The script of the refresh in flight: its family has ended, or it points at the presented token.
  lemma FlightNeverReused(s: System, c: nat, next: Token)
    requires Shape(s) && FlightOk(s) && Rotating(s, c, next)
    ensures var call := s.server.calls[c];
            var (db, out) := RotateScript(s.server.db, call.held, call.rec, next);
            && call.held == s.tab.flight.rt
            && (out == Invalid || out == Rotated(next, call.rec.user))
            && db == (if out.Rotated? then Save(s.server.db, next, call.rec) else s.server.db)
  {
    assert CallApart(s, c);
  }

  lemma SpentAfterRotation(s: System, c: nat, next: Token, u: Token)
    requires Shape(s) && FlightOk(s) && Rotating(s, c, next) && Spent(Execute(s, c, next).server, u)
    ensures Spent(s.server, u) || (u == s.tab.flight.rt && HasRotated(Execute(s, c, next).server, c))
  {
    var w := Execute(s, c, next).server;
    FlightNeverReused(s, c, next);
    var d :| d in w.calls && w.calls[d].Done? && w.calls[d].held == u && w.calls[d].out.Rotated?;
    if d != c {
      assert d in s.server.calls && s.server.calls[d] == w.calls[d];
    }
  }

  lemma FitSurvivesRotation(s: System, c: nat, next: Token, u: Token)
    requires Shape(s) && FlightOk(s) && Rotating(s, c, next) && Fit(s, u)
    requires u != s.tab.flight.rt || !HasRotated(Execute(s, c, next).server, c)
    ensures Fit(Execute(s, c, next), u)
  {
    var s' := Execute(s, c, next);
    FlightNeverReused(s, c, next);
    if Spent(s'.server, u) {
      SpentAfterRotation(s, c, next, u);
    }
  }

  lemma NextIsFit(s: System, c: nat, next: Token)
    requires Shape(s) && FlightOk(s) && Rotating(s, c, next) && HasRotated(Execute(s, c, next).server, c)
    ensures Fit(Execute(s, c, next), next)
  {
    FlightNeverReused(s, c, next);
    if Spent(Execute(s, c, next).server, next) {
      SpentAfterRotation(s, c, next, next);
      SpentIsMinted(s, next);
    }
  }

  lemma RotatingKeepsFlight(s: System, c: nat, next: Token)
    requires Inv(s) && Rotating(s, c, next)
    ensures FlightOk(Execute(s, c, next)) && NoReuse(Execute(s, c, next))
  {
    var s' := Execute(s, c, next);
    FlightNeverReused(s, c, next);
    if HasRotated(s'.server, c) {
      NextIsFit(s, c, next);
    }
  }

  lemma RotatingKeepsInv(s: System, c: nat, next: Token)
    requires Inv(s) && Rotating(s, c, next)
    ensures Inv(Execute(s, c, next))
  {
    var s' := Execute(s, c, next);
    ExecuteKeepsShape(s, c, next);
    RotatingKeepsFlight(s, c, next);
    assert MailOk(s') by {
      forall t | t in s.mail ensures Fit(s', t) {
        FitSurvivesRotation(s, c, next, t);
      }
    }
    if Fit(s, s.tab.stored) && !(s.tab.stored == s.tab.flight.rt && HasRotated(s'.server, c)) {
      FitSurvivesRotation(s, c, next, s.tab.stored);
    }
  }

  // The script of a request the tab gave up on: if it does not rotate, it can only end the family.
  lemma LateScriptKeepsInv(s: System, c: nat, next: Token)
    requires Inv(s) && c in s.abandoned && c in s.server.calls && s.server.calls[c].Looked? && Fresh(s.server, next)
    requires !HasRotated(Execute(s, c, next).server, c)
    ensures Inv(Execute(s, c, next))
  {
    var s' := Execute(s, c, next);
    ExecuteKeepsShape(s, c, next);
    forall t | Spent(s'.server, t) ensures Spent(s.server, t) {
      var d :| d in s'.server.calls && s'.server.calls[d].Done? && s'.server.calls[d].held == t && s'.server.calls[d].out.Rotated?;
      assert d in s.server.calls && s.server.calls[d] == s'.server.calls[d];
    }
    forall t | Fit(s, t) ensures Fit(s', t) {
    }
  }

  // ---- the tab's own steps

  ghost predicate SameServer(s: System, s': System) {
    && s'.server == s.server && s'.own == s.own && s'.owned == s.owned && s'.requests == s.requests
  }

  // The tab's state changed and nothing else; the refresh in flight, if any, is the same.
  lemma TabKeepsInv(s: System, s': System)
    requires Inv(s) && SameServer(s, s') && s'.abandoned == s.abandoned && s'.stale == s.stale
    requires s'.tab.flight == s.tab.flight && s'.mail <= s.mail
    requires s'.tab.stored in {s.tab.stored, NoToken} + (s.mail - s'.mail)
    ensures Inv(s')
  {
    forall t | Fit(s, t) ensures Fit(s', t) {
    }
    forall c | c in s'.server.calls ensures CallApart(s', c) {
      assert CallApart(s, c);
    }
    forall c | c in s.requests ensures Accounted(s', c) {
      assert Accounted(s, c);
    }
  }

  lemma SendKeepsInv(s: System, tab: Client, c: nat)
    requires Inv(s) && Unused(s, c) && s.tab.flight.NoFlight? && tab.stored == s.tab.stored
    requires tab.flight == InFlight(c, s.tab.stored) && s.tab.stored != NoToken
    ensures Inv(Send(s, tab, c))
  {
    var s' := Send(s, tab, c);
    forall t | Fit(s, t) ensures Fit(s', t) {
    }
    forall d | d in s'.server.calls ensures CallApart(s', d) {
      assert CallApart(s, d);
    }
    forall d | d in s'.requests ensures Accounted(s', d) {
      assert d != c ==> Accounted(s, d);
    }
  }

  // The refresh in flight ends; what it leaves stored is fit or nothing.
  lemma LandKeepsInv(s: System, s': System)
    requires Inv(s) && SameServer(s, s') && s'.stale == s.stale && s'.mail == s.mail
    requires s'.tab.flight.NoFlight? && s.abandoned <= s'.abandoned <= s.requests.Keys
    requires s'.tab.stored == NoToken || (Fit(s, s'.tab.stored) && s'.tab.stored !in s.mail)
    requires s.tab.flight.InFlight? ==> Accounted(s', s.tab.flight.c)
    ensures Inv(s')
  {
    forall t | Fit(s, t) ensures Fit(s', t) {
    }
    forall c | c in s'.server.calls ensures CallApart(s', c) {
      assert CallApart(s, c);
    }
    forall c | c in s.requests ensures Accounted(s', c) {
      assert Accounted(s, c);
    }
  }

  lemma DropKeepsInv(s: System, tab: Client)
    requires Inv(s) && tab.flight.NoFlight? && tab.stored == s.tab.stored
    ensures Inv(Drop(s, tab)) || Drop(s, tab).lostCommit
  {
    if !Drop(s, tab).lostCommit {
      assert s.tab.stored != NoToken ==> s.tab.stored !in s.mail;
      LandKeepsInv(s, Drop(s, tab));
    }
  }

  lemma ReceiveKeepsInv(s: System, served: bool)
    requires Inv(s)
    ensures Inv(Receive(s, served))
  {
    if s.tab.flight.InFlight? && s.tab.flight.c in s.server.calls && s.server.calls[s.tab.flight.c].Done? {
      LandKeepsInv(s, Receive(s, served));
    }
  }

  lemma FetchEndsKeepsInv(s: System, i: nat, unauthorized: bool, ok: bool, c: nat)
    requires Inv(s) && Unused(s, c)
    ensures Inv(Play(s, FetchEnds(i, unauthorized, ok, c)))
  {
    var tab := Responded(s.tab, i, unauthorized, ok, c);
    if tab.flight == s.tab.flight {
      TabKeepsInv(s, s.(tab := tab));
    } else {
      SendKeepsInv(s, tab, c);
    }
  }

  lemma RestoreKeepsInv(s: System, c: nat)
    requires Inv(s) && Unused(s, c)
    ensures Inv(Play(s, Restore(c)))
  {
    var tab := Refreshing(s.tab, c);
    if tab.flight == s.tab.flight {
      TabKeepsInv(s, s.(tab := tab));
    } else {
      SendKeepsInv(s, tab, c);
    }
  }

  lemma ReloadKeepsInv(s: System)
    requires Inv(s)
    ensures Inv(Play(s, Reload)) || Play(s, Reload).lostCommit
  {
    if s.tab.flight.NoFlight? {
      TabKeepsInv(s, Play(s, Reload));
    } else {
      DropKeepsInv(s, Reloaded(s.tab));
    }
  }

  lemma ScriptKeepsInv(s: System, c: nat, next: Token)
    requires Inv(s)
    ensures Inv(Play(s, ServerScript(c, next))) || Play(s, ServerScript(c, next)).lostCommit
  {
    if c in s.requests && c in s.server.calls && s.server.calls[c].Looked? && Fresh(s.server, next) {
      assert Accounted(s, c);
      if c !in s.abandoned {
        RotatingKeepsInv(s, c, next);
      } else if !HasRotated(Execute(s, c, next).server, c) {
        LateScriptKeepsInv(s, c, next);
      }
    }
  }

  lemma PlayKeepsInv(s: System, m: Move)
    requires Inv(s)
    ensures Inv(Play(s, m)) || Play(s, m).lostCommit
  {
    match m
    case Elsewhere(e) =>
      if IsForeign(s, e) {
        ElsewhereKeepsInv(s, e);
      }
    case Login(f, t, user) =>
      if Fresh(s.server, t) && f !in s.server.founded {
        LoginKeepsInv(s, f, t, user);
      }
    case LoginArrives(t) =>
      if t in s.mail {
        TabKeepsInv(s, Play(s, m));
      }
    case LoginLost(t) => TabKeepsInv(s, Play(s, m));
    case Logout => TabKeepsInv(s, Play(s, m));
    case FetchStart(i) => TabKeepsInv(s, Play(s, m));
    case FetchEnds(i, unauthorized, ok, c) =>
      if Unused(s, c) {
        FetchEndsKeepsInv(s, i, unauthorized, ok, c);
      }
    case Restore(c) =>
      if Unused(s, c) {
        RestoreKeepsInv(s, c);
      }
    case Reload => ReloadKeepsInv(s);
    case ServerGet(c) =>
      if c in s.requests && c !in s.server.calls {
        GetKeepsInv(s, c);
      }
    case ServerScript(c, next) => ScriptKeepsInv(s, c, next);
    case ReplyArrives(served) => ReceiveKeepsInv(s, served);
    case GiveUp =>
      if s.tab.flight.InFlight? {
        DropKeepsInv(s, Replied(s.tab, NetworkError));
      }
  }

  lemma LostStays(s: System, m: Move)
    requires s.lostCommit
    ensures Play(s, m).lostCommit
  {
  }

  lemma {:induction false} RunKeepsInv(s: System, ms: seq<Move>)
    requires Inv(s) || s.lostCommit
    ensures Inv(Run(s, ms)) || Run(s, ms).lostCommit
    decreases |ms|
  {
    if ms != [] {
      if s.lostCommit {
        LostStays(s, ms[0]);
      } else {
        PlayKeepsInv(s, ms[0]);
      }
      RunKeepsInv(Play(s, ms[0]), ms[1..]);
    }
  }

  /** Whatever one tab does, in any interleaving with the server and with other clients: if no reply
      to a committed rotation is lost, none of its refreshes is ever answered with reuse, other than
      those it gave up on, and it never sends a token after that token was rotated. */
  lemma HonestTabNeverTripsReuse(ms: seq<Move>)
    ensures var s := Run(Init, ms); s.lostCommit || (NoReuse(s) && !s.stale)
  {
    RunKeepsInv(Init, ms);
  }

  /** What the tab makes of its answer: a rotated token that arrives is stored, anything else signs out. */
  lemma AnswerIsTaken(s: System, served: bool)
    requires s.tab.flight.InFlight? && s.tab.flight.c in s.server.calls && s.server.calls[s.tab.flight.c].Done?
    ensures var out, s' := s.server.calls[s.tab.flight.c].out, Play(s, ReplyArrives(served));
            && s'.tab.flight == NoFlight && s'.server == s.server
            && (out.Rotated? && served ==> s'.tab.stored == out.next && s'.tab.access == out.next)
            && (!out.Rotated? || !served ==> s'.tab.stored == NoToken)
  {
  }

  lemma {:induction false} RunSnoc(s: System, ms: seq<Move>, m: Move)
    ensures Run(s, ms + [m]) == Play(Run(s, ms), m)
    decreases |ms|
  {
    if ms == [] {
      assert Run(s, [m]) == Run(Play(s, m), []);
    } else {
      assert (ms + [m])[1..] == ms[1..] + [m];
      RunSnoc(Play(s, ms[0]), ms[1..], m);
    }
  }

  lemma Extend(ms: seq<Move>, s: System, m: Move) returns (ms': seq<Move>, s': System)
    requires Run(Init, ms) == s
    ensures Run(Init, ms') == s' == Play(s, m)
  {
    RunSnoc(Init, ms, m);
    ms', s' := ms + [m], Play(s, m);
  }

  /** Requests the tab gave up on are not covered.  One whose GET was answered by then runs its script
      after the tab's second request has rotated the same token: the store reports reuse to nobody and
      ends the session, and no rotation's reply was lost. */
  lemma LateScriptTripsReuse() returns (ms: seq<Move>)
    ensures var s := Run(Init, ms);
            && !s.lostCommit && 1 in s.abandoned
            && 1 in s.server.calls && s.server.calls[1] == Done(Minted(1), Reused)
            && s.tab.stored == Minted(2) && !s.server.db.HasFamily(0)
  {
    var s;
    ms, s := RotatedOnce();
    ms, s := Extend(ms, s, ReplyArrives(true));
    assert s.server.calls[1] == Looked(Minted(1), Record(7, 0));
    ms, s := Extend(ms, s, ServerScript(1, Minted(3)));
    assert s.server.calls[1] == Done(Minted(1), Reused);
  }

  /** The assumption is needed: when the reply to a committed rotation is lost, the next refresh
      presents the rotated token, is answered with reuse, and the session ends. */
  lemma LostReplyTripsReuse() returns (ms: seq<Move>)
    ensures var s := Run(Init, ms);
            && s.lostCommit && s.stale && !NoReuse(s) && !s.server.db.HasFamily(0)
  {
    var s;
    ms, s := LostThenLooked();
    var db := s.server.db;
    assert db.HasFamily(0) && db.families[0].value == Minted(2);
    ms, s := Extend(ms, s, ServerScript(2, Minted(3)));
    assert s.server.calls[2] == Done(Minted(1), Reused);
  }

  // Then request 2 presents the rotated token.
  lemma LostThenLooked() returns (ms: seq<Move>, s: System)
    ensures s == Run(Init, ms)
    ensures 2 in s.server.calls && s.server.calls[2] == Looked(Minted(1), Record(7, 0))
    ensures s.server.minted == {Minted(1), Minted(2)}
    ensures s.server.db == Save(Save(Start.db, Minted(1), Record(7, 0)), Minted(2), Record(7, 0))
    ensures 2 in s.requests && s.abandoned == {1} && s.lostCommit && s.stale
  {
    ms, s := OneLost();
    assert HasRotated(s.server, 1) && Spent(s.server, Minted(1));
    ms, s := Extend(ms, s, Restore(2));
    var db := s.server.db;
    assert db.HasToken(Minted(1)) && db.tokens[Minted(1)].value == Record(7, 0);
    ms, s := Extend(ms, s, ServerGet(2));
  }

  // Request 1 rotates, and its reply is lost.
  lemma OneLost() returns (ms: seq<Move>, s: System)
    ensures s == Run(Init, ms)
    ensures s.server.calls == map[1 := Done(Minted(1), Rotated(Minted(2), 7))] && s.server.minted == {Minted(1), Minted(2)}
    ensures s.server.db == Save(Save(Start.db, Minted(1), Record(7, 0)), Minted(2), Record(7, 0))
    ensures s.tab.flight == NoFlight && s.tab.stored == Minted(1)
    ensures s.requests == map[1 := Minted(1)] && s.abandoned == {1} && s.lostCommit
  {
    ms, s := OneLookup();
    ms, s := Extend(ms, s, ServerScript(1, Minted(2)));
    assert s.server.calls[1] == Done(Minted(1), Rotated(Minted(2), 7));
    assert s.server.minted == {Minted(1), Minted(2)};
    ms, s := Extend(ms, s, GiveUp);
    assert s.abandoned == {1};
  }

  // Then request 2 rotates.
  lemma RotatedOnce() returns (ms: seq<Move>, s: System)
    ensures s == Run(Init, ms)
    ensures s.server.calls == map[1 := Looked(Minted(1), Record(7, 0)), 2 := Done(Minted(1), Rotated(Minted(2), 7))]
    ensures s.server.db == Save(Save(Start.db, Minted(1), Record(7, 0)), Minted(2), Record(7, 0))
    ensures s.server.minted == {Minted(1), Minted(2)}
    ensures s.tab.flight == InFlight(2, Minted(1)) && s.tab.stored == Minted(1)
    ensures s.requests == map[1 := Minted(1), 2 := Minted(1)] && s.abandoned == {1} && !s.lostCommit
  {
    ms, s := TwoLookups();
    ms, s := Extend(ms, s, ServerScript(2, Minted(2)));
    assert s.server.calls[2] == Done(Minted(1), Rotated(Minted(2), 7));
    assert s.server.minted == {Minted(1), Minted(2)};
  }

  // Request 1 is given up after its GET; request 2 has done its GET with the same token.
  lemma TwoLookups() returns (ms: seq<Move>, s: System)
    ensures s == Run(Init, ms)
    ensures s.server.calls == map[1 := Looked(Minted(1), Record(7, 0)), 2 := Looked(Minted(1), Record(7, 0))]
    ensures s.server.db == Save(Start.db, Minted(1), Record(7, 0)) && s.server.minted == {Minted(1)}
    ensures s.tab.flight == InFlight(2, Minted(1)) && s.tab.stored == Minted(1)
    ensures s.requests == map[1 := Minted(1), 2 := Minted(1)] && s.abandoned == {1} && !s.lostCommit
  {
    ms, s := OneGivenUp();
    ms, s := Extend(ms, s, Restore(2));
    assert s.requests == map[1 := Minted(1), 2 := Minted(1)];
    ms, s := Extend(ms, s, ServerGet(2));
  }

  lemma OneGivenUp() returns (ms: seq<Move>, s: System)
    ensures s == Run(Init, ms)
    ensures s.server.calls == map[1 := Looked(Minted(1), Record(7, 0))]
    ensures s.server.db == Save(Start.db, Minted(1), Record(7, 0)) && s.server.minted == {Minted(1)}
    ensures s.tab.flight == NoFlight && s.tab.stored == Minted(1)
    ensures s.requests == map[1 := Minted(1)] && s.abandoned == {1} && !s.lostCommit
  {
    ms, s := OneLookup();
    ms, s := Extend(ms, s, GiveUp);
    assert s.abandoned == {1};
  }

  lemma OneLookup() returns (ms: seq<Move>, s: System)
    ensures s == Run(Init, ms)
    ensures s.server.calls == map[1 := Looked(Minted(1), Record(7, 0))]
    ensures s.server.db == Save(Start.db, Minted(1), Record(7, 0)) && s.server.minted == {Minted(1)}
    ensures s.tab.flight == InFlight(1, Minted(1)) && s.tab.stored == Minted(1)
    ensures s.requests == map[1 := Minted(1)] && s.abandoned == {} && !s.lostCommit
  {
    ms, s := Extend([], Init, Login(0, Minted(1), 7));
    ms, s := Extend(ms, s, LoginArrives(Minted(1)));
    ms, s := Extend(ms, s, Restore(1));
    ms, s := Extend(ms, s, ServerGet(1));
  }
}
