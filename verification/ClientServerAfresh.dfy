/** After a reply was lost: when a tab is safe again. */
module ClientServerAfresh {
  import opened RtrRedis
  import opened WebClient
  import opened ClientServer
  import opened ClientServerProofs
  import opened ClientServerReuse
  import opened RtrRefinement
  import RtrTheorems
  import Collections

  // ---- what every run keeps, lost replies or not

  /** A login response on its way holds a token that nobody has used. */
  ghost predicate MailUnused(s: System) {
    && s.tab.stored !in s.mail
    && (forall c :: c in s.requests ==> s.requests[c] !in s.mail)
    && (forall c :: HasRotated(s.server, c) ==>
          && s.server.calls[c].out.next !in s.mail && s.server.calls[c].out.next in s.server.minted
          && (c in s.requests ==> s.server.calls[c].out.next in s.owned))
  }

  ghost predicate Sound(s: System) {
    Shape(s) && MailUnused(s)
  }

  lemma QuietlyShape(s: System, db: Redis)
    requires Shape(s) && Apart(WithDb(s, db, s.server.minted))
    ensures Shape(s.(server := s.server.(db := db)))
  {
    var w := s.server.(db := db);
    assert s.(server := w) == WithDb(s, db, s.server.minted);
    forall c | c in w.calls ensures CallApart(s.(server := w), c) {
      assert CallApart(s, c);
    }
    forall t | Spent(w, t) ensures Spent(s.server, t) {
      var d :| d in w.calls && w.calls[d].Done? && w.calls[d].held == t && w.calls[d].out.Rotated?;
      assert d in s.server.calls;
    }
    OwnedStays(s, w);
  }

  lemma IssueElsewhereShape(s: System, f: Family, t: Token, user: int)
    requires Shape(s) && Fresh(s.server, t) && f !in s.server.founded
    ensures Shape(s.(server := Apply(s.server, Issue(f, t, user))))
  {
    var w := Apply(s.server, Issue(f, t, user));
    ForeignIssue(s, f, t, user);
    forall c | c in w.calls ensures CallApart(s.(server := w), c) {
      assert CallApart(s, c);
    }
    OwnedStays(s, w);
  }

  lemma LookupElsewhereShape(s: System, c: nat, t: Token)
    requires Shape(s) && c !in s.requests && t !in s.owned && c !in s.server.calls
    ensures Shape(s.(server := Apply(s.server, Lookup(c, t))))
  {
    var w := Apply(s.server, Lookup(c, t));
    ForeignLookup(s, c, t);
    CallsApartStay(s, w, c);
    OwnedStays(s, w);
  }

  lemma ScriptElsewhereShape(s: System, c: nat, next: Token)
    requires Shape(s) && c !in s.requests && c in s.server.calls && s.server.calls[c].Looked? && Fresh(s.server, next)
    ensures Shape(s.(server := RunScript(s.server, c, s.server.calls[c].held, s.server.calls[c].rec, next)))
  {
    var w := RunScript(s.server, c, s.server.calls[c].held, s.server.calls[c].rec, next);
    ForeignScript(s, c, next);
    CallsApartStay(s, w, c);
    OwnedStays(s, w);
  }

  lemma ElsewhereShape(s: System, e: Event)
    requires Shape(s) && IsForeign(s, e)
    ensures Shape(s.(server := Apply(s.server, e)))
  {
    match e
    case Issue(f, t, user) =>
      if Fresh(s.server, t) && f !in s.server.founded {
        IssueElsewhereShape(s, f, t, user);
      }
    case Lookup(c, t) =>
      if c !in s.server.calls {
        LookupElsewhereShape(s, c, t);
      }
    case Script(c, next) =>
      if c in s.server.calls && s.server.calls[c].Looked? && Fresh(s.server, next) {
        ScriptElsewhereShape(s, c, next);
      }
    case Revoke(f, ts) =>
      DeleteElsewhere(s, f, Named(ts), s.server.minted);
      QuietlyShape(s, Delete(s.server.db, f, Named(ts)));
    case Advance(ms) =>
      QuietlyShape(s, s.server.db.(now := s.server.db.now + ms));
  }

  lemma GetShape(s: System, c: nat)
    requires Shape(s) && c in s.requests && c !in s.server.calls
    ensures Shape(Play(s, ServerGet(c)))
  {
    var w := Apply(s.server, Lookup(c, s.requests[c]));
    var s' := s.(server := w);
    CallsApartStay(s, w, c);
    forall d | d in s.requests ensures Accounted(s', d) {
      assert Accounted(s, d);
    }
  }

  // The tab moved; what it sent is the same.
  lemma TabShape(s: System, s': System)
    requires Shape(s) && SameServer(s, s') && s'.mail <= s.mail && s.abandoned <= s'.abandoned <= s.requests.Keys
    requires s'.tab.stored == NoToken || s'.tab.stored in s.owned
    requires s'.tab.flight.NoFlight? || (s'.tab.flight == s.tab.flight && s'.abandoned == s.abandoned)
    requires s.tab.flight.InFlight? ==> s'.tab.flight == s.tab.flight || Accounted(s', s.tab.flight.c)
    ensures Shape(s')
  {
    forall c | c in s'.server.calls ensures CallApart(s', c) {
      assert CallApart(s, c);
    }
    forall c | c in s.requests ensures Accounted(s', c) {
      assert Accounted(s, c);
    }
  }

  lemma SendShape(s: System, tab: Client, c: nat)
    requires Shape(s) && Unused(s, c) && s.tab.flight.NoFlight? && tab.stored == s.tab.stored
    requires tab.flight == InFlight(c, s.tab.stored) && s.tab.stored != NoToken
    ensures Shape(Send(s, tab, c))
  {
    var s' := Send(s, tab, c);
    forall d | d in s'.server.calls ensures CallApart(s', d) {
      assert CallApart(s, d);
    }
    forall d | d in s'.requests ensures Accounted(s', d) {
      assert d != c ==> Accounted(s, d);
    }
  }

  // A refresh that the tab may start now.
  lemma MaybeSend(s: System, tab: Client, c: nat)
    requires Sound(s) && Unused(s, c) && tab.stored == s.tab.stored
    requires tab.flight == s.tab.flight || (s.tab.flight.NoFlight? && s.tab.stored != NoToken && tab.flight == InFlight(c, s.tab.stored))
    ensures Sound(Send(s, tab, c))
  {
    if tab.flight == s.tab.flight {
      TabShape(s, s.(tab := tab));
    } else {
      SendShape(s, tab, c);
    }
  }

  lemma ReceiveShape(s: System, served: bool)
    requires Sound(s)
    ensures Sound(Receive(s, served))
  {
    if s.tab.flight.InFlight? && s.tab.flight.c in s.server.calls && s.server.calls[s.tab.flight.c].Done? {
      TabShape(s, Receive(s, served));
    }
  }

  lemma ElsewhereMail(s: System, e: Event)
    requires Sound(s) && IsForeign(s, e)
    ensures MailUnused(s.(server := Apply(s.server, e)))
  {
  }

  lemma ExecuteMail(s: System, c: nat, next: Token)
    requires Sound(s) && c in s.server.calls && s.server.calls[c].Looked? && Fresh(s.server, next)
    ensures MailUnused(Execute(s, c, next))
  {
  }

  lemma LoginMail(s: System, f: Family, t: Token, user: int)
    requires Sound(s)
    ensures MailUnused(Play(s, Login(f, t, user)))
  {
  }

  lemma ServerMove(s: System, m: Move)
    requires Sound(s) && (m.Elsewhere? || m.Login? || m.ServerGet? || m.ServerScript?)
    ensures Sound(Play(s, m))
  {
    match m
    case Elsewhere(e) =>
      if IsForeign(s, e) {
        ElsewhereShape(s, e);
        ElsewhereMail(s, e);
      }
    case Login(f, t, user) =>
      LoginMail(s, f, t, user);
      if Fresh(s.server, t) && f !in s.server.founded {
        LoginKeepsShape(s, f, t, user);
      }
    case ServerGet(c) =>
      if c in s.requests && c !in s.server.calls {
        GetShape(s, c);
      }
    case ServerScript(c, next) =>
      if c in s.requests && c in s.server.calls && s.server.calls[c].Looked? && Fresh(s.server, next) {
        ExecuteKeepsShape(s, c, next);
        ExecuteMail(s, c, next);
      }
  }

  lemma TabMove(s: System, m: Move)
    requires Sound(s) && !m.Elsewhere? && !m.Login? && !m.ServerGet? && !m.ServerScript?
    ensures Sound(Play(s, m))
  {
    match m
    case FetchEnds(i, unauthorized, ok, c) =>
      if Unused(s, c) {
        MaybeSend(s, Responded(s.tab, i, unauthorized, ok, c), c);
      }
    case Restore(c) =>
      if Unused(s, c) {
        MaybeSend(s, Refreshing(s.tab, c), c);
      }
    case ReplyArrives(served) => ReceiveShape(s, served);
    case _ => TabShape(s, Play(s, m));
  }

  lemma {:induction false} SoundKept(s: System, ms: seq<Move>)
    requires Sound(s)
    ensures Sound(Run(s, ms))
    decreases |ms|
  {
    if ms != [] {
      var m := ms[0];
      if m.Elsewhere? || m.Login? || m.ServerGet? || m.ServerScript? {
        ServerMove(s, m);
      } else {
        TabMove(s, m);
      }
      SoundKept(Play(s, m), ms[1..]);
    }
  }

  // ---- a fresh start

  // No pointer names a token that was rotated, so the family of one that was not names it or nothing.
  lemma UnspentIsNewest(w: World, l: RtrLedger.Ledger, t: Token)
    requires Linked(w, l) && RtrLinks.LinksMade(l) && !Spent(w, t)
    ensures Newest(w, t)
  {
    if t in w.db.tokens && w.db.tokens[t].value.family in w.db.families {
      assert t in l.home;
      RtrLinks.RetiredWasRotated(w, l, t);
    }
  }

  lemma UnspentIsFit(ms: seq<Move>, t: Token)
    requires var s := Run(Init, ms); t in s.owned && !Spent(s.server, t)
    ensures Fit(Run(Init, ms), t)
  {
    var es := ServerIsARun(Init, ms);
    RtrTheorems.BlankIsLinked();
    RunRefines(Start, RtrLedger.Blank, es);
    RtrLinks.PlayKeepsLinks(RtrLedger.Blank, es);
    UnspentIsNewest(Exec(Start, es), RtrLedger.Play(RtrLedger.Blank, es), t);
  }

  lemma MailIsUnspent(s: System, t: Token)
    requires Sound(s) && t in s.mail
    ensures !Spent(s.server, t)
  {
  }

  /** The same system with its past written off: every request so far counts as given up. */
  ghost function Afresh(s: System): System {
    s.(abandoned := s.requests.Keys, lostCommit := false, stale := false)
  }

  lemma AfreshIsOk(ms: seq<Move>)
    requires var s := Run(Init, ms);
             && s.tab.flight.NoFlight? && (s.tab.stored == NoToken || !Spent(s.server, s.tab.stored))
    ensures Inv(Afresh(Run(Init, ms)))
  {
    var s := Run(Init, ms);
    SoundKept(Init, ms);
    var s' := Afresh(s);
    TabShape(s, s');
    forall t | t in s.mail ensures Fit(s', t) {
      MailIsUnspent(s, t);
      UnspentIsFit(ms, t);
      assert Fit(s, t);
    }
    if s.tab.stored != NoToken {
      UnspentIsFit(ms, s.tab.stored);
      assert Fit(s, s.tab.stored);
    }
  }

  lemma StaleRestore(s: System, c: nat)
    requires s.tab.flight.NoFlight? && s.tab.stored != NoToken && Spent(s.server, s.tab.stored) && Unused(s, c)
    ensures var s' := Run(Afresh(s), [Restore(c)]); !s'.lostCommit && s'.stale
  {
    assert [Restore(c)][1..] == [];
    assert Run(Afresh(s), [Restore(c)]) == Run(Play(Afresh(s), Restore(c)), []);
  }

  /** In every reachable state with no refresh in flight, whatever was lost before: from now on, as long as
      no further reply to a committed rotation is lost, the tab sends no rotated token and none of its new
      refreshes it waits for is answered with reuse, if and only if the token it has stored, if any,
      was never rotated. */
  lemma SafeAgainIff(ms: seq<Move>)
    requires Run(Init, ms).tab.flight.NoFlight?
    ensures var s := Run(Init, ms);
            (forall ns :: Run(Afresh(s), ns).lostCommit || Safe(Run(Afresh(s), ns))) <==>
              s.tab.stored == NoToken || !Spent(s.server, s.tab.stored)
  {
    var s := Run(Init, ms);
    if s.tab.stored == NoToken || !Spent(s.server, s.tab.stored) {
      AfreshIsOk(ms);
      forall ns ensures Run(Afresh(s), ns).lostCommit || Safe(Run(Afresh(s), ns)) {
        RunKeepsInv(Afresh(s), ns);
      }
    } else {
      var c := NewId(s);
      StaleRestore(s, c);
    }
  }

  lemma NewId(s: System) returns (c: nat)
    ensures Unused(s, c)
  {
    c := Collections.Above(s.requests.Keys + s.server.calls.Keys);
  }
}
