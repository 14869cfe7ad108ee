/** When a refresh of the tab trips reuse detection, exactly. */
module ClientServerReuse {
  import opened RtrRedis
  import opened ClientServer
  import opened ClientServerProofs
  import RtrLinks

  /** What a move does to the store. */
  function Effect(s: System, m: Move): seq<Event> {
    match m
    case Elsewhere(e) => if IsForeign(s, e) then [e] else []
    case Login(f, t, user) => [Issue(f, t, user)]
    case ServerGet(c) => if c in s.requests then [Lookup(c, s.requests[c])] else []
    case ServerScript(c, next) => if c in s.requests then [Script(c, next)] else []
    case _ => []
  }

  lemma OneEvent(w: World, e: Event)
    ensures Exec(w, [e]) == Apply(w, e)
  {
    assert [e][1..] == [];
    assert Exec(Apply(w, e), []) == Apply(w, e);
  }

  lemma EffectIsExact(s: System, m: Move)
    ensures Exec(s.server, Effect(s, m)) == Play(s, m).server
  {
    if Effect(s, m) != [] {
      OneEvent(s.server, Effect(s, m)[0]);
    }
  }

  /** Seen from the store, whatever the tab does is one of the store's runs. */
  lemma {:induction false} ServerIsARun(s: System, ms: seq<Move>) returns (es: seq<Event>)
    ensures Exec(s.server, es) == Run(s, ms).server
    decreases |ms|
  {
    if ms == [] {
      es := [];
    } else {
      var later := ServerIsARun(Play(s, ms[0]), ms[1..]);
      es := Effect(s, ms[0]) + later;
      EffectIsExact(s, ms[0]);
      ExecConcat(s.server, Effect(s, ms[0]), later);
    }
  }

  /** The script of any refresh request of the tab is answered with reuse if and only if its family is
      still readable and its token has been rotated before.  For a request the tab still waits for
      that never holds unless a committed rotation's reply was lost. */
  lemma RefreshReuseIsExact(ms: seq<Move>, c: nat, next: Token)
    requires var s := Run(Init, ms); c in s.requests && c in s.server.calls && s.server.calls[c].Looked? && Fresh(s.server, next)
    ensures var s, s' := Run(Init, ms), Play(Run(Init, ms), ServerScript(c, next));
            && c in s'.server.calls && s'.server.calls[c].Done?
            && (s'.server.calls[c].out == Reused <==>
                  s.server.db.HasFamily(s.server.calls[c].rec.family) && Spent(s.server, s.server.calls[c].held))
            && (s'.server.calls[c].out == Reused ==> s'.lostCommit || c in s.abandoned)
  {
    var es := ServerIsARun(Init, ms);
    RtrLinks.ReuseIsExact(es, c, next);
    RunSnoc(Init, ms, ServerScript(c, next));
    HonestTabNeverTripsReuse(ms + [ServerScript(c, next)]);
  }
}
