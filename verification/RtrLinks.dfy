/** The other half of the chain: every link of a line was made by a call, so reuse is reported
    exactly for tokens that some call rotated. */
module RtrLinks {
  import opened RtrRedis
  import opened RtrLedger
  import opened RtrRefinement
  import opened RtrTheorems

  ghost predicate MadeBy(l: Ledger, c: nat, a: Token, b: Token) {
    l.Won(c) && l.turns[c].t == a && l.turns[c].out.next == b
  }

  ghost predicate LinkMade(l: Ledger, a: Token, b: Token) {
    exists c :: MadeBy(l, c, a, b)
  }

  ghost predicate LinksMade(l: Ledger) {
    forall f, i :: f in l.lines && 0 <= i < |l.lines[f].chain| - 1 ==> LinkMade(l, l.lines[f].chain[i], l.lines[f].chain[i + 1])
  }

  lemma WinsStay(l: Ledger, l': Ledger)
    requires forall c :: l.Won(c) ==> c in l'.turns && l'.turns[c] == l.turns[c]
    ensures forall a, b :: LinkMade(l, a, b) ==> LinkMade(l', a, b)
  {
    forall a, b | LinkMade(l, a, b) ensures LinkMade(l', a, b) {
      var c :| MadeBy(l, c, a, b);
      assert MadeBy(l', c, a, b);
    }
  }

  // Lines either kept their chain or got one more link, which call `c` won.
  lemma ChainsKeepLinks(l: Ledger, l': Ledger, c: nat, t: Token, next: Token)
    requires LinksMade(l) && forall a, b :: LinkMade(l, a, b) ==> LinkMade(l', a, b)
    requires forall g <- l'.lines :: g in l.lines && l.lines[g].chain != []
    requires forall g <- l'.lines ::
      || l'.lines[g].chain == l.lines[g].chain
      || (l'.lines[g].chain == l.lines[g].chain + [next] && l.Last(g) == t && MadeBy(l', c, t, next))
    ensures LinksMade(l')
  {
    forall g, i | g in l'.lines && 0 <= i < |l'.lines[g].chain| - 1
      ensures LinkMade(l', l'.lines[g].chain[i], l'.lines[g].chain[i + 1])
    {
      if i < |l.lines[g].chain| - 1 {
        assert LinkMade(l, l.lines[g].chain[i], l.lines[g].chain[i + 1]);
      }
    }
  }

  lemma ScriptKeepsLinks(l: Ledger, c: nat, next: Token)
    requires l.Valid() && LinksMade(l) && c in l.turns && l.turns[c].Waiting? && next !in l.minted
    requires l.turns[c].t in l.home && l.home[l.turns[c].t] in l.lines
    ensures LinksMade(Answer(l, c, l.turns[c].t, next))
  {
    var t := l.turns[c].t;
    var l' := Answer(l, c, t, next);
    AnswerKeepsWins(l, c, next);
    WinsStay(l, l');
    AnswerChains(l, c, next);
    ChainsKeepLinks(l, l', c, t, next);
  }

  lemma AnswerKeepsWins(l: Ledger, c: nat, next: Token)
    requires c in l.turns && l.turns[c].Waiting? && l.turns[c].t in l.home && l.home[l.turns[c].t] in l.lines
    ensures var l' := Answer(l, c, l.turns[c].t, next);
            forall d :: l.Won(d) ==> d in l'.turns && l'.turns[d] == l.turns[d]
  {
    SettleFrame(l, l.turns[c].t, next);
  }

  lemma AnswerChains(l: Ledger, c: nat, next: Token)
    requires l.Valid() && c in l.turns && l.turns[c].Waiting? && next !in l.minted
    requires l.turns[c].t in l.home && l.home[l.turns[c].t] in l.lines
    ensures var t := l.turns[c].t;
            var l' := Answer(l, c, t, next);
            && (forall g <- l'.lines :: g in l.lines && l.lines[g].chain != [])
            && (forall g <- l'.lines ::
                  || l'.lines[g].chain == l.lines[g].chain
                  || (l'.lines[g].chain == l.lines[g].chain + [next] && l.Last(g) == t && MadeBy(l', c, t, next)))
  {
  }

  lemma EnterKeepsLinks(l: Ledger, e: Event)
    requires l.Valid() && LinksMade(l)
    ensures LinksMade(Enter(l, e))
  {
    if e.Script? {
      if e.c in l.turns && l.turns[e.c].Waiting? && e.next !in l.minted {
        assert l.TurnOk(l.turns[e.c]);
        ScriptKeepsLinks(l, e.c, e.next);
      }
    } else {
      var l' := Enter(l, e);
      OthersWinNothing(l, e);
      WinsStay(l, l');
      forall g, i | g in l'.lines && 0 <= i < |l'.lines[g].chain| - 1
        ensures LinkMade(l', l'.lines[g].chain[i], l'.lines[g].chain[i + 1])
      {
        assert LinkMade(l, l.lines[g].chain[i], l.lines[g].chain[i + 1]);
      }
    }
  }

  // Any event but a script leaves the wins as they are, and lengthens no line past its first token.
  lemma OthersWinNothing(l: Ledger, e: Event)
    requires !e.Script?
    ensures forall c :: l.Won(c) ==> c in Enter(l, e).turns && Enter(l, e).turns[c] == l.turns[c]
    ensures forall g <- Enter(l, e).lines ::
              (g in l.lines && Enter(l, e).lines[g].chain == l.lines[g].chain) || |Enter(l, e).lines[g].chain| == 1
  {
  }

  lemma {:induction false} PlayKeepsLinks(l: Ledger, es: seq<Event>)
    requires l.Valid() && LinksMade(l)
    ensures LinksMade(Play(l, es))
    decreases |es|
  {
    if es != [] {
      EnterKeepsValid(l, es[0]);
      EnterKeepsLinks(l, es[0]);
      PlayKeepsLinks(Enter(l, es[0]), es[1..]);
    }
  }

  lemma RetiredWasRotated(w: World, l: Ledger, t: Token)
    requires Linked(w, l) && LinksMade(l) && t in l.home
    ensures t != l.Last(l.home[t]) <==> Spent(w, t)
  {
    if t != l.Last(l.home[t]) {
      RetiredIsSpent(w, l, t);
    }
    if Spent(w, t) {
      var c :| c in w.calls && w.calls[c].Done? && w.calls[c].held == t && w.calls[c].out.Rotated?;
      assert SameTurn(w.calls[c], l.turns[c], l);
      LastDidNotWin(l, l.home[t], c);
    }
  }

  lemma RetiredIsSpent(w: World, l: Ledger, t: Token)
    requires Linked(w, l) && LinksMade(l) && t in l.home && t != l.Last(l.home[t])
    ensures Spent(w, t)
  {
    var next := NextLink(l, t);
    var c :| MadeBy(l, c, t, next);
    assert SameTurn(w.calls[c], l.turns[c], l);
  }

  lemma NextLink(l: Ledger, t: Token) returns (next: Token)
    requires l.Valid() && LinksMade(l) && t in l.home && t != l.Last(l.home[t])
    ensures LinkMade(l, t, next)
  {
    var chain := l.lines[l.home[t]].chain;
    var i :| 0 <= i < |chain| && chain[i] == t;
    next := chain[i + 1];
    assert LinkMade(l, chain[i], chain[i + 1]);
  }

  /** In every reachable state, a call past its GET is answered with reuse exactly when its family key
      is still readable and some call has rotated its token before. */
  lemma ReuseIsExact(es: seq<Event>, c: nat, next: Token)
    requires var w := Exec(Start, es); c in w.calls && w.calls[c].Looked? && Fresh(w, next)
    ensures var w := Exec(Start, es);
            var Looked(t, rec) := w.calls[c];
            RotateScript(w.db, t, rec, next).1 == Reused <==> w.db.HasFamily(rec.family) && Spent(w, t)
  {
    BlankIsLinked();
    RunRefines(Start, Blank, es);
    PlayKeepsLinks(Blank, es);
    ReuseByLedger(Exec(Start, es), Play(Blank, es), c, next);
  }

  lemma ReuseByLedger(w: World, l: Ledger, c: nat, next: Token)
    requires Linked(w, l) && LinksMade(l) && c in w.calls && w.calls[c].Looked? && Fresh(w, next)
    ensures var Looked(t, rec) := w.calls[c];
            RotateScript(w.db, t, rec, next).1 == Reused <==> w.db.HasFamily(rec.family) && Spent(w, t)
  {
    var Looked(t, rec) := w.calls[c];
    assert SameTurn(w.calls[c], l.turns[c], l);
    ScriptSettles(w.db, l, t, next);
    AliveIsReadable(w.db, l, rec.family);
    RetiredWasRotated(w, l, t);
  }
}
