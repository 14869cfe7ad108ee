/** What refresh token rotation guarantees over every run: any interleaving of logins, lookups,
    scripts, revocations and passing time, with any number of calls in flight. */
module RtrTheorems {
  import opened RtrRedis
  import opened RtrLedger
  import opened RtrRefinement

  lemma BlankIsLinked()
    ensures Linked(Start, Blank)
  {
    assert forall c :: !Blank.Won(c);
  }

  // ---- what a line keeps forever

  ghost predicate Grows(l: Ledger, l': Ledger) {
    && l.now <= l'.now
    && (forall f <- l.lines :: f in l'.lines && LineGrows(l.lines[f], l'.lines[f]))
    && (forall t <- l.home :: t in l'.home && l'.home[t] == l.home[t])
  }

  ghost predicate LineGrows(a: Line, b: Line) {
    b.user == a.user && a.chain <= b.chain && (b.open ==> a.open)
  }

  lemma SettleGrows(l: Ledger, t: Token, next: Token)
    requires t in l.home && l.home[t] in l.lines && next !in l.home
    ensures Grows(l, l.Settle(t, next).0)
  {
  }

  lemma EnterGrows(l: Ledger, e: Event)
    requires l.Valid()
    ensures Grows(l, Enter(l, e))
  {
    if e.Script? && e.c in l.turns && l.turns[e.c].Waiting? && e.next !in l.minted {
      assert l.TurnOk(l.turns[e.c]);
      SettleGrows(l, l.turns[e.c].t, e.next);
    }
  }

  lemma {:induction false} PlayGrows(l: Ledger, es: seq<Event>)
    requires l.Valid()
    ensures Grows(l, Play(l, es))
    decreases |es|
  {
    if es != [] {
      EnterKeepsValid(l, es[0]);
      EnterGrows(l, es[0]);
      PlayGrows(Enter(l, es[0]), es[1..]);
    }
  }

  lemma {:induction false} PlayConcat(l: Ledger, a: seq<Event>, b: seq<Event>)
    ensures Play(l, a + b) == Play(Play(l, a), b)
    decreases |a|
  {
    if a == [] {
      assert a + b == b;
    } else {
      assert (a + b)[1..] == a[1..] + b;
      PlayConcat(Enter(l, a[0]), a[1..], b);
    }
  }

  /** Every token is rotated at most once, and every success is a link of one chain: the line that
      holds the presented token goes on with the returned one, and names the returned user. */
  lemma LinearChain(es: seq<Event>, c: nat, d: nat)
    requires var w := Exec(Start, es); c in w.calls && w.calls[c].Done? && w.calls[c].out.Rotated?
    ensures var w, l := Exec(Start, es), Play(Blank, es);
            var Done(t, Rotated(next, user)) := w.calls[c];
            && t in l.home && l.home[t] in l.lines
            && Follows(l.lines[l.home[t]].chain, t, next)
            && l.lines[l.home[t]].user == user
            && (d in w.calls && w.calls[d].Done? && w.calls[d].out.Rotated? && w.calls[d].held == t ==> d == c)
  {
    BlankIsLinked();
    RunRefines(Start, Blank, es);
    var w, l := Exec(Start, es), Play(Blank, es);
    assert SameTurn(w.calls[c], l.turns[c], l);
    assert l.TurnOk(l.turns[c]);
    if d in w.calls && w.calls[d].Done? && w.calls[d].out.Rotated? && w.calls[d].held == w.calls[c].held {
      assert SameTurn(w.calls[d], l.turns[d], l);
      assert l.Won(c) && l.Won(d);
    }
  }

  /** The chain of a family starts at the token its login was given and ends at the token its
      Redis pointer names, as long as the family key is readable; it belongs to the login's user. */
  lemma ChainEnds(before: seq<Event>, f: Family, t: Token, user: int, after: seq<Event>)
    requires Fresh(Exec(Start, before), t) && f !in Exec(Start, before).founded
    ensures var es := before + [Issue(f, t, user)] + after;
            var w, l := Exec(Start, es), Play(Blank, es);
            && f in l.lines && l.lines[f].user == user
            && l.lines[f].chain != [] && l.lines[f].chain[0] == t
            && (w.db.HasFamily(f) ==> w.db.families[f].value == l.Last(f))
  {
    var es := before + [Issue(f, t, user)] + after;
    BlankIsLinked();
    RunRefines(Start, Blank, before);
    RunRefines(Start, Blank, es);
    var l := Play(Blank, before);
    PlayConcat(Blank, before + [Issue(f, t, user)], after);
    PlayConcat(Blank, before, [Issue(f, t, user)]);
    var l1 := Enter(l, Issue(f, t, user));
    assert Play(l, [Issue(f, t, user)]) == l1;
    assert l1.lines[f] == Line(user, [t], true);
    EnterKeepsValid(l, Issue(f, t, user));
    PlayGrows(l1, after);
    assert LineGrows(l1.lines[f], Play(Blank, es).lines[f]);
  }

  // ---- revocation is permanent

  ghost predicate Dead(l: Ledger, f: Family) {
    f in l.lines && !l.Alive(f)
  }

  lemma DeadStays(l: Ledger, e: Event, f: Family)
    requires l.Valid() && Dead(l, f)
    ensures Dead(Enter(l, e), f) && Enter(l, e).lines[f].chain == l.lines[f].chain
  {
    LastIsHome(l, f);
    match e
    case Script(c, next) =>
      if c in l.turns && l.turns[c].Waiting? && next !in l.minted && next != NoToken {
        assert l.TurnOk(l.turns[c]);
        DeadSettle(l, l.turns[c].t, next, f);
      }
    case Issue(g, t, user) =>
      if t !in l.minted && g !in l.lines {
        DeadExtend(l, g, user, t, f);
      }
    case Revoke(g, ts) => DeadClose(l, g, l.Struck(ts), f);
    case _ => DeadQuiet(l, Enter(l, e), f);
  }

  lemma DeadQuiet(l: Ledger, l': Ledger, f: Family)
    requires Dead(l, f) && l'.lines == l.lines && l'.born == l.born && l'.now >= l.now
    ensures Dead(l', f) && l'.lines[f].chain == l.lines[f].chain
  {
  }

  lemma DeadClose(l: Ledger, g: Family, ts: set<Token>, f: Family)
    requires Dead(l, f)
    ensures Dead(l.Close(g, ts), f) && l.Close(g, ts).lines[f].chain == l.lines[f].chain
  {
  }

  lemma DeadExtend(l: Ledger, g: Family, user: int, t: Token, f: Family)
    requires l.Valid() && Dead(l, f) && t !in l.minted && g !in l.lines
    ensures Dead(l.Extend(g, user, t), f) && l.Extend(g, user, t).lines[f].chain == l.lines[f].chain
  {
    LastIsHome(l, f);
  }

  lemma LastIsHome(l: Ledger, f: Family)
    requires l.Valid() && f in l.lines
    ensures l.lines[f].chain != [] && l.Last(f) in l.home && l.Last(f) in l.minted
  {
    assert InOrder(l.lines[f].chain, f, l.home, l.born);
  }

  lemma DeadSettle(l: Ledger, t: Token, next: Token, f: Family)
    requires l.Valid() && Dead(l, f) && t in l.home && next !in l.minted
    ensures Dead(l.Settle(t, next).0, f) && l.Settle(t, next).0.lines[f].chain == l.lines[f].chain
  {
    assert InOrder(l.lines[f].chain, f, l.home, l.born);
    assert l.Last(f) in l.home;
  }

  lemma {:induction false} DeadForever(l: Ledger, es: seq<Event>, f: Family)
    requires l.Valid() && Dead(l, f)
    ensures Dead(Play(l, es), f) && Play(l, es).lines[f].chain == l.lines[f].chain
    decreases |es|
  {
    if es != [] {
      EnterKeepsValid(l, es[0]);
      DeadStays(l, es[0], f);
      DeadForever(Enter(l, es[0]), es[1..], f);
    }
  }

  // Calls that won on a token of line `f` before `l'` had won before `l` already.
  ghost predicate NoNewWins(l: Ledger, l': Ledger, f: Family) {
    forall c :: l'.Won(c) && l'.turns[c].t in l'.home && l'.home[l'.turns[c].t] == f ==>
      c in l.turns && l.turns[c] == l'.turns[c]
  }

  lemma DeadWinsNothing(l: Ledger, e: Event, f: Family)
    requires l.Valid() && Dead(l, f)
    ensures NoNewWins(l, Enter(l, e), f)
  {
    if e.Script? {
      if e.c in l.turns && l.turns[e.c].Waiting? && e.next !in l.minted && e.next != NoToken {
        assert l.TurnOk(l.turns[e.c]);
        ScriptWinsNothing(l, e.c, e.next, f);
      }
    } else if e.Issue? {
      if e.t !in l.minted && e.f !in l.lines {
        IssueWinsNothing(l, e.f, e.user, e.t, f);
      }
    } else {
      assert Enter(l, e).home == l.home;
    }
  }

  lemma ScriptWinsNothing(l: Ledger, c: nat, next: Token, f: Family)
    requires l.Valid() && Dead(l, f) && c in l.turns && l.turns[c].Waiting? && next !in l.minted
    requires l.turns[c].t in l.home && l.home[l.turns[c].t] in l.lines
    ensures NoNewWins(l, Answer(l, c, l.turns[c].t, next), f)
  {
    SettleGrows(l, l.turns[c].t, next);
    SettleFrame(l, l.turns[c].t, next);
  }

  lemma IssueWinsNothing(l: Ledger, g: Family, user: int, t: Token, f: Family)
    requires l.Valid() && t !in l.minted && g !in l.lines
    ensures NoNewWins(l, l.Extend(g, user, t), f)
  {
  }

  lemma {:induction false} DeadWinsNothingEver(l: Ledger, es: seq<Event>, f: Family)
    requires l.Valid() && Dead(l, f)
    ensures NoNewWins(l, Play(l, es), f)
    decreases |es|
  {
    if es != [] {
      var l1 := Enter(l, es[0]);
      EnterKeepsValid(l, es[0]);
      DeadStays(l, es[0], f);
      DeadWinsNothing(l, es[0], f);
      DeadWinsNothingEver(l1, es[1..], f);
      PlayGrows(l1, es[1..]);
      forall c | Play(l, es).Won(c) && Play(l, es).turns[c].t in Play(l, es).home && Play(l, es).home[Play(l, es).turns[c].t] == f
        ensures c in l.turns && l.turns[c] == Play(l, es).turns[c]
      {
        assert l1.TurnOk(l1.turns[c]);
      }
    }
  }

  /** Once a family key is gone, through reuse, RevokeFamily or its deadline, it never comes back,
      and no token of that family rotates again: not even in a call that was already past its GET. */
  lemma RevocationIsPermanent(before: seq<Event>, after: seq<Event>, f: Family)
    requires f in Exec(Start, before).founded && !Exec(Start, before).db.HasFamily(f)
    ensures var w, w', l' := Exec(Start, before), Exec(Start, before + after), Play(Blank, before + after);
            && !w'.db.HasFamily(f)
            && (forall c :: c in w'.calls && w'.calls[c].Done? && w'.calls[c].out.Rotated?
                            && w'.calls[c].held in l'.home && l'.home[w'.calls[c].held] == f ==>
                  c in w.calls && w.calls[c] == w'.calls[c])
  {
    var es := before + after;
    BlankIsLinked();
    RunRefines(Start, Blank, before);
    RunRefines(Start, Blank, es);
    PlayConcat(Blank, before, after);
    var w, l := Exec(Start, before), Play(Blank, before);
    var w', l' := Exec(Start, es), Play(Blank, es);
    AliveIsReadable(w.db, l, f);
    DeadForever(l, after, f);
    AliveIsReadable(w'.db, l', f);
    DeadWinsNothingEver(l, after, f);
    forall c | c in w'.calls && w'.calls[c].Done? && w'.calls[c].out.Rotated?
               && w'.calls[c].held in l'.home && l'.home[w'.calls[c].held] == f
      ensures c in w.calls && w.calls[c] == w'.calls[c]
    {
      assert SameTurn(w'.calls[c], l'.turns[c], l');
      assert l'.Won(c);
      assert SameTurn(w.calls[c], l.turns[c], l);
    }
  }

  // ---- the GET and the script are two steps

  /** The answer of the script, at the moment it runs, for a call that looked `t` up earlier. */
  ghost function SplitAnswer(l: Ledger, t: Token, next: Token): Outcome
    requires t in l.home && l.home[t] in l.lines
  {
    l.Settle(t, next).1
  }

  lemma SplitCore(db: Redis, l: Ledger, t: Token, next: Token)
    requires l.Valid() && Agree(db, l) && t in l.home
    ensures var split, atomic := SplitAnswer(l, t, next), l.Verdict(t, next).1;
            && (split == atomic <==> db.HasToken(t) || !db.HasFamily(l.home[t]))
            && (split != atomic && t !in l.forgotten ==>
                  split == Reused && t != l.Last(l.home[t]) && l.now >= l.born[t] + REFRESH_TTL)
  {
    AliveIsReadable(db, l, l.home[t]);
    ReadableIsStored(db, l, t);
  }

  /** Splitting Rotate at its GET changes the answer exactly when the record is unreadable by the
      time the script runs while the family still is readable.  A lapsed record is then a retired
      token and is still reported as reuse; the one other way is a token that RevokeFamily struck
      out although its family lives on. */
  lemma SplitIsExact(w: World, l: Ledger, c: nat, next: Token)
    requires Linked(w, l) && c in w.calls && w.calls[c].Looked? && Fresh(w, next)
    ensures l.PlacesOk() && w.calls[c].held in l.home && w.calls[c].rec.family == l.home[w.calls[c].held]
    ensures var t := w.calls[c].held;
            var split, atomic := SplitAnswer(l, t, next), l.Verdict(t, next).1;
            && RotateScript(w.db, t, w.calls[c].rec, next).1 == split
            && (split == atomic <==> w.db.HasToken(t) || !w.db.HasFamily(l.home[t]))
            && (split != atomic && t !in l.forgotten ==>
                  split == Reused && t != l.Last(l.home[t]) && l.now >= l.born[t] + REFRESH_TTL)
  {
    assert SameTurn(w.calls[c], l.turns[c], l);
    ScriptSettles(w.db, l, w.calls[c].held, next);
    SplitCore(w.db, l, w.calls[c].held, next);
  }

  // ---- sliding expiry

  /** A readable family pointer and its current token's record share one deadline, and no record of
      that family outlives the pointer. */
  lemma SharedDeadline(es: seq<Event>, f: Family)
    requires Exec(Start, es).db.HasFamily(f)
    ensures var db := Exec(Start, es).db;
            var cur := db.families[f];
            && (cur.value in db.tokens ==>
                  db.tokens[cur.value].value.family == f && db.tokens[cur.value].expires == cur.expires)
            && (forall t :: t in db.tokens && db.tokens[t].value.family == f ==> db.tokens[t].expires <= cur.expires)
  {
    BlankIsLinked();
    RunRefines(Start, Blank, es);
    var db := Exec(Start, es).db;
    PointerIsLast(db, Play(Blank, es), f);
    forall t | t in db.tokens && db.tokens[t].value.family == f ensures db.tokens[t].expires <= db.families[f].expires {
      NoneOutlives(db, Play(Blank, es), f, t);
    }
  }

  lemma PointerIsLast(db: Redis, l: Ledger, f: Family)
    requires l.Valid() && Agree(db, l) && db.HasFamily(f)
    ensures f in l.lines && l.lines[f].chain != [] && db.families[f].value == l.Last(f)
    ensures l.Last(f) in l.born && db.families[f].expires == l.born[l.Last(f)] + REFRESH_TTL
    ensures var cur := db.families[f].value;
            cur in db.tokens ==> db.tokens[cur].value.family == f && db.tokens[cur].expires == db.families[f].expires
  {
    assert InOrder(l.lines[f].chain, f, l.home, l.born);
    assert l.home[l.Last(f)] == f;
  }

  lemma NoneOutlives(db: Redis, l: Ledger, f: Family, t: Token)
    requires l.Valid() && Agree(db, l) && db.HasFamily(f) && t in db.tokens && db.tokens[t].value.family == f
    ensures db.tokens[t].expires <= db.families[f].expires
  {
    PointerIsLast(db, l, f);
    LastIsYoungest(l, t);
  }

  lemma LastIsYoungest(l: Ledger, t: Token)
    requires l.Valid() && t in l.home
    ensures l.home[t] in l.lines && l.lines[l.home[t]].chain != [] && t in l.born && l.Last(l.home[t]) in l.born
    ensures l.born[t] <= l.born[l.Last(l.home[t])]
  {
    var chain := l.lines[l.home[t]].chain;
    assert InOrder(chain, l.home[t], l.home, l.born);
    var i :| 0 <= i < |chain| && chain[i] == t;
    assert l.born[chain[i]] <= l.born[chain[|chain| - 1]];
  }
}
