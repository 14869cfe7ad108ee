/** The two Redis keyspaces implement the ledger: both machines, fed the same events, stay
    matched and give every call the same answer. */
module RtrRefinement {
  import opened RtrRedis
  import opened RtrLedger

  /** A record is stored for exactly the tokens that were handed out and not struck out; it
      lives 14 days from the birth of its token. */
  ghost predicate TokensAgree(db: Redis, l: Ledger) {
    && (forall t :: t in db.tokens <==> t in l.home && t !in l.forgotten)
    && (forall t :: t in db.tokens ==>
          && l.home[t] in l.lines && t in l.born
          && db.tokens[t].value == Record(l.lines[l.home[t]].user, l.home[t])
          && db.tokens[t].expires == l.born[t] + REFRESH_TTL)
  }

  /** A pointer is stored for exactly the open lines; it names the last token and dies with it. */
  ghost predicate FamiliesAgree(db: Redis, l: Ledger) {
    && (forall f :: f in db.families <==> f in l.lines && l.lines[f].open)
    && (forall f :: f in db.families ==>
          && l.lines[f].chain != [] && l.Last(f) in l.born
          && db.families[f].value == l.Last(f)
          && db.families[f].expires == l.born[l.Last(f)] + REFRESH_TTL)
  }

  ghost predicate Agree(db: Redis, l: Ledger) {
    db.now == l.now && TokensAgree(db, l) && FamiliesAgree(db, l)
  }

  ghost predicate SameTurn(call: Call, turn: Turn, l: Ledger)
  {
    match call
    case Looked(t, rec) =>
      turn == Waiting(t) && t in l.home && l.home[t] in l.lines && rec == Record(l.lines[l.home[t]].user, l.home[t])
    case Done(t, out) => turn == Answered(t, out)
  }

  ghost predicate CallsAgree(w: World, l: Ledger) {
    w.calls.Keys == l.turns.Keys && forall c <- w.calls :: SameTurn(w.calls[c], l.turns[c], l)
  }

  ghost predicate Matched(w: World, l: Ledger) {
    && Agree(w.db, l)
    && w.minted == l.minted
    && w.founded == l.lines.Keys
    && CallsAgree(w, l)
  }

  lemma SaveAgreesOnTokens(db: Redis, l: Ledger, f: Family, user: int, t: Token)
    requires Agree(db, l) && t !in l.home && t !in l.forgotten && (f in l.lines ==> l.lines[f].user == user)
    ensures TokensAgree(Save(db, t, Record(user, f)), l.Extend(f, user, t))
  {
  }

  lemma SaveAgreesOnFamilies(db: Redis, l: Ledger, f: Family, user: int, t: Token)
    requires Agree(db, l) && t !in l.born
    ensures FamiliesAgree(Save(db, t, Record(user, f)), l.Extend(f, user, t))
  {
    var l' := l.Extend(f, user, t);
    assert l'.Last(f) == t;
    forall g | g in l.lines && g != f && l.lines[g].chain != [] ensures l'.Last(g) == l.Last(g) {
    }
  }

  lemma SaveAgrees(db: Redis, l: Ledger, f: Family, user: int, t: Token)
    requires Agree(db, l) && l.home.Keys == l.born.Keys <= l.minted && l.forgotten <= l.home.Keys
    requires t !in l.minted && (f in l.lines ==> l.lines[f].user == user)
    ensures Agree(Save(db, t, Record(user, f)), l.Extend(f, user, t))
  {
    SaveAgreesOnTokens(db, l, f, user, t);
    SaveAgreesOnFamilies(db, l, f, user, t);
  }

  lemma DeleteAgrees(db: Redis, l: Ledger, f: Family, ts: set<Token>, struck: set<Token>)
    requires Agree(db, l) && forall t :: t in struck <==> t in ts && t in l.home
    ensures Agree(Delete(db, f, ts), l.Close(f, struck))
  {
    CloseKeepsChains(l, f, struck);
  }

  lemma CloseKeepsChains(l: Ledger, f: Family, struck: set<Token>)
    ensures var l' := l.Close(f, struck);
            && l'.lines.Keys == l.lines.Keys
            && forall g <- l.lines :: l'.lines[g].chain == l.lines[g].chain && l'.lines[g].user == l.lines[g].user
  {
  }

  /** The last token of a line decides whether its family key is readable. */
  lemma AliveIsReadable(db: Redis, l: Ledger, f: Family)
    requires Agree(db, l)
    ensures l.Alive(f) <==> db.HasFamily(f)
  {
  }

  lemma ReadableIsStored(db: Redis, l: Ledger, t: Token)
    requires Agree(db, l) && l.home.Keys == l.born.Keys
    ensures l.Readable(t) <==> db.HasToken(t)
  {
  }

  /** The script decides exactly as the ledger does. */
  lemma ScriptSettles(db: Redis, l: Ledger, t: Token, next: Token)
    requires l.Valid() && Agree(db, l) && t in l.home && next !in l.minted
    ensures var (db', out) := RotateScript(db, t, Record(l.lines[l.home[t]].user, l.home[t]), next);
            Agree(db', l.Settle(t, next).0) && out == l.Settle(t, next).1
  {
    var f := l.home[t];
    AliveIsReadable(db, l, f);
    if l.Alive(f) {
      assert InOrder(l.lines[f].chain, f, l.home, l.born);
      if t == l.Last(f) {
        SaveAgrees(db, l, f, l.lines[f].user, next);
      } else {
        DeleteAgrees(db, l, f, {l.Last(f)}, {l.Last(f)});
      }
    }
  }

  lemma CallsFrame(w: World, l: Ledger, w': World, l': Ledger)
    requires CallsAgree(w, l) && w'.calls == w.calls && l'.turns == l.turns
    requires forall t <- l.home :: t in l'.home && l'.home[t] == l.home[t]
    requires forall f <- l.lines :: f in l'.lines && l'.lines[f].user == l.lines[f].user
    ensures CallsAgree(w', l')
  {
    forall c <- w'.calls ensures SameTurn(w'.calls[c], l'.turns[c], l') {
      assert SameTurn(w.calls[c], l.turns[c], l);
    }
  }

  lemma IssueMatches(w: World, l: Ledger, f: Family, t: Token, user: int)
    requires l.Valid() && Matched(w, l) && Fresh(w, t) && f !in w.founded
    ensures Matched(Apply(w, Issue(f, t, user)), l.Extend(f, user, t))
  {
    SaveAgrees(w.db, l, f, user, t);
    CallsFrame(w, l, Apply(w, Issue(f, t, user)), l.Extend(f, user, t));
  }

  lemma AgreeFrame(db: Redis, l: Ledger, turns: map<nat, Turn>, minted: set<Token>)
    requires Agree(db, l)
    ensures Agree(db, l.(minted := minted, turns := turns))
  {
  }

  /** Both sides record the same new state of one call. */
  lemma RecordMatches(w: World, l: Ledger, c: nat, call: Call, turn: Turn)
    requires CallsAgree(w, l) && SameTurn(call, turn, l)
    ensures CallsAgree(w.(calls := w.calls[c := call]), l.(turns := l.turns[c := turn]))
  {
    var w', l' := w.(calls := w.calls[c := call]), l.(turns := l.turns[c := turn]);
    forall d <- w'.calls ensures SameTurn(w'.calls[d], l'.turns[d], l') {
      assert d != c ==> SameTurn(w.calls[d], l.turns[d], l);
    }
  }

  lemma LookupMatches(w: World, l: Ledger, c: nat, t: Token)
    requires l.home.Keys == l.born.Keys && Matched(w, l) && c !in w.calls
    ensures Matched(Apply(w, Lookup(c, t)), Enter(l, Lookup(c, t)))
  {
    ReadableIsStored(w.db, l, t);
    var l' := Enter(l, Lookup(c, t));
    RecordMatches(w, l, c, Apply(w, Lookup(c, t)).calls[c], l'.turns[c]);
    AgreeFrame(w.db, l, l'.turns, l.minted);
  }

  lemma SettleKeepsUsers(l: Ledger, t: Token, next: Token)
    requires t in l.home && l.home[t] in l.lines && next !in l.home
    ensures var l' := l.Settle(t, next).0;
            && (forall u <- l.home :: u in l'.home && l'.home[u] == l.home[u])
            && (forall f <- l.lines :: f in l'.lines && l'.lines[f].user == l.lines[f].user)
            && l'.lines.Keys == l.lines.Keys && l'.turns == l.turns && l'.minted + {next} == l.minted + {next}
  {
  }

  lemma ScriptMatches(w: World, l: Ledger, c: nat, next: Token)
    requires l.Valid() && Matched(w, l) && Fresh(w, next) && c in w.calls && w.calls[c].Looked?
    ensures var t := w.calls[c].held;
            && t in l.home && l.turns[c] == Waiting(t)
            && Matched(RunScript(w, c, t, w.calls[c].rec, next), Answer(l, c, t, next))
  {
    var Looked(t, rec) := w.calls[c];
    assert SameTurn(w.calls[c], l.turns[c], l);
    ScriptSettles(w.db, l, t, next);
    SettleKeepsUsers(l, t, next);
    var (db', out) := RotateScript(w.db, t, rec, next);
    var (l1, _) := l.Settle(t, next);
    var w1 := w.(db := db', minted := w.minted + {next});
    var l2 := l1.(minted := l.minted + {next});
    CallsFrame(w, l, w1, l2);
    RecordMatches(w1, l2, c, Done(t, out), Answered(t, out));
    AgreeFrame(db', l1, l1.turns[c := Answered(t, out)], l.minted + {next});
  }

  lemma StruckIsNamed(l: Ledger, ts: seq<Token>)
    requires NoToken !in l.home
    ensures forall t :: t in l.Struck(ts) <==> t in Named(ts) && t in l.home
  {
  }

  lemma RevokeMatches(w: World, l: Ledger, f: Family, ts: seq<Token>)
    requires Matched(w, l) && NoToken !in l.home
    ensures Matched(w.(db := Delete(w.db, f, Named(ts))), l.Close(f, l.Struck(ts)))
  {
    StruckIsNamed(l, ts);
    DeleteAgrees(w.db, l, f, Named(ts), l.Struck(ts));
    CloseKeepsChains(l, f, l.Struck(ts));
    CallsFrame(w, l, w.(db := Delete(w.db, f, Named(ts))), l.Close(f, l.Struck(ts)));
  }

  ghost predicate Linked(w: World, l: Ledger) {
    l.Valid() && NoToken !in l.minted && Matched(w, l)
  }

  lemma ScriptStepMatches(w: World, l: Ledger, c: nat, next: Token)
    requires Linked(w, l)
    ensures Matched(Apply(w, Script(c, next)), Enter(l, Script(c, next)))
  {
    if c in w.calls {
      assert SameTurn(w.calls[c], l.turns[c], l);
      if w.calls[c].Looked? && Fresh(w, next) {
        ScriptMatches(w, l, c, next);
      }
    }
  }

  lemma IssueStepMatches(w: World, l: Ledger, f: Family, t: Token, user: int)
    requires Linked(w, l)
    ensures Matched(Apply(w, Issue(f, t, user)), Enter(l, Issue(f, t, user)))
  {
    if Fresh(w, t) && f !in w.founded {
      IssueMatches(w, l, f, t, user);
    }
  }

  lemma LookupStepMatches(w: World, l: Ledger, c: nat, t: Token)
    requires Linked(w, l)
    ensures Matched(Apply(w, Lookup(c, t)), Enter(l, Lookup(c, t)))
  {
    if c !in w.calls {
      LookupMatches(w, l, c, t);
    }
  }

  lemma RevokeStepMatches(w: World, l: Ledger, f: Family, ts: seq<Token>)
    requires Linked(w, l)
    ensures Matched(Apply(w, Revoke(f, ts)), Enter(l, Revoke(f, ts)))
  {
    RevokeMatches(w, l, f, ts);
  }

  lemma AdvanceAgrees(db: Redis, l: Ledger, now: nat)
    requires Agree(db, l)
    ensures Agree(db.(now := now), l.(now := now))
  {
  }

  lemma AdvanceMatches(w: World, l: Ledger, now: nat)
    requires Matched(w, l)
    ensures Matched(w.(db := w.db.(now := now)), l.(now := now))
  {
    AdvanceAgrees(w.db, l, now);
    CallsFrame(w, l, w.(db := w.db.(now := now)), l.(now := now));
  }

  lemma AdvanceStepMatches(w: World, l: Ledger, ms: nat)
    requires Matched(w, l)
    ensures Matched(Apply(w, Advance(ms)), Enter(l, Advance(ms)))
  {
    AdvanceMatches(w, l, w.db.now + ms);
  }

  lemma StepMatches(w: World, l: Ledger, e: Event)
    requires Linked(w, l)
    ensures Matched(Apply(w, e), Enter(l, e))
  {
    match e
    case Issue(f, t, user) => IssueStepMatches(w, l, f, t, user);
    case Lookup(c, t) => LookupStepMatches(w, l, c, t);
    case Script(c, next) => ScriptStepMatches(w, l, c, next);
    case Revoke(f, ts) => RevokeStepMatches(w, l, f, ts);
    case Advance(ms) => AdvanceStepMatches(w, l, ms);
  }

  lemma NoTokenIsNeverMinted(l: Ledger, e: Event)
    requires NoToken !in l.minted
    ensures NoToken !in Enter(l, e).minted
  {
    if e.Script? {
      if e.c in l.turns && l.turns[e.c].Waiting? && l.turns[e.c].t in l.home && l.home[l.turns[e.c].t] in l.lines {
        SettleFrame(l, l.turns[e.c].t, e.next);
      }
    }
  }

  /** Refinement over whole runs: the store and the ledger, started empty and fed any sequence of
      events, agree on every call's answer. */
  lemma {:induction false} RunRefines(w: World, l: Ledger, es: seq<Event>)
    requires Linked(w, l)
    ensures Linked(Exec(w, es), Play(l, es))
    decreases |es|
  {
    if es != [] {
      StepMatches(w, l, es[0]);
      EnterKeepsValid(l, es[0]);
      NoTokenIsNeverMinted(l, es[0]);
      RunRefines(Apply(w, es[0]), Enter(l, es[0]), es[1..]);
    }
  }
}
