/** rtr.Store over its Redis keyspaces, one call at a time.  Every method is proved against the
    ledger: what a caller sees is the ledger's verdict. */
module RtrStore {
  import opened RtrRedis
  import opened RtrLedger
  import opened RtrRefinement

  datatype Lookup = Nil | Found(rec: Record)

  ghost predicate Sound(db: Redis, l: Ledger) {
    match db
    case Redis(_, _, _) => l.Valid() && NoToken !in l.minted && Agree(db, l)
  }

  lemma IssueIsSound(db: Redis, l: Ledger, f: Family, user: int, t: Token)
    requires t != NoToken && t !in l.minted && f !in l.lines
    ensures Sound(db, l) ==> Sound(Save(db, t, Record(user, f)), l.Extend(f, user, t))
  {
    if Sound(db, l) {
      ExtendKeepsValid(l, f, user, t);
      SaveAgrees(db, l, f, user, t);
    }
  }

  // The ledger with `next` generated, stored or not.
  ghost function Generated(l: Ledger, minted: set<Token>, next: Token): Ledger {
    l.(minted := minted + {next})
  }

  /** The ledger's verdict on `t`, with the token that a Rotate generates for it. */
  ghost function Decided(l: Ledger, t: Token, next: Token): (Ledger, Outcome)
    requires l.PlacesOk()
  {
    var (l', out) := l.Verdict(t, next);
    (Generated(l', l.minted, next), out)
  }

  lemma GeneratedIsSound(db: Redis, l: Ledger, minted: set<Token>, next: Token)
    requires l.Valid() && Agree(db, l) && NoToken !in minted && next != NoToken && l.home.Keys <= minted + {next}
    ensures Sound(db, Generated(l, minted, next))
  {
    MintKeepsValid(l, minted + {next});
    AgreeFrame(db, l, l.turns, minted + {next});
  }

  function Later(db: Redis, ms: nat): Redis {
    db.(now := db.now + ms)
  }

  function Aged(l: Ledger, ms: nat): Ledger {
    l.(now := l.now + ms)
  }

  lemma AgedIsValid(l: Ledger, ms: nat)
    requires l.Valid()
    ensures Aged(l, ms).Valid()
  {
    EnterKeepsValid(l, Event.Advance(ms));
    assert Enter(l, Event.Advance(ms)) == Aged(l, ms);
  }

  lemma AdvanceIsSound(db: Redis, l: Ledger, ms: nat)
    ensures Sound(db, l) ==> Sound(Later(db, ms), Aged(l, ms))
  {
    if Sound(db, l) {
      AgedIsValid(l, ms);
      AdvanceAgrees(db, l, db.now + ms);
      assert Later(db, ms) == db.(now := db.now + ms) && Aged(l, ms) == l.(now := db.now + ms);
    }
  }

  /** The script, run for the record that is stored for `t` right now. */
  lemma ScriptIsSound(db: Redis, l: Ledger, rec: Record, t: Token, next: Token) returns (db': Redis, l': Ledger, out: Outcome)
    requires next != NoToken && next !in l.minted && db.HasToken(t) && db.tokens[t].value == rec
    ensures (db', out) == RotateScript(db, t, rec, next)
    ensures Sound(db, l) ==> Sound(db', l') && (l', out) == Decided(l, t, next)
  {
    db', out := RotateScript(db, t, rec, next).0, RotateScript(db, t, rec, next).1;
    if Sound(db, l) {
      ReadableIsStored(db, l, t);
      ScriptSettles(db, l, t, next);
      SettleKeepsValid(l, t, next);
      SettleFrame(l, t, next);
      l' := Decided(l, t, next).0;
      GeneratedIsSound(db', l.Settle(t, next).0, l.minted, next);
    } else {
      l' := l;
    }
  }

  // ---- what a token is good for

  /** A rotation hands out a token that is current for 14 days, and nothing else does. */
  lemma RotatedIsCurrent(l: Ledger, t: Token, next: Token)
    requires l.Valid() && next !in l.minted && Decided(l, t, next).1.Rotated?
    ensures var (l', out) := Decided(l, t, next);
            out.next == next && l'.Current(next, out.user, l.now + 1_209_600_000)
  {
    assert l.home[t] in l.lines;
  }

  /** And a current token is what it takes. */
  lemma CurrentRotates(l: Ledger, t: Token, user: int, until: nat, next: Token)
    requires l.Valid() && l.Current(t, user, until)
    ensures Decided(l, t, next).1 == Rotated(next, user)
  {
  }

  /** So does a login. */
  lemma OpenedIsCurrent(l: Ledger, f: Family, user: int, t: Token)
    requires l.Valid() && t !in l.minted && f !in l.lines
    ensures l.Extend(f, user, t).Current(t, user, l.now + 1_209_600_000)
  {
  }

  class Store {
    var db: Redis
    ghost var ledger: Ledger

    ghost predicate Valid()
      reads this
    {
      Sound(db, ledger)
    }

    constructor ()
      ensures Valid() && ledger == Blank
    {
      db, ledger := Redis(0, map[], map[]), Blank;
      new;
      assert forall c :: !Blank.Won(c);
    }

    /** MULTI ... EXEC: record and family pointer end at the same moment. */
    method SaveToken(tok: Token, fam: Family, userID: int)
      modifies this`db
      ensures db == Save(old(db), tok, Record(userID, fam))
      ensures db.now == old(db).now
      ensures db.tokens == old(db).tokens[tok := Entry(Record(userID, fam), db.now + 1_209_600_000)]
      ensures db.families == old(db).families[fam := Entry(tok, db.now + 1_209_600_000)]
    {
      db := db.(tokens := db.tokens[tok := Entry(Record(userID, fam), db.now + REFRESH_TTL)],
                families := db.families[fam := Entry(tok, db.now + REFRESH_TTL)]);
    }

    method Issue(userID: int, tok: Token, fam: Family)
      requires Valid() && tok != NoToken && tok !in ledger.minted && fam !in ledger.lines
      modifies this
      ensures Valid() && ledger == old(ledger).Extend(fam, userID, tok)
      ensures db == Save(old(db), tok, Record(userID, fam))
    {
      IssueIsSound(db, ledger, fam, userID, tok);
      SaveToken(tok, fam, userID);
      ledger := ledger.Extend(fam, userID, tok);
    }

    /** Time passes. */
    method Advance(ms: nat)
      requires Valid()
      modifies this
      ensures Valid() && ledger == old(ledger).(now := old(ledger).now + ms)
      ensures db == old(db).(now := old(db).now + ms)
    {
      AdvanceIsSound(db, ledger, ms);
      db := Later(db, ms);
      ledger := Aged(ledger, ms);
    }

    method Get(t: Token) returns (r: Lookup)
      ensures r.Found? <==> db.HasToken(t)
      ensures r.Found? ==> r.rec == db.tokens[t].value
    {
      if t in db.tokens && db.now < db.tokens[t].expires {
        return Found(db.tokens[t].value);
      }
      return Nil;
    }

    /** One run of the script for a record that an earlier GET returned. */
    method EvalRotate(held: Token, rec: Record, next: Token) returns (result: int)
      modifies this`db
      ensures db == RotateScript(old(db), held, rec, next).0
      ensures result == Code(RotateScript(old(db), held, rec, next).1)
      ensures result == -1 <==> rec.family !in old(db).families || old(db).families[rec.family].expires <= old(db).now
      ensures result == 1 <==> result != -1 && old(db).families[rec.family].value == held
      ensures result == 0 || result == 1 || result == -1
      ensures result == -1 ==> db == old(db)
      ensures result == 0 ==>
                db == old(db).(families := old(db).families - {rec.family},
                               tokens := old(db).tokens - {old(db).families[rec.family].value})
      ensures result == 1 ==>
                db == old(db).(tokens := old(db).tokens[next := Entry(rec, db.now + 1_209_600_000)],
                               families := old(db).families[rec.family := Entry(next, db.now + 1_209_600_000)])
    {
      if rec.family !in db.families || db.families[rec.family].expires <= db.now {
        return -1;
      }
      var current := db.families[rec.family].value;
      if current != held {
        db := Delete(db, rec.family, {current});
        return 0;
      }
      db := Save(db, next, rec);
      return 1;
    }

    /** The script, and its reply read back. */
    method Swap(held: Token, rec: Record, next: Token) returns (out: Outcome)
      modifies this`db
      ensures (db, out) == RotateScript(old(db), held, rec, next)
    {
      CodeIsRead(db, held, rec, next);
      var result := EvalRotate(held, rec, next);
      return if result == 1 then Rotated(next, rec.user) else if result == 0 then Reused else Invalid;
    }

    /** Rotate from its GET's hit on: the script runs at once. */
    method Exchange(held: Token, rec: Record, next: Token) returns (out: Outcome)
      requires Valid() && next != NoToken && next !in ledger.minted
      requires db.HasToken(held) && db.tokens[held].value == rec
      modifies this
      ensures Valid()
      ensures (ledger, out) == Decided(old(ledger), held, next)
    {
      ghost var after, settled, answer := ScriptIsSound(db, ledger, rec, held, next);
      out := Swap(held, rec, next);
      ledger := settled;
    }

    /** Rotate with nothing between its GET and its script. */
    method Rotate(oldToken: Token, next: Token) returns (out: Outcome)
      requires Valid() && next != NoToken && next !in ledger.minted
      modifies this
      ensures Valid()
      ensures (ledger, out) == Decided(old(ledger), oldToken, next)
    {
      var got := Get(oldToken);
      if got.Nil? {
        ReadableIsStored(db, ledger, oldToken);
        GeneratedIsSound(db, ledger, ledger.minted, next);
        ledger := Generated(ledger, ledger.minted, next);
        out := Invalid;
      } else {
        out := Exchange(oldToken, got.rec, next);
      }
    }

    method RevokeFamily(family: Family, ts: seq<Token>)
      requires Valid()
      modifies this
      ensures Valid() && ledger == old(ledger).Close(family, old(ledger).Struck(ts))
      ensures db == Delete(old(db), family, Named(ts))
      ensures db.families == old(db).families - {family} && db.now == old(db).now
      ensures forall t :: t in db.tokens <==> t in old(db).tokens && (t !in ts || t == NoToken)
      ensures forall t :: t in db.tokens ==> db.tokens[t] == old(db).tokens[t]
    {
      var keys: set<Token> := {};
      for i := 0 to |ts|
        invariant keys == Named(ts[..i])
        invariant unchanged(this)
      {
        if ts[i] != NoToken {
          keys := keys + {ts[i]};
        }
        assert ts[..i + 1] == ts[..i] + [ts[i]];
      }
      assert ts[..|ts|] == ts;
      StruckIsNamed(ledger, ts);
      DeleteAgrees(db, ledger, family, keys, ledger.Struck(ts));
      CloseKeepsValid(ledger, family, ledger.Struck(ts));
      db := Delete(db, family, keys);
      ledger := ledger.Close(family, ledger.Struck(ts));
    }
  }

  /** Rotate reads the reply back as the script meant it. */
  lemma CodeIsRead(db: Redis, held: Token, rec: Record, next: Token)
    ensures var out := RotateScript(db, held, rec, next).1;
            (if Code(out) == 1 then Rotated(next, rec.user) else if Code(out) == 0 then Reused else Invalid) == out
  {
  }

  /** The script's integer reply. */
  function Code(out: Outcome): int {
    match out
    case Rotated(_, _) => 1
    case Reused => 0
    case Invalid => -1
  }
}
