/** What refresh token rotation means, without Redis: every login opens a line, a user with the
    chain of tokens it has held so far.  The last token of an open line rotates, an earlier one
    closes the line, anything else is invalid. */
module RtrLedger {
  import opened RtrRedis

  datatype Line = Line(user: int, chain: seq<Token>, open: bool)

  // A rotation that has looked its token up, or that has been answered.
  datatype Turn = Waiting(t: Token) | Answered(t: Token, out: Outcome)

  datatype Ledger = Ledger(
    now: nat,
    lines: map<Family, Line>,
    home: map<Token, Family>,   // the line that holds a token
    born: map<Token, nat>,      // when the token was handed out
    forgotten: set<Token>,      // tokens struck out by a revocation
    minted: set<Token>,         // every token value ever generated
    turns: map<nat, Turn>)
  {
    ghost predicate Valid() {
      && forgotten <= home.Keys == born.Keys <= minted
      && LinesOk()
      && PlacesOk()
      && TurnsOk()
      && WinnersDiffer()
    }

    ghost predicate LinesOk() {
      forall f <- lines :: lines[f].chain != [] && InOrder(lines[f].chain, f, home, born)
    }

    ghost predicate PlacesOk() {
      forall t <- home :: home[t] in lines && t in lines[home[t]].chain && t in born && born[t] <= now
    }

    ghost predicate TurnsOk() {
      forall c <- turns :: TurnOk(turns[c])
    }

    // A waiting token is in the ledger; a won turn is a link of its line and names its user.
    ghost predicate TurnOk(turn: Turn) {
      (turn.Waiting? || turn.out.Rotated?) ==>
        && turn.t in home
        && home[turn.t] in lines
        && (turn.Answered? ==>
              lines[home[turn.t]].user == turn.out.user
              && Follows(lines[home[turn.t]].chain, turn.t, turn.out.next))
    }

    ghost predicate Won(c: nat)
    {
      c in turns && turns[c].Answered? && turns[c].out.Rotated?
    }

    ghost predicate WinnersDiffer() {
      forall c, d :: Won(c) && Won(d) && turns[c].t == turns[d].t ==> c == d
    }

    function Last(f: Family): Token
      requires f in lines && lines[f].chain != []
    {
      lines[f].chain[|lines[f].chain| - 1]
    }

    /** The line is open and its last token has not reached 14 days. */
    ghost predicate Alive(f: Family)
    {
      f in lines && lines[f].open && lines[f].chain != [] && Last(f) in born && now < born[Last(f)] + REFRESH_TTL
    }

    ghost predicate Readable(t: Token) {
      t in home && t in born && t !in forgotten && now < born[t] + REFRESH_TTL
    }

    /** `t` becomes the last token of line `f`, which is created when it does not exist. */
    function Extend(f: Family, user: int, t: Token): Ledger {
      var before := if f in lines then lines[f].chain else [];
      this.(lines := lines[f := Line(user, before + [t], true)],
            home := home[t := f], born := born[t := now], minted := minted + {t})
    }

    function Close(f: Family, ts: set<Token>): Ledger {
      this.(lines := if f in lines then lines[f := lines[f].(open := false)] else lines, forgotten := forgotten + ts)
    }

    /** What a client can still use: the last token of an open line of this user, until a given time. */
    ghost predicate Current(t: Token, user: int, until: nat) {
      && t in home && home[t] in lines && t in born && t !in forgotten
      && lines[home[t]].open && lines[home[t]].user == user
      && lines[home[t]].chain != [] && Last(home[t]) == t
      && now < until == born[t] + REFRESH_TTL
    }

    /** The tokens of `ts` that a revocation strikes out: those that were ever handed out. */
    function Struck(ts: seq<Token>): set<Token> {
      set t | t in ts && t in home
    }

    /** The answer to a token that was looked up earlier, decided now. */
    ghost function Settle(t: Token, next: Token): (Ledger, Outcome)
      requires t in home && home[t] in lines
    {
      var f := home[t];
      if !Alive(f) then
        (this, Invalid)
      else if t == Last(f) then
        (Extend(f, lines[f].user, next), Rotated(next, lines[f].user))
      else
        (Close(f, {Last(f)}), Reused)
    }

    /** The answer to a token presented now and decided now. */
    ghost function Verdict(t: Token, next: Token): (Ledger, Outcome)
      requires PlacesOk()
    {
      if Readable(t) then Settle(t, next) else (this, Invalid)
    }
  }

  /** A chain lists distinct tokens of one line, oldest first. */
  ghost predicate InOrder(chain: seq<Token>, f: Family, home: map<Token, Family>, born: map<Token, nat>) {
    && (forall i :: 0 <= i < |chain| ==> chain[i] in home && home[chain[i]] == f && chain[i] in born)
    && (forall i, j :: 0 <= i < j < |chain| ==> chain[i] != chain[j] && born[chain[i]] <= born[chain[j]])
  }

  ghost predicate Follows(chain: seq<Token>, a: Token, b: Token) {
    exists i :: 0 <= i < |chain| - 1 && chain[i] == a && chain[i + 1] == b
  }

  const Blank := Ledger(0, map[], map[], map[], {}, {}, map[])

  /** Call `c`, waiting with `t`, is answered; `next` is the token it generated. */
  ghost function Answer(l: Ledger, c: nat, t: Token, next: Token): Ledger
    requires t in l.home && l.home[t] in l.lines
  {
    var (l', out) := l.Settle(t, next);
    l'.(minted := l.minted + {next}, turns := l'.turns[c := Answered(t, out)])
  }

  /** The same events, read by the ledger. */
  ghost function Enter(l: Ledger, e: Event): Ledger
  {
    match e
    case Issue(f, t, user) =>
      if t != NoToken && t !in l.minted && f !in l.lines then l.Extend(f, user, t) else l
    case Lookup(c, t) =>
      if c in l.turns then l
      else l.(turns := l.turns[c := if l.Readable(t) then Waiting(t) else Answered(t, Invalid)])
    case Script(c, next) =>
      if c in l.turns && l.turns[c].Waiting? && next != NoToken && next !in l.minted
         && l.turns[c].t in l.home && l.home[l.turns[c].t] in l.lines
      then
        Answer(l, c, l.turns[c].t, next)
      else l
    case Revoke(f, ts) => l.Close(f, l.Struck(ts))
    case Advance(ms) => l.(now := l.now + ms)
  }

  ghost function Play(l: Ledger, es: seq<Event>): Ledger
    decreases |es|
  {
    if es == [] then l else Play(Enter(l, es[0]), es[1..])
  }

  // ---- every event keeps the ledger valid

  lemma SameWinners(l: Ledger, l': Ledger)
    requires l'.turns == l.turns
    ensures forall c :: l'.Won(c) == l.Won(c)
    ensures l.WinnersDiffer() ==> l'.WinnersDiffer()
  {
    assert forall c :: l'.Won(c) == l.Won(c);
  }

  lemma AgeInOrder(chain: seq<Token>, g: Family, l: Ledger, t: Token, f: Family)
    requires InOrder(chain, g, l.home, l.born) && l.PlacesOk() && t !in l.home
    ensures InOrder(chain, g, l.home[t := f], l.born[t := l.now])
    ensures forall i :: 0 <= i < |chain| ==> chain[i] != t && l.born[chain[i]] <= l.now
  {
  }

  lemma PushInOrder(chain: seq<Token>, f: Family, home: map<Token, Family>, born: map<Token, nat>, t: Token)
    requires InOrder(chain, f, home, born)
    requires t in home && home[t] == f && t in born
    requires forall i :: 0 <= i < |chain| ==> chain[i] != t && born[chain[i]] <= born[t]
    ensures InOrder(chain + [t], f, home, born)
  {
  }

  lemma ExtendInOrder(l: Ledger, f: Family, user: int, t: Token, g: Family)
    requires l.LinesOk() && l.PlacesOk()
    requires t !in l.home && g in l.Extend(f, user, t).lines
    ensures var l' := l.Extend(f, user, t); l'.lines[g].chain != [] && InOrder(l'.lines[g].chain, g, l'.home, l'.born)
  {
    if g in l.lines {
      AgeInOrder(l.lines[g].chain, g, l, t, f);
      if g == f {
        PushInOrder(l.lines[f].chain, f, l.home[t := f], l.born[t := l.now], t);
      }
    }
  }

  lemma ExtendLines(l: Ledger, f: Family, user: int, t: Token)
    requires l.LinesOk() && l.PlacesOk() && t !in l.home
    ensures l.Extend(f, user, t).LinesOk()
  {
    var l' := l.Extend(f, user, t);
    forall g <- l'.lines ensures l'.lines[g].chain != [] && InOrder(l'.lines[g].chain, g, l'.home, l'.born) {
      ExtendInOrder(l, f, user, t, g);
    }
  }

  lemma ExtendPlaces(l: Ledger, f: Family, user: int, t: Token)
    requires l.PlacesOk()
    ensures l.Extend(f, user, t).PlacesOk()
  {
    var l' := l.Extend(f, user, t);
    if f in l.lines {
      assert l'.lines[f].chain == l.lines[f].chain + [t];
    } else {
      assert l'.lines[f].chain == [t];
    }
  }

  lemma FollowsMore(chain: seq<Token>, a: Token, b: Token, t: Token)
    requires Follows(chain, a, b)
    ensures Follows(chain + [t], a, b)
  {
    var i :| 0 <= i < |chain| - 1 && chain[i] == a && chain[i + 1] == b;
    assert (chain + [t])[i] == a && (chain + [t])[i + 1] == b;
  }

  lemma ExtendTurns(l: Ledger, f: Family, user: int, t: Token)
    requires l.TurnsOk()
    requires t !in l.home && (f in l.lines ==> l.lines[f].user == user)
    ensures l.Extend(f, user, t).TurnsOk()
  {
    var l' := l.Extend(f, user, t);
    forall c <- l'.turns ensures l'.TurnOk(l'.turns[c]) {
      var turn := l.turns[c];
      assert l.TurnOk(turn);
      if l.Won(c) && l.home[turn.t] == f {
        FollowsMore(l.lines[f].chain, turn.t, turn.out.next, t);
      }
    }
  }

  lemma ExtendKeepsValid(l: Ledger, f: Family, user: int, t: Token)
    requires l.Valid() && t !in l.minted && (f in l.lines ==> l.lines[f].user == user)
    ensures l.Extend(f, user, t).Valid()
  {
    ExtendLines(l, f, user, t);
    ExtendPlaces(l, f, user, t);
    ExtendTurns(l, f, user, t);
    SameWinners(l, l.Extend(f, user, t));
  }

  lemma CloseKeepsValid(l: Ledger, f: Family, ts: set<Token>)
    requires l.Valid() && ts <= l.home.Keys
    ensures l.Close(f, ts).Valid()
  {
    CloseKeepsLines(l, f, ts);
    CloseKeepsTurns(l, f, ts);
  }

  lemma CloseKeepsLines(l: Ledger, f: Family, ts: set<Token>)
    requires l.LinesOk() && l.PlacesOk()
    ensures l.Close(f, ts).LinesOk() && l.Close(f, ts).PlacesOk()
  {
    var l' := l.Close(f, ts);
    assert forall g <- l'.lines :: g in l.lines && l'.lines[g].chain == l.lines[g].chain;
  }

  lemma CloseKeepsTurns(l: Ledger, f: Family, ts: set<Token>)
    requires l.TurnsOk() && l.WinnersDiffer()
    ensures l.Close(f, ts).TurnsOk() && l.Close(f, ts).WinnersDiffer()
  {
    var l' := l.Close(f, ts);
    forall c <- l'.turns ensures l'.TurnOk(l'.turns[c]) {
      assert l.TurnOk(l.turns[c]);
    }
    SameWinners(l, l');
  }

  /** Recording an answer keeps the ledger valid when a win is a new link of its line. */
  lemma AnswerKeepsValid(l: Ledger, c: nat, turn: Turn)
    requires l.Valid() && l.TurnOk(turn) && !l.Won(c)
    requires turn.Answered? && turn.out.Rotated? ==> forall d :: l.Won(d) ==> l.turns[d].t != turn.t
    ensures l.(turns := l.turns[c := turn]).Valid()
  {
    var l' := l.(turns := l.turns[c := turn]);
    assert l'.TurnsOk() by {
      forall d <- l'.turns ensures l'.TurnOk(l'.turns[d]) {
        assert d != c ==> l.TurnOk(l.turns[d]);
      }
    }
    AnswerKeepsWinners(l, c, turn);
  }

  lemma AnswerKeepsWinners(l: Ledger, c: nat, turn: Turn)
    requires l.WinnersDiffer()
    requires turn.Answered? && turn.out.Rotated? ==> forall d :: l.Won(d) ==> l.turns[d].t != turn.t
    ensures l.(turns := l.turns[c := turn]).WinnersDiffer()
  {
    var l' := l.(turns := l.turns[c := turn]);
    assert forall d :: d != c ==> l'.Won(d) == l.Won(d);
  }

  lemma LastDidNotWin(l: Ledger, f: Family, c: nat)
    requires l.Valid() && f in l.lines && l.Won(c)
    ensures l.turns[c].t != l.Last(f)
  {
    var turn := l.turns[c];
    assert l.TurnOk(turn);
    var g := l.home[turn.t];
    var ch := l.lines[g].chain;
    assert InOrder(ch, g, l.home, l.born) && InOrder(l.lines[f].chain, f, l.home, l.born);
    var i :| 0 <= i < |ch| - 1 && ch[i] == turn.t && ch[i + 1] == turn.out.next;
    assert ch[i] != ch[|ch| - 1];
    assert l.home[l.Last(f)] == f;
  }

  lemma SettleFrame(l: Ledger, t: Token, next: Token)
    requires t in l.home && l.home[t] in l.lines
    ensures var l' := l.Settle(t, next).0; l'.turns == l.turns && l'.home.Keys <= l.home.Keys + {next}
    ensures forall c :: l.Settle(t, next).0.Won(c) == l.Won(c)
  {
  }

  lemma SettleKeepsValid(l: Ledger, t: Token, next: Token)
    requires l.Valid() && t in l.home && next !in l.minted
    ensures l.Settle(t, next).0.Valid()
  {
    var f := l.home[t];
    ExtendKeepsValid(l, f, l.lines[f].user, next);
    if l.Alive(f) {
      assert InOrder(l.lines[f].chain, f, l.home, l.born);
      CloseKeepsValid(l, f, {l.Last(f)});
    }
  }

  /** A rotation adds a link to the line, and no earlier rotation used the same token. */
  lemma SettleWin(l: Ledger, t: Token, next: Token)
    requires l.Valid() && t in l.home && l.Settle(t, next).1.Rotated?
    ensures forall d :: l.Won(d) ==> l.turns[d].t != t
    ensures l.Settle(t, next).0.TurnOk(Answered(t, l.Settle(t, next).1))
  {
    var f := l.home[t];
    forall d | l.Won(d) ensures l.turns[d].t != t {
      LastDidNotWin(l, f, d);
    }
    var ch := l.lines[f].chain + [next];
    assert ch[|ch| - 2] == t && ch[|ch| - 1] == next;
    assert Follows(ch, t, next);
  }

  /** Recording the answer to a call that was waiting, and the token it generated. */
  lemma RecordKeepsValid(l: Ledger, c: nat, turn: Turn, minted: set<Token>)
    requires l.Valid() && l.TurnOk(turn) && !l.Won(c) && l.home.Keys <= minted
    requires turn.Answered? && turn.out.Rotated? ==> forall d :: l.Won(d) ==> l.turns[d].t != turn.t
    ensures l.(minted := minted, turns := l.turns[c := turn]).Valid()
  {
    AnswerKeepsValid(l, c, turn);
    MintKeepsValid(l.(turns := l.turns[c := turn]), minted);
  }

  lemma AnswerIsValid(l: Ledger, c: nat, next: Token)
    requires l.Valid() && c in l.turns && l.turns[c].Waiting? && next !in l.minted
    ensures l.TurnOk(l.turns[c]) && Answer(l, c, l.turns[c].t, next).Valid()
  {
    var t := l.turns[c].t;
    assert l.TurnOk(l.turns[c]);
    var (l', out) := l.Settle(t, next);
    SettleKeepsValid(l, t, next);
    if out.Rotated? {
      SettleWin(l, t, next);
    }
    SettleFrame(l, t, next);
    RecordKeepsValid(l', c, Answered(t, out), l.minted + {next});
  }

  lemma MintKeepsValid(l: Ledger, minted: set<Token>)
    requires l.Valid() && l.home.Keys <= minted
    ensures l.(minted := minted).Valid()
  {
    SameWinners(l, l.(minted := minted));
  }

  lemma EnterKeepsValid(l: Ledger, e: Event)
    requires l.Valid()
    ensures Enter(l, e).Valid()
  {
    match e
    case Issue(f, t, user) =>
      if t != NoToken && t !in l.minted && f !in l.lines {
        ExtendKeepsValid(l, f, user, t);
      }
    case Lookup(c, t) =>
      if c !in l.turns {
        assert l.Readable(t) ==> l.TurnOk(Waiting(t));
        AnswerKeepsValid(l, c, if l.Readable(t) then Waiting(t) else Answered(t, Invalid));
      }
    case Script(c, next) =>
      if c in l.turns && l.turns[c].Waiting? && next !in l.minted {
        AnswerIsValid(l, c, next);
      }
    case Revoke(f, ts) =>
      CloseKeepsValid(l, f, l.Struck(ts));
    case Advance(ms) =>
      SameWinners(l, Enter(l, e));
  }
}
