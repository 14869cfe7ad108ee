/** Two runs of the store as its callers see it: one client that rotates in sequence, and a flood
    of clients that present one token. */
module RtrSessions {
  import opened RtrRedis
  import opened RtrLedger
  import opened RtrRefinement
  import opened RtrTheorems

  /** `t` is the current token of family `f`, handed to `user`; record and pointer end at `until`.
      No other family points at it. */
  ghost predicate Holds(w: World, f: Family, t: Token, user: int, until: nat) {
    && f in w.db.families && w.db.families[f] == Entry(t, until)
    && t in w.db.tokens && w.db.tokens[t] == Entry(Record(user, f), until)
    && t in w.minted && f in w.founded
    && until <= w.db.now + REFRESH_TTL
    && PointersMinted(w)
    && (forall g :: g in w.db.families && g != f ==> w.db.families[g].value != t)
  }

  ghost predicate PointersMinted(w: World) {
    forall g :: g in w.db.families ==> w.db.families[g].value in w.minted
  }

  /** A login in any reachable world hands out a token that its family holds for 14 days. */
  lemma LoginHolds(before: seq<Event>, f: Family, t: Token, user: int)
    requires Fresh(Exec(Start, before), t) && f !in Exec(Start, before).founded
    ensures Holds(Apply(Exec(Start, before), Issue(f, t, user)), f, t, user, Exec(Start, before).db.now + 1_209_600_000)
  {
    BlankIsLinked();
    RunRefines(Start, Blank, before);
    assert PointersMinted(Exec(Start, before));
  }

  /** Anything another party may do meanwhile: no script of a call that looked up a token of `f`,
      and no revocation of `f` or `t`. */
  predicate Foreign(w: World, e: Event, f: Family, t: Token) {
    match e
    case Script(c, _) => c in w.calls && w.calls[c].Looked? ==> w.calls[c].rec.family != f
    case Revoke(g, ts) => g != f && t !in ts
    case _ => true
  }

  predicate Quiet(w: World, es: seq<Event>, f: Family, t: Token)
    decreases |es|
  {
    es == [] || (Foreign(w, es[0], f, t) && Quiet(Apply(w, es[0]), es[1..], f, t))
  }

  lemma ForeignScriptKeeps(w: World, c: nat, next: Token, f: Family, t: Token, user: int, until: nat)
    requires Holds(w, f, t, user, until) && c in w.calls && w.calls[c].Looked? && Fresh(w, next)
    requires w.calls[c].rec.family != f
    ensures Holds(RunScript(w, c, w.calls[c].held, w.calls[c].rec, next), f, t, user, until)
  {
  }

  lemma ForeignKeeps(w: World, e: Event, f: Family, t: Token, user: int, until: nat)
    requires Holds(w, f, t, user, until) && Foreign(w, e, f, t)
    ensures Holds(Apply(w, e), f, t, user, until)
  {
    if e.Script? && e.c in w.calls && w.calls[e.c].Looked? && Fresh(w, e.next) {
      ForeignScriptKeeps(w, e.c, e.next, f, t, user, until);
    }
  }

  lemma {:induction false} QuietKeeps(w: World, es: seq<Event>, f: Family, t: Token, user: int, until: nat)
    requires Holds(w, f, t, user, until) && Quiet(w, es, f, t)
    ensures Holds(Exec(w, es), f, t, user, until)
    decreases |es|
  {
    if es != [] {
      ForeignKeeps(w, es[0], f, t, user, until);
      QuietKeeps(Apply(w, es[0]), es[1..], f, t, user, until);
    }
  }

  lemma ApplyKeepsTime(w: World, e: Event)
    ensures w.db.now <= Apply(w, e).db.now
  {
  }

  lemma {:induction false} TimeGrows(w: World, es: seq<Event>)
    ensures w.db.now <= Exec(w, es).db.now
    decreases |es|
  {
    if es != [] {
      ApplyKeepsTime(w, es[0]);
      TimeGrows(Apply(w, es[0]), es[1..]);
    }
  }

  // A call keeps its state until its own script runs.
  lemma CallStays(w: World, e: Event, c: nat, f: Family, t: Token)
    requires c in w.calls && w.calls[c].Looked? && w.calls[c].rec.family == f && Foreign(w, e, f, t)
    ensures c in Apply(w, e).calls && Apply(w, e).calls[c] == w.calls[c]
  {
  }

  lemma {:induction false} CallWaits(w: World, es: seq<Event>, c: nat, f: Family, t: Token)
    requires c in w.calls && w.calls[c].Looked? && w.calls[c].rec.family == f && Quiet(w, es, f, t)
    ensures c in Exec(w, es).calls && Exec(w, es).calls[c] == w.calls[c]
    decreases |es|
  {
    if es != [] {
      CallStays(w, es[0], c, f, t);
      CallWaits(Apply(w, es[0]), es[1..], c, f, t);
    }
  }

  // ---- the sequential client

  // One refresh: the world moves on, the client's GET, the world moves on, the client's script.
  datatype Round = Round(before: seq<Event>, c: nat, between: seq<Event>, next: Token)

  function AtGet(w: World, r: Round): World {
    Exec(w, r.before)
  }

  function AtScript(w: World, t: Token, r: Round): World {
    Exec(Apply(AtGet(w, r), Lookup(r.c, t)), r.between)
  }

  function AfterRound(w: World, t: Token, r: Round): World {
    Apply(AtScript(w, t, r), Script(r.c, r.next))
  }

  /** The client presents `t`, received 14 days before `until`, in a fresh call, and its script
      runs before `until`; nobody else uses tokens of `f` or revokes them. */
  predicate InTime(w: World, f: Family, t: Token, until: nat, r: Round) {
    && Quiet(w, r.before, f, t)
    && r.c !in AtGet(w, r).calls
    && Quiet(Apply(AtGet(w, r), Lookup(r.c, t)), r.between, f, t)
    && Fresh(AtScript(w, t, r), r.next)
    && AtScript(w, t, r).db.now < until
  }

  predicate Session(w: World, f: Family, t: Token, until: nat, rounds: seq<Round>)
    decreases |rounds|
  {
    rounds == [] ||
    (InTime(w, f, t, until, rounds[0]) &&
     Session(AfterRound(w, t, rounds[0]), f, rounds[0].next, AtScript(w, t, rounds[0]).db.now + REFRESH_TTL, rounds[1..]))
  }

  /** What the rounds answer, in order; the client always presents the token it got last. */
  function Answers(w: World, t: Token, rounds: seq<Round>): seq<Call>
    decreases |rounds|
  {
    if rounds == [] then [] else
      var r := rounds[0];
      var w' := AfterRound(w, t, r);
      (if r.c in w'.calls then [w'.calls[r.c]] else []) + Answers(w', r.next, rounds[1..])
  }

  function Successes(t: Token, user: int, rounds: seq<Round>): seq<Call>
    decreases |rounds|
  {
    if rounds == [] then [] else
      [Done(t, Rotated(rounds[0].next, user))] + Successes(rounds[0].next, user, rounds[1..])
  }

  lemma RoundRotates(w: World, f: Family, t: Token, user: int, until: nat, r: Round)
    requires Holds(w, f, t, user, until) && InTime(w, f, t, until, r)
    ensures var w' := AfterRound(w, t, r);
            && r.c in w'.calls && w'.calls[r.c] == Done(t, Rotated(r.next, user))
            && Holds(w', f, r.next, user, AtScript(w, t, r).db.now + REFRESH_TTL)
  {
    QuietKeeps(w, r.before, f, t, user, until);
    var w1 := AtGet(w, r);
    var w2 := Apply(w1, Lookup(r.c, t));
    TimeGrows(w2, r.between);
    assert w1.db.HasToken(t);
    CallWaits(w2, r.between, r.c, f, t);
    QuietKeeps(w2, r.between, f, t, user, until);
    ScriptRotates(AtScript(w, t, r), r.c, r.next, f, t, user, until);
  }

  lemma ScriptRotates(w: World, c: nat, next: Token, f: Family, t: Token, user: int, until: nat)
    requires Holds(w, f, t, user, until) && w.db.now < until && Fresh(w, next)
    requires c in w.calls && w.calls[c] == Looked(t, Record(user, f))
    ensures var w' := Apply(w, Script(c, next));
            && c in w'.calls && w'.calls[c] == Done(t, Rotated(next, user))
            && Holds(w', f, next, user, w.db.now + REFRESH_TTL)
  {
  }

  /** A client that in sequence presents its latest token less than 14 days after receiving it
      never fails, whatever the rest of the world does meanwhile. */
  lemma {:induction false} SequentialClientNeverFails(w: World, f: Family, t: Token, user: int, until: nat, rounds: seq<Round>)
    requires Holds(w, f, t, user, until) && Session(w, f, t, until, rounds)
    ensures Answers(w, t, rounds) == Successes(t, user, rounds)
    decreases |rounds|
  {
    if rounds != [] {
      var r := rounds[0];
      RoundRotates(w, f, t, user, until, r);
      SequentialClientNeverFails(AfterRound(w, t, r), f, r.next, user, AtScript(w, t, r).db.now + REFRESH_TTL, rounds[1..]);
    }
  }

  // ---- the flood

  /** While calls `cs` flood the store with token `t` of family `f`, the others stay away from `f`. */
  predicate FloodEvent(w: World, e: Event, f: Family, t: Token, cs: set<nat>) {
    match e
    case Lookup(c, u) => c in cs ==> u == t
    case Script(c, _) => c in cs || Foreign(w, e, f, t)
    case _ => Foreign(w, e, f, t)
  }

  predicate Flood(w: World, es: seq<Event>, f: Family, t: Token, cs: set<nat>)
    decreases |es|
  {
    es == [] || (FloodEvent(w, es[0], f, t, cs) && Flood(Apply(w, es[0]), es[1..], f, t, cs))
  }

  // How far a flood has come: nobody answered; `a` won `n`; `b` has tripped reuse.
  datatype Stage = Untouched | Taken(a: nat, n: Token) | Burnt(a: nat, n: Token, b: nat)

  ghost predicate AtStage(w: World, s: Stage, f: Family, t: Token, user: int, until: nat, cs: set<nat>) {
    && PointersMinted(w)
    && until <= w.db.now + REFRESH_TTL
    && t in w.minted && f in w.founded
    && t in w.db.tokens && w.db.tokens[t] == Entry(Record(user, f), until)
    && (forall g :: g in w.db.families && g != f ==> w.db.families[g].value != t)
    && (forall c :: c in cs && c in w.calls ==> w.calls[c].held == t && CallAt(w.calls[c], c, s, f, t, user))
    && (match s
        case Untouched => f in w.db.families && w.db.families[f] == Entry(t, until)
        case Taken(a, n) =>
          && a in cs && a in w.calls && n in w.minted && n != t
          && f in w.db.families && w.db.families[f].value == n && until <= w.db.families[f].expires
        case Burnt(a, n, b) =>
          && a in cs && b in cs && a != b && a in w.calls && b in w.calls
          && f !in w.db.families && n in w.minted && n !in w.db.tokens)
  }

  predicate CallAt(call: Call, c: nat, s: Stage, f: Family, t: Token, user: int) {
    if !s.Untouched? && c == s.a then call == Done(t, Rotated(s.n, user))
    else if s.Burnt? && c == s.b then call == Done(t, Reused)
    else call == Looked(t, Record(user, f)) || (s.Burnt? && call == Done(t, Invalid))
  }

  ghost function NextStage(w: World, s: Stage, e: Event, cs: set<nat>): Stage {
    if e.Script? && e.c in cs && e.c in w.calls && w.calls[e.c].Looked? && Fresh(w, e.next) then
      match s
      case Untouched => Taken(e.c, e.next)
      case Taken(a, n) => Burnt(a, n, e.c)
      case Burnt(_, _, _) => s
    else s
  }

  lemma FloodScript(w: World, s: Stage, c: nat, next: Token, f: Family, t: Token, user: int, until: nat, cs: set<nat>)
    requires AtStage(w, s, f, t, user, until, cs) && w.db.now < until
    requires c in cs && c in w.calls && w.calls[c].Looked? && Fresh(w, next)
    ensures AtStage(RunScript(w, c, t, w.calls[c].rec, next), NextStage(w, s, Script(c, next), cs), f, t, user, until, cs)
  {
    assert CallAt(w.calls[c], c, s, f, t, user);
  }

  lemma OtherScript(w: World, s: Stage, c: nat, next: Token, f: Family, t: Token, user: int, until: nat, cs: set<nat>)
    requires AtStage(w, s, f, t, user, until, cs) && c !in cs
    requires c in w.calls && w.calls[c].Looked? && w.calls[c].rec.family != f && Fresh(w, next)
    ensures AtStage(RunScript(w, c, w.calls[c].held, w.calls[c].rec, next), s, f, t, user, until, cs)
  {
  }

  lemma FloodLookup(w: World, s: Stage, c: nat, u: Token, f: Family, t: Token, user: int, until: nat, cs: set<nat>)
    requires AtStage(w, s, f, t, user, until, cs) && w.db.now < until && (c in cs ==> u == t)
    ensures AtStage(Apply(w, Lookup(c, u)), s, f, t, user, until, cs)
  {
  }

  lemma FloodStep(w: World, s: Stage, e: Event, f: Family, t: Token, user: int, until: nat, cs: set<nat>)
    requires AtStage(w, s, f, t, user, until, cs) && w.db.now < until && FloodEvent(w, e, f, t, cs)
    ensures AtStage(Apply(w, e), NextStage(w, s, e, cs), f, t, user, until, cs)
  {
    match e
    case Script(c, next) =>
      if c in w.calls && w.calls[c].Looked? && Fresh(w, next) {
        if c in cs {
          FloodScript(w, s, c, next, f, t, user, until, cs);
        } else {
          OtherScript(w, s, c, next, f, t, user, until, cs);
        }
      }
    case Lookup(c, u) => FloodLookup(w, s, c, u, f, t, user, until, cs);
    case _ =>
  }

  lemma {:induction false} FloodRun(w: World, s: Stage, es: seq<Event>, f: Family, t: Token, user: int, until: nat, cs: set<nat>)
    returns (s': Stage)
    requires AtStage(w, s, f, t, user, until, cs) && Flood(w, es, f, t, cs) && Exec(w, es).db.now < until
    ensures AtStage(Exec(w, es), s', f, t, user, until, cs)
    decreases |es|
  {
    s' := s;
    if es != [] {
      TimeGrows(w, es);
      FloodStep(w, s, es[0], f, t, user, until, cs);
      s' := FloodRun(Apply(w, es[0]), NextStage(w, s, es[0], cs), es[1..], f, t, user, until, cs);
    }
  }

  ghost function Answering(w: World, cs: set<nat>, winner: bool, reuser: bool): set<nat> {
    set c | c in cs && c in w.calls && w.calls[c].Done?
            && w.calls[c].out.Rotated? == winner && w.calls[c].out.Reused? == reuser
  }

  /** Two or more calls that present one current token, in any schedule with anything foreign in
      between and no expiry, give exactly one success, one reuse report and otherwise invalid
      tokens; afterwards neither the family key nor the winner's record exists. */
  lemma FloodOutcome(w: World, es: seq<Event>, f: Family, t: Token, user: int, until: nat, cs: set<nat>)
    requires Holds(w, f, t, user, until) && cs !! w.calls.Keys && |cs| >= 2
    requires Flood(w, es, f, t, cs) && Exec(w, es).db.now < until
    requires forall c <- cs :: c in Exec(w, es).calls && Exec(w, es).calls[c].Done?
    ensures var w' := Exec(w, es);
            && |Answering(w', cs, true, false)| == 1
            && |Answering(w', cs, false, true)| == 1
            && |Answering(w', cs, false, false)| == |cs| - 2
            && f !in w'.db.families
            && (forall c <- Answering(w', cs, true, false) :: w'.calls[c].out.next !in w'.db.tokens)
  {
    var s := FloodRun(w, Untouched, es, f, t, user, until, cs);
    var w' := Exec(w, es);
    forall c <- cs ensures CallAt(w'.calls[c], c, s, f, t, user) {
    }
    var c, d := TwoOf(cs);
    assert s.Burnt? by {
      assert CallAt(w'.calls[c], c, s, f, t, user) && CallAt(w'.calls[d], d, s, f, t, user);
    }
    assert Answering(w', cs, true, false) == {s.a};
    assert Answering(w', cs, false, true) == {s.b};
    assert Answering(w', cs, false, false) == cs - {s.a, s.b};
  }

  lemma TwoOf(cs: set<nat>) returns (c: nat, d: nat)
    requires |cs| >= 2
    ensures c in cs && d in cs && c != d
  {
    c :| c in cs;
    assert |cs - {c}| == |cs| - 1;
    d :| d in cs - {c};
  }
}
