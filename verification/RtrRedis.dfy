/** Refresh token rotation as it runs against Redis (services/identity/internal/rtr/store.go).

    One step per Redis command or script: the two keyspaces `rt:token:<t>` and
    `rt:family:<f>` are maps whose entries carry a deadline, and a `Rotate` call is a GET
    followed, at any later moment, by one run of the rotation script.  A key is readable
    strictly before its deadline; an entry past its deadline stays in the map, unreadable.
    Nothing here stops a call from never reaching its second step: that is a crash. */
module RtrRedis {

  // `newOpaqueToken` returns a value never used before: a Minted serial that was not minted
  // so far.  NoToken is the empty string.
  datatype Token = NoToken | Minted(serial: nat)

  type Family = nat

  const REFRESH_TTL: nat := 14 * 24 * 60 * 60 * 1000 // milliseconds

  datatype Record = Record(user: int, family: Family)

  datatype Entry<V> = Entry(value: V, expires: nat)

  datatype Redis = Redis(now: nat, tokens: map<Token, Entry<Record>>, families: map<Family, Entry<Token>>) {

    predicate HasToken(t: Token) {
      t in tokens && now < tokens[t].expires
    }

    predicate HasFamily(f: Family) {
      f in families && now < families[f].expires
    }
  }

  datatype Outcome = Rotated(next: Token, user: int) | Reused | Invalid

  /** MULTI; SET rt:token:<t>; SET rt:family:<f>; EXEC. */
  function Save(db: Redis, t: Token, rec: Record): Redis {
    db.(tokens := db.tokens[t := Entry(rec, db.now + REFRESH_TTL)],
        families := db.families[rec.family := Entry(t, db.now + REFRESH_TTL)])
  }

  /** DEL rt:family:<f> rt:token:<t> ... in one command. */
  function Delete(db: Redis, f: Family, ts: set<Token>): Redis {
    db.(tokens := db.tokens - ts, families := db.families - {f})
  }

  /** RevokeFamily skips empty token arguments. */
  function Named(ts: seq<Token>): set<Token> {
    set t | t in ts && t != NoToken
  }

  /** The rotation script: KEYS[3] is the family of the record that the earlier GET returned. */
  function RotateScript(db: Redis, held: Token, rec: Record, next: Token): (Redis, Outcome) {
    if !db.HasFamily(rec.family) then
      (db, Invalid)
    else if db.families[rec.family].value != held then
      (Delete(db, rec.family, {db.families[rec.family].value}), Reused)
    else
      (Save(db, next, rec), Rotated(next, rec.user))
  }

  // A Rotate call after its GET, or after its answer.
  datatype Call = Looked(held: Token, rec: Record) | Done(held: Token, out: Outcome)

  datatype World = World(db: Redis, minted: set<Token>, founded: set<Family>, calls: map<nat, Call>)

  datatype Event =
    | Issue(f: Family, t: Token, user: int)
    | Lookup(c: nat, t: Token)       // the GET of call c
    | Script(c: nat, next: Token)   // newOpaqueToken and the script of call c
    | Revoke(f: Family, ts: seq<Token>)
    | Advance(ms: nat)

  const Start := World(Redis(0, map[], map[]), {}, {}, map[])

  /** Some call has rotated `t`. */
  ghost predicate Spent(w: World, t: Token) {
    exists c :: c in w.calls && w.calls[c].Done? && w.calls[c].held == t && w.calls[c].out.Rotated?
  }

  predicate Fresh(w: World, t: Token) {
    t != NoToken && t !in w.minted
  }

  function RunScript(w: World, c: nat, held: Token, rec: Record, next: Token): World {
    var (db, out) := RotateScript(w.db, held, rec, next);
    w.(db := db, minted := w.minted + {next}, calls := w.calls[c := Done(held, out)])
  }

  /** An event that cannot happen in `w` changes nothing, so every sequence of events is a run. */
  function Apply(w: World, e: Event): World {
    match e
    case Issue(f, t, user) =>
      if Fresh(w, t) && f !in w.founded then
        w.(db := Save(w.db, t, Record(user, f)), minted := w.minted + {t}, founded := w.founded + {f})
      else w
    case Lookup(c, t) =>
      if c in w.calls then w
      else if w.db.HasToken(t) then w.(calls := w.calls[c := Looked(t, w.db.tokens[t].value)])
      else w.(calls := w.calls[c := Done(t, Invalid)])
    case Script(c, next) =>
      if c in w.calls && w.calls[c].Looked? && Fresh(w, next) then
        RunScript(w, c, w.calls[c].held, w.calls[c].rec, next)
      else w
    case Revoke(f, ts) =>
      w.(db := Delete(w.db, f, Named(ts)))
    case Advance(ms) =>
      w.(db := w.db.(now := w.db.now + ms))
  }

  function Exec(w: World, es: seq<Event>): World
    decreases |es|
  {
    if es == [] then w else Exec(Apply(w, es[0]), es[1..])
  }

  lemma {:induction false} ExecConcat(w: World, a: seq<Event>, b: seq<Event>)
    ensures Exec(w, a + b) == Exec(Exec(w, a), b)
    decreases |a|
  {
    if a == [] {
      assert a + b == b;
    } else {
      assert (a + b)[1..] == a[1..] + b;
      ExecConcat(Apply(w, a[0]), a[1..], b);
    }
  }
}
