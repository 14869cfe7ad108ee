/** Phone codes against Redis (services/identity/internal/otp/store.go), one step per command.

    `otp:code:<phone>` is a hash with the fields code and attempts, `otp:rl:<phone>` a counter.  A key
    is readable strictly before its deadline.  Any call may stop between two of its commands. */
module OtpModel {
  import opened Decimal
  import opened RedisCounter

  const CODE_TTL: nat := 3 * 60 * 1000 // milliseconds
  const MAX_ATTEMPTS: nat := 5
  const RATE_WINDOW: nat := 60 * 60 * 1000
  const RATE_MAX: nat := 5

  // A hash that HINCRBY made has no code, and nothing gave it a deadline.
  datatype Hash = Hash(code: Option<string>, attempts: nat, deadline: Option<nat>)

  datatype Db = Db(now: nat, hashes: map<string, Hash>, counters: map<string, Counter>) {

    predicate HasHash(phone: string) {
      phone in hashes && (hashes[phone].deadline.None? || now < hashes[phone].deadline.value)
    }

    predicate HasCounter(phone: string) {
      Has(counters, phone, now)
    }
  }

  /** INCR otp:rl:<phone>, and its reply. */
  function Incr(db: Db, phone: string): (Db, nat) {
    (db.(counters := RedisCounter.Incremented(db.counters, phone, db.now)), Live(db.counters, phone, db.now) + 1)
  }

  /** EXPIRE otp:rl:<phone>, one hour. */
  function ExpireCounter(db: Db, phone: string): Db {
    db.(counters := RedisCounter.Expiring(db.counters, phone, db.now, RATE_WINDOW))
  }

  /** MULTI; HSET code, attempts 0; EXPIRE three minutes; EXEC. */
  function Put(db: Db, phone: string, code: string): Db {
    db.(hashes := db.hashes[phone := Hash(Some(code), 0, Some(db.now + CODE_TTL))])
  }

  /** What Go reads for the field "code" of an existing hash. */
  function CodeOf(h: Hash): string {
    if h.code.None? then "" else h.code.value
  }

  /** HINCRBY otp:code:<phone> attempts 1; it makes the hash if there is none. */
  function HIncr(db: Db, phone: string): (Db, nat) {
    var h := if db.HasHash(phone) then db.hashes[phone] else Hash(None, 0, None);
    (db.(hashes := db.hashes[phone := h.(attempts := h.attempts + 1)]), h.attempts + 1)
  }

  /** DEL otp:code:<phone>. */
  function Del(db: Db, phone: string): Db {
    db.(hashes := db.hashes - {phone})
  }

  datatype Outcome = Sent(code: string) | RateLimited | Accepted | InvalidCode | TooManyAttempts

  /** Verify as if it were one step. */
  function VerifyOnce(db: Db, phone: string, code: string): (Db, Outcome) {
    if !db.HasHash(phone) then (db, InvalidCode)
    else if CodeOf(db.hashes[phone]) == code then (Del(db, phone), Accepted)
    else
      var (db', attempts) := HIncr(db, phone);
      if attempts >= MAX_ATTEMPTS then (Del(db', phone), TooManyAttempts) else (db', InvalidCode)
  }

  /** Request as if it were one step. */
  function RequestOnce(db: Db, phone: string, code: string, expires: bool): (Db, Outcome) {
    var (db1, count) := Incr(db, phone);
    var db2 := if count == 1 && expires then ExpireCounter(db1, phone) else db1;
    if count > RATE_MAX then (db2, RateLimited) else (Put(db2, phone, code), Sent(code))
  }

  /** "%06d" of a number below a million. */
  function SixDigits(n: nat): string
    requires n < 1_000_000
  {
    Zeros(6 - |Digits(n)|) + Digits(n)
  }

  // ---- the interleaving

  datatype Phase =
    | Asked(phone: string)
    | First(phone: string)                    // the counter is new and has no deadline yet
    | Allowed(phone: string)
    | Guessing(phone: string, code: string)
    | Mistaken(phone: string)
    | Exhausted(phone: string)
    | Matched(phone: string, code: string, at: nat)
    | Finished(outcome: Outcome)

  datatype Issued = Issued(phone: string, code: string, at: nat)

  // A comparison with a stored hash: with the code of which issue, if the hash held one.
  datatype Guessed = Guessed(phone: string, issue: Option<nat>, right: bool)

  // One existence of a counter: when it began, and when it let a request through.
  datatype Life = Life(start: nat, hits: seq<nat>)

  datatype System = System(
    db: Db,
    calls: map<nat, Phase>,
    issued: seq<Issued>,            // every code that was stored
    guesses: seq<Guessed>,          // every comparison with a stored hash
    against: map<nat, nat>,         // the issue that a call compared its guess with
    lives: map<string, seq<Life>>)  // every counter, by phone

  const INIT := System(Db(0, map[], map[]), map[], [], [], map[], map[])

  datatype Event =
    | Tick(d: nat)
    | Ask(id: nat, phone: string)
    | Guess(id: nat, phone: string, code: string)
    | Count(id: nat)                          // INCR
    | Expire(id: nat, ok: bool)               // EXPIRE, whose error is ignored
    | Store(id: nat, n: nat)                  // the transaction, with the random number
    | Read(id: nat)                           // HGETALL
    | Miss(id: nat)                           // HINCRBY
    | Drop(id: nat)                           // DEL
    | Stop(id: nat)                           // the call fails or crashes here

  function To(s: System, id: nat, p: Phase): System {
    s.(calls := s.calls[id := p])
  }

  function LivesOf(s: System, phone: string): seq<Life> {
    if phone in s.lives then s.lives[phone] else []
  }

  /** The lives of a counter after an INCR at `now`. */
  function Hit(lives: seq<Life>, now: nat, isNew: bool, allowed: bool): seq<Life> {
    if isNew || lives == [] then lives + [Life(now, [now])]
    else if allowed then
      var last := lives[|lives| - 1];
      lives[|lives| - 1 := last.(hits := last.hits + [now])]
    else lives
  }

  function DoCount(s: System, id: nat, phone: string): System {
    var (db', count) := Incr(s.db, phone);
    var lives := Hit(LivesOf(s, phone), s.db.now, count == 1, count <= RATE_MAX);
    To(s.(db := db', lives := s.lives[phone := lives]), id,
       if count == 1 then First(phone) else if count <= RATE_MAX then Allowed(phone) else Finished(RateLimited))
  }

  function DoExpire(s: System, id: nat, phone: string, ok: bool): System {
    To(s.(db := if ok then ExpireCounter(s.db, phone) else s.db), id, Allowed(phone))
  }

  function DoStore(s: System, id: nat, phone: string, n: nat): System
    requires n < 1_000_000
  {
    var code := SixDigits(n);
    To(s.(db := Put(s.db, phone, code), issued := s.issued + [Issued(phone, code, s.db.now)]), id, Finished(Sent(code)))
  }

  /** The last code stored for a phone. */
  function LastOf(issued: seq<Issued>, number: string): (k: Option<nat>)
    ensures k.Some? ==> k.value < |issued| && issued[k.value].phone == number
  {
    if issued == [] then None
    else if issued[|issued| - 1].phone == number then Some(|issued| - 1)
    else LastOf(issued[..|issued| - 1], number)
  }

  /** The issue whose code the hash of a phone holds: a hash with a code holds the last one. */
  function IssueIn(s: System, phone: string): Option<nat> {
    if phone in s.db.hashes && s.db.hashes[phone].code.Some? then LastOf(s.issued, phone) else None
  }

  function DoRead(s: System, id: nat, phone: string, code: string): System {
    if !s.db.HasHash(phone) then To(s, id, Finished(InvalidCode))
    else
      var right, issue := CodeOf(s.db.hashes[phone]) == code, IssueIn(s, phone);
      To(s.(guesses := s.guesses + [Guessed(phone, issue, right)],
            against := if issue.Some? then s.against[id := issue.value] else s.against - {id}), id,
         if right then Matched(phone, code, s.db.now) else Mistaken(phone))
  }

  function DoMiss(s: System, id: nat, phone: string): System {
    var (db', attempts) := HIncr(s.db, phone);
    To(s.(db := db'), id, if attempts >= MAX_ATTEMPTS then Exhausted(phone) else Finished(InvalidCode))
  }

  function DoDrop(s: System, id: nat, phone: string, o: Outcome): System {
    To(s.(db := Del(s.db, phone)), id, Finished(o))
  }

  function Step(s: System, id: nat, p: Phase, e: Event): System {
    match (p, e)
    case (Asked(phone), Count(_)) => DoCount(s, id, phone)
    case (First(phone), Expire(_, ok)) => DoExpire(s, id, phone, ok)
    case (Allowed(phone), Store(_, n)) => if n < 1_000_000 then DoStore(s, id, phone, n) else s
    case (Guessing(phone, code), Read(_)) => DoRead(s, id, phone, code)
    case (Mistaken(phone), Miss(_)) => DoMiss(s, id, phone)
    case (Exhausted(phone), Drop(_)) => DoDrop(s, id, phone, TooManyAttempts)
    case (Matched(phone, _, _), Drop(_)) => DoDrop(s, id, phone, Accepted)
    case (Finished(_), Stop(_)) => s
    case (_, Stop(_)) => s.(calls := s.calls - {id})
    case _ => s
  }

  function Apply(s: System, e: Event): System {
    match e
    case Tick(d) => s.(db := s.db.(now := s.db.now + d))
    case Ask(id, phone) => if id in s.calls then s else To(s, id, Asked(phone))
    case Guess(id, phone, code) => if id in s.calls then s else To(s, id, Guessing(phone, code))
    case _ => if e.id in s.calls then Step(s, e.id, s.calls[e.id], e) else s
  }

  function Exec(s: System, es: seq<Event>): System
    decreases es
  {
    if es == [] then s else Exec(Apply(s, es[0]), es[1..])
  }

  lemma {:induction false} ExecConcat(s: System, a: seq<Event>, b: seq<Event>)
    ensures Exec(s, a + b) == Exec(Exec(s, a), b)
    decreases a
  {
    if a == [] {
      assert a + b == b;
    } else {
      assert (a + b)[0] == a[0] && (a + b)[1..] == a[1..] + b;
      ExecConcat(Apply(s, a[0]), a[1..], b);
    }
  }
}
