/** Outbox, relays, stream, consumer group and read model as one system of atomic steps.  Relays and
    consumers crash between any two of their writes, and any of their commands can fail. */
module Pipeline {
  import opened Decimal
  import opened Events

  // A relay inside publishBatch: the rows left, and whether the first was appended already.
  datatype Relay = Relay(batch: seq<nat>, appended: bool)

  // A consumer process: its name in the group, its cursor ("0" or ">"), the entries of its last
  // read that are left, and whether the first was handled already.
  datatype Worker = Worker(name: string, live: bool, batch: seq<nat>, handled: bool)

  datatype System = System(
    users: map<int, string>,        // committed signups with their nicknames
    phones: map<string, int>,       // PHONE credentials
    outbox: seq<Row>,
    stream: seq<Entry>,
    delivered: nat,                 // entries handed to the group so far
    pending: map<nat, string>,      // handed out and not acked, by consumer name
    authors: Authors,
    relays: map<nat, Relay>,
    workers: map<nat, Worker>)

  datatype Event =
    | Signup(phone: string, user: int, nickname: string, commits: bool)
    | Poll(r: nat)
    | Append(r: nat, ok: bool)
    | Mark(r: nat, ok: bool)
    | RelayCrash(r: nat)
    | Start(w: nat, name: string)
    | Read(w: nat)
    | Handle(w: nat, ok: bool)
    | Ack(w: nat, ok: bool)
    | WorkerCrash(w: nat)

  const Init := System(map[], map[], [], [], 0, map[], map[], map[], map[])

  const IDLE := Relay([], false)

  function RelayOf(s: System, r: nat): Relay {
    if r in s.relays then s.relays[r] else IDLE
  }

  /** CreateUser: user, credential, profile and outbox row in one transaction, or nothing.  The
      database hands out a new user id; a registered phone number conflicts. */
  function DoSignup(s: System, phone: string, user: int, nickname: string): System {
    s.(users := s.users[user := nickname], phones := s.phones[phone := user],
       outbox := s.outbox + [Row(user, nickname, false)])
  }

  function DoPoll(s: System, r: nat): System {
    s.(relays := s.relays[r := Relay(Take(Unpublished(s.outbox), BATCH), false)])
  }

  function DoAppend(s: System, r: nat, ok: bool): System
    requires r in s.relays && s.relays[r].batch != [] && s.relays[r].batch[0] < |s.outbox|
  {
    if !ok then s.(relays := s.relays[r := IDLE])
    else
      var i := s.relays[r].batch[0];
      s.(stream := s.stream + [Publish(i, s.outbox[i])], relays := s.relays[r := s.relays[r].(appended := true)])
  }

  function DoMark(s: System, r: nat, ok: bool): System
    requires r in s.relays && s.relays[r].batch != [] && s.relays[r].batch[0] < |s.outbox|
  {
    if !ok then s.(relays := s.relays[r := IDLE])
    else
      var i := s.relays[r].batch[0];
      s.(outbox := s.outbox[i := s.outbox[i].(published := true)],
         relays := s.relays[r := Relay(s.relays[r].batch[1..], false)])
  }

  function DoRead(s: System, w: nat): System
    requires w in s.workers && s.delivered <= |s.stream|
  {
    var me := s.workers[w];
    if me.live then
      var batch := Undelivered(s.delivered, |s.stream|);
      s.(delivered := s.delivered + |batch|,
         pending := s.pending + (map e | e in batch :: me.name),
         workers := s.workers[w := me.(batch := batch, handled := false)])
    else
      var batch := Take(Pending(s.pending, me.name, s.delivered), COUNT);
      s.(workers := s.workers[w := me.(live := batch == [], batch := batch, handled := false)])
  }

  /** One message of the batch: an unknown type needs no database, a rejected payload or a failed
      upsert is skipped and stays pending. */
  function DoHandle(s: System, w: nat, ok: bool): System
    requires w in s.workers && s.workers[w].batch != [] && s.workers[w].batch[0] < |s.stream|
  {
    var me := s.workers[w];
    var e := s.stream[me.batch[0]];
    if Handling(e).Reject? || (Handling(e).Upsert? && !ok) then
      s.(workers := s.workers[w := me.(batch := me.batch[1..])])
    else
      s.(authors := Upserted(s.authors, e), workers := s.workers[w := me.(handled := true)])
  }

  /** XACK; its error is ignored and the entry stays pending. */
  function DoAck(s: System, w: nat, ok: bool): System
    requires w in s.workers && s.workers[w].batch != []
  {
    var me := s.workers[w];
    s.(pending := if ok then s.pending - {me.batch[0]} else s.pending,
       workers := s.workers[w := me.(batch := me.batch[1..], handled := false)])
  }

  predicate CanAppend(s: System, r: nat) {
    r in s.relays && s.relays[r].batch != [] && s.relays[r].batch[0] < |s.outbox|
  }

  predicate CanHandle(s: System, w: nat) {
    w in s.workers && s.workers[w].batch != [] && s.workers[w].batch[0] < |s.stream|
  }

  /** A step that cannot happen changes nothing. */
  function Apply(s: System, e: Event): System {
    match e
    case Signup(phone, user, nickname, commits) =>
      if commits && user !in s.users && phone !in s.phones && nickname != "" then DoSignup(s, phone, user, nickname) else s
    case Poll(r) => if RelayOf(s, r).batch == [] then DoPoll(s, r) else s
    case Append(r, ok) => if CanAppend(s, r) && !s.relays[r].appended then DoAppend(s, r, ok) else s
    case Mark(r, ok) => if CanAppend(s, r) && s.relays[r].appended then DoMark(s, r, ok) else s
    case RelayCrash(r) => s.(relays := s.relays - {r})
    case Start(w, name) => if w !in s.workers then s.(workers := s.workers[w := Worker(name, false, [], false)]) else s
    case Read(w) =>
      if w in s.workers && s.workers[w].batch == [] && s.delivered <= |s.stream| then DoRead(s, w) else s
    case Handle(w, ok) => if CanHandle(s, w) && !s.workers[w].handled then DoHandle(s, w, ok) else s
    case Ack(w, ok) => if CanHandle(s, w) && s.workers[w].handled then DoAck(s, w, ok) else s
    case WorkerCrash(w) => s.(workers := s.workers - {w})
  }

  function Exec(s: System, es: seq<Event>): System
    decreases |es|
  {
    if es == [] then s else Exec(Apply(s, es[0]), es[1..])
  }

  lemma {:induction false} ExecConcat(s: System, a: seq<Event>, b: seq<Event>)
    ensures Exec(s, a + b) == Exec(Exec(s, a), b)
    decreases |a|
  {
    if a == [] {
      assert a + b == b;
    } else {
      assert (a + b)[1..] == a[1..] + b;
      ExecConcat(Apply(s, a[0]), a[1..], b);
    }
  }

  // ---- the invariant

  ghost predicate Applied(s: System, e: nat) {
    e < |s.stream| ==>
      && s.stream[e].outboxId < |s.outbox|
      && Format(s.outbox[s.stream[e].outboxId].user) in s.authors
  }

  ghost predicate InStream(s: System, i: nat) {
    exists e :: 0 <= e < |s.stream| && s.stream[e].outboxId == i
  }

  /** Every row belongs to a committed signup and tells its nickname. */
  ghost predicate RowsOk(s: System) {
    && (forall i :: 0 <= i < |s.outbox| ==> RowOk(s, s.outbox[i]))
    && (forall i :: 0 <= i < |s.outbox| && s.outbox[i].published ==> InStream(s, i))
    && (forall u :: u in s.users ==> exists i :: 0 <= i < |s.outbox| && s.outbox[i].user == u)
  }

  ghost predicate RowOk(s: System, row: Row) {
    row.user in s.users && s.users[row.user] == row.nickname && row.nickname != ""
  }

  /** Every entry is what XADD sends for a row. */
  ghost predicate StreamOk(s: System) {
    forall e :: 0 <= e < |s.stream| ==>
      && s.stream[e].outboxId < |s.outbox|
      && s.stream[e] == Publish(s.stream[e].outboxId, s.outbox[s.stream[e].outboxId])
  }

  /** What the group delivered is pending or applied. */
  ghost predicate DeliveryOk(s: System) {
    && s.delivered <= |s.stream|
    && (forall e :: e in s.pending ==> e < s.delivered)
    && (forall e :: 0 <= e < s.delivered ==> e in s.pending || Applied(s, e))
  }

  /** The read model only ever holds signup nicknames. */
  ghost predicate AuthorsOk(s: System) {
    forall k :: k in s.authors ==> exists u :: u in s.users && k == Format(u) && s.authors[k] == s.users[u]
  }

  ghost predicate RelayOk(s: System, relay: Relay) {
    && (forall k :: 0 <= k < |relay.batch| ==> relay.batch[k] < |s.outbox|)
    && (relay.appended ==> relay.batch != [] && InStream(s, relay.batch[0]))
  }

  ghost predicate WorkerOk(s: System, worker: Worker) {
    && (forall k :: 0 <= k < |worker.batch| ==> worker.batch[k] < s.delivered)
    && (worker.handled ==> worker.batch != [] && Applied(s, worker.batch[0]))
  }

  ghost predicate Inv(s: System) {
    && RowsOk(s) && StreamOk(s) && DeliveryOk(s) && AuthorsOk(s)
    && (forall r :: r in s.relays ==> RelayOk(s, s.relays[r]))
    && (forall w :: w in s.workers ==> WorkerOk(s, s.workers[w]))
  }
}
