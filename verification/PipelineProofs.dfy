/** No event is lost, and the read model converges to the signups. */
module PipelineProofs {
  import opened Decimal
  import opened Events
  import opened Pipeline

  /** What no step takes away. */
  ghost predicate Keeps(s: System, s': System) {
    && |s.outbox| <= |s'.outbox| && s.stream <= s'.stream
    && (forall i :: 0 <= i < |s.outbox| ==> s'.outbox[i].user == s.outbox[i].user && s'.outbox[i].nickname == s.outbox[i].nickname)
    && (forall u :: u in s.users ==> u in s'.users && s'.users[u] == s.users[u])
    && s.authors.Keys <= s'.authors.Keys
  }

  lemma KeptFacts(s: System, s': System)
    requires StreamOk(s) && Keeps(s, s')
    ensures forall i :: InStream(s, i) ==> InStream(s', i)
    ensures forall e :: 0 <= e < |s.stream| && Applied(s, e) ==> Applied(s', e)
  {
    forall i | InStream(s, i) ensures InStream(s', i) {
      var e :| 0 <= e < |s.stream| && s.stream[e].outboxId == i;
      assert s'.stream[e] == s.stream[e];
    }
    forall e | 0 <= e < |s.stream| && Applied(s, e) ensures Applied(s', e) {
      assert s'.stream[e] == s.stream[e];
    }
  }

  lemma KeptRelay(s: System, s': System, relay: Relay)
    requires StreamOk(s) && Keeps(s, s') && RelayOk(s, relay)
    ensures RelayOk(s', relay)
  {
    KeptFacts(s, s');
  }

  lemma KeptWorker(s: System, s': System, worker: Worker)
    requires StreamOk(s) && DeliveryOk(s) && Keeps(s, s') && s.delivered <= s'.delivered && WorkerOk(s, worker)
    ensures WorkerOk(s', worker)
  {
    KeptFacts(s, s');
  }

  // Relays and workers other than the one that moved are as good as before.
  lemma OthersStay(s: System, s': System, r: nat, w: nat)
    requires Inv(s) && Keeps(s, s') && s.delivered <= s'.delivered
    requires forall q :: q in s'.relays && q != r ==> q in s.relays && s'.relays[q] == s.relays[q]
    requires forall v :: v in s'.workers && v != w ==> v in s.workers && s'.workers[v] == s.workers[v]
    ensures forall q :: q in s'.relays && q != r ==> RelayOk(s', s'.relays[q])
    ensures forall v :: v in s'.workers && v != w ==> WorkerOk(s', s'.workers[v])
  {
    forall q | q in s'.relays && q != r ensures RelayOk(s', s'.relays[q]) {
      KeptRelay(s, s', s.relays[q]);
    }
    forall v | v in s'.workers && v != w ensures WorkerOk(s', s'.workers[v]) {
      KeptWorker(s, s', s.workers[v]);
    }
  }

  lemma RowsStay(s: System, s': System)
    requires RowsOk(s) && StreamOk(s) && Keeps(s, s') && s'.users == s.users && |s'.outbox| == |s.outbox|
    requires forall i :: 0 <= i < |s.outbox| && s'.outbox[i].published ==> s.outbox[i].published || InStream(s, i)
    ensures RowsOk(s')
  {
    KeptFacts(s, s');
    forall i | 0 <= i < |s'.outbox| ensures RowOk(s', s'.outbox[i]) {
      assert RowOk(s, s.outbox[i]);
    }
    forall u | u in s'.users ensures exists i :: 0 <= i < |s'.outbox| && s'.outbox[i].user == u {
      var i :| 0 <= i < |s.outbox| && s.outbox[i].user == u;
      assert s'.outbox[i].user == u;
    }
  }

  lemma DeliveryStays(s: System, s': System)
    requires StreamOk(s) && DeliveryOk(s) && Keeps(s, s') && s'.delivered == s.delivered && s'.pending == s.pending
    ensures DeliveryOk(s')
  {
    KeptFacts(s, s');
  }

  lemma AuthorsStay(s: System, s': System)
    requires AuthorsOk(s) && Keeps(s, s') && s'.authors == s.authors
    ensures AuthorsOk(s')
  {
    forall k | k in s'.authors ensures exists u :: u in s'.users && k == Format(u) && s'.authors[k] == s'.users[u] {
      var u :| u in s.users && k == Format(u) && s.authors[k] == s.users[u];
      assert u in s'.users;
    }
  }

  lemma SignupKeepsInv(s: System, phone: string, user: int, nickname: string)
    requires Inv(s) && user !in s.users && nickname != ""
    ensures Inv(DoSignup(s, phone, user, nickname))
  {
    var s' := DoSignup(s, phone, user, nickname);
    KeptFacts(s, s');
    assert RowsOk(s') by {
      forall i | 0 <= i < |s'.outbox| ensures RowOk(s', s'.outbox[i]) {
        assert i < |s.outbox| ==> RowOk(s, s.outbox[i]);
      }
      forall u | u in s'.users ensures exists i :: 0 <= i < |s'.outbox| && s'.outbox[i].user == u {
        if u == user {
          assert s'.outbox[|s.outbox|].user == u;
        } else {
          var i :| 0 <= i < |s.outbox| && s.outbox[i].user == u;
          assert s'.outbox[i].user == u;
        }
      }
    }
    DeliveryStays(s, s');
    AuthorsStay(s, s');
    forall r | r in s'.relays ensures RelayOk(s', s'.relays[r]) {
      KeptRelay(s, s', s.relays[r]);
    }
    forall w | w in s'.workers ensures WorkerOk(s', s'.workers[w]) {
      KeptWorker(s, s', s.workers[w]);
    }
  }

  // A step of relay `r` that leaves it in good order.
  lemma RelayStepKeepsInv(s: System, s': System, r: nat)
    requires Inv(s) && Keeps(s, s') && StreamOk(s') && |s'.outbox| == |s.outbox|
    requires s' == s.(outbox := s'.outbox, stream := s'.stream, relays := s'.relays)
    requires forall i :: 0 <= i < |s.outbox| && s'.outbox[i].published ==> s.outbox[i].published || InStream(s, i)
    requires forall q :: q in s'.relays && q != r ==> q in s.relays && s'.relays[q] == s.relays[q]
    requires r in s'.relays ==> RelayOk(s', s'.relays[r])
    ensures Inv(s')
  {
    RowsStay(s, s');
    DeliveryStays(s, s');
    AuthorsStay(s, s');
    forall q | q in s'.relays && q != r ensures RelayOk(s', s'.relays[q]) {
      KeptRelay(s, s', s.relays[q]);
    }
    forall w | w in s'.workers ensures WorkerOk(s', s'.workers[w]) {
      KeptWorker(s, s', s.workers[w]);
    }
  }

  lemma AppendKeepsInv(s: System, r: nat, ok: bool)
    requires Inv(s) && CanAppend(s, r) && !s.relays[r].appended
    ensures Inv(DoAppend(s, r, ok))
  {
    var s' := DoAppend(s, r, ok);
    if ok {
      assert s'.stream[|s.stream|].outboxId == s.relays[r].batch[0];
      assert InStream(s', s.relays[r].batch[0]);
      assert RelayOk(s, s.relays[r]);
    }
    RelayStepKeepsInv(s, s', r);
  }

  lemma MarkKeepsInv(s: System, r: nat, ok: bool)
    requires Inv(s) && CanAppend(s, r) && s.relays[r].appended
    ensures Inv(DoMark(s, r, ok))
  {
    assert RelayOk(s, s.relays[r]);
    var s' := DoMark(s, r, ok);
    MarkKeepsRows(s, r, ok);
    assert StreamOk(s');
    assert r in s'.relays ==> RelayOk(s', s'.relays[r]);
    RelayStepKeepsInv(s, s', r);
  }

  lemma MarkKeepsRows(s: System, r: nat, ok: bool)
    requires CanAppend(s, r) && InStream(s, s.relays[r].batch[0])
    ensures var s' := DoMark(s, r, ok);
            && Keeps(s, s') && |s'.outbox| == |s.outbox|
            && forall i :: 0 <= i < |s.outbox| && s'.outbox[i].published ==> s.outbox[i].published || InStream(s, i)
  {
  }

  lemma PollKeepsInv(s: System, r: nat)
    requires Inv(s)
    ensures Inv(DoPoll(s, r))
  {
    RelayStepKeepsInv(s, DoPoll(s, r), r);
  }

  // A step of worker `w` that leaves it, the deliveries and the read model in good order.
  lemma WorkerStepKeepsInv(s: System, s': System, w: nat)
    requires Inv(s) && Keeps(s, s') && s.delivered <= s'.delivered && DeliveryOk(s') && AuthorsOk(s')
    requires s' == s.(delivered := s'.delivered, pending := s'.pending, authors := s'.authors, workers := s'.workers)
    requires forall v :: v in s'.workers && v != w ==> v in s.workers && s'.workers[v] == s.workers[v]
    requires w in s'.workers ==> WorkerOk(s', s'.workers[w])
    ensures Inv(s')
  {
    RowsStay(s, s');
    forall r | r in s'.relays ensures RelayOk(s', s'.relays[r]) {
      KeptRelay(s, s', s.relays[r]);
    }
    forall v | v in s'.workers && v != w ensures WorkerOk(s', s'.workers[v]) {
      KeptWorker(s, s', s.workers[v]);
    }
  }

  lemma ReadKeepsInv(s: System, w: nat)
    requires Inv(s) && w in s.workers
    ensures Inv(DoRead(s, w))
  {
    var s' := DoRead(s, w);
    ReadDelivers(s, w);
    ReadLists(s, w);
    AuthorsStay(s, s');
    WorkerStepKeepsInv(s, s', w);
  }

  lemma ReadLists(s: System, w: nat)
    requires s.delivered <= |s.stream| && w in s.workers
    ensures w in DoRead(s, w).workers && WorkerOk(DoRead(s, w), DoRead(s, w).workers[w])
  {
  }

  // Newly delivered entries are pending.
  lemma ReadDelivers(s: System, w: nat)
    requires DeliveryOk(s) && w in s.workers
    ensures DeliveryOk(DoRead(s, w))
  {
    var s' := DoRead(s, w);
    var batch := Undelivered(s.delivered, |s.stream|);
    forall e | 0 <= e < s'.delivered ensures e in s'.pending || Applied(s', e) {
      if e >= s.delivered {
        assert batch[e - s.delivered] == e;
      } else {
        assert e in s.pending || Applied(s, e);
        assert Applied(s, e) ==> Applied(s', e);
      }
    }
  }

  /** The upsert writes the nickname that the signup of that key chose. */
  lemma UpsertWritesSignup(s: System, e: nat)
    requires RowsOk(s) && StreamOk(s) && AuthorsOk(s) && e < |s.stream|
    ensures var row := s.outbox[s.stream[e].outboxId];
            && Handling(s.stream[e]) == Upsert(Format(row.user), row.nickname)
            && row.user in s.users && s.users[row.user] == row.nickname
            && AuthorsOk(s.(authors := Upserted(s.authors, s.stream[e])))
  {
    var i := s.stream[e].outboxId;
    assert RowOk(s, s.outbox[i]);
    PublishedRowIsUpsert(i, s.outbox[i]);
    var s' := s.(authors := Upserted(s.authors, s.stream[e]));
    forall k | k in s'.authors ensures exists u :: u in s'.users && k == Format(u) && s'.authors[k] == s'.users[u] {
      if k == Format(s.outbox[i].user) {
        assert s.outbox[i].user in s'.users;
      } else {
        var u :| u in s.users && k == Format(u) && s.authors[k] == s.users[u];
        assert u in s'.users;
      }
    }
  }

  lemma HandleKeepsInv(s: System, w: nat, ok: bool)
    requires Inv(s) && CanHandle(s, w) && !s.workers[w].handled
    ensures Inv(DoHandle(s, w, ok))
  {
    var s' := DoHandle(s, w, ok);
    var e := s.workers[w].batch[0];
    assert WorkerOk(s, s.workers[w]);
    UpsertWritesSignup(s, e);
    DeliveryStays(s, s');
    WorkerStepKeepsInv(s, s', w);
  }

  lemma AckKeepsInv(s: System, w: nat, ok: bool)
    requires Inv(s) && CanHandle(s, w) && s.workers[w].handled
    ensures Inv(DoAck(s, w, ok))
  {
    var s' := DoAck(s, w, ok);
    assert WorkerOk(s, s.workers[w]);
    AckDelivers(s, w, ok);
    AuthorsStay(s, s');
    WorkerStepKeepsInv(s, s', w);
  }

  lemma AckDelivers(s: System, w: nat, ok: bool)
    requires DeliveryOk(s) && CanHandle(s, w) && Applied(s, s.workers[w].batch[0])
    ensures DeliveryOk(DoAck(s, w, ok))
  {
    var s' := DoAck(s, w, ok);
    forall e | 0 <= e < s'.delivered ensures e in s'.pending || Applied(s', e) {
      assert e in s.pending || Applied(s, e);
      assert Applied(s, e) ==> Applied(s', e);
    }
  }

  lemma CrashKeepsInv(s: System, r: nat, w: nat)
    requires Inv(s)
    ensures Inv(s.(relays := s.relays - {r})) && Inv(s.(workers := s.workers - {w}))
  {
    RelayStepKeepsInv(s, s.(relays := s.relays - {r}), r);
    var s' := s.(workers := s.workers - {w});
    DeliveryStays(s, s');
    AuthorsStay(s, s');
    WorkerStepKeepsInv(s, s', w);
  }

  lemma StartKeepsInv(s: System, w: nat, name: string)
    requires Inv(s)
    ensures Inv(s.(workers := s.workers[w := Worker(name, false, [], false)]))
  {
    var s' := s.(workers := s.workers[w := Worker(name, false, [], false)]);
    DeliveryStays(s, s');
    AuthorsStay(s, s');
    WorkerStepKeepsInv(s, s', w);
  }

  lemma ApplyKeepsInv(s: System, e: Event)
    requires Inv(s)
    ensures Inv(Apply(s, e))
  {
    match e
    case Signup(phone, user, nickname, commits) =>
      if commits && user !in s.users && phone !in s.phones && nickname != "" {
        SignupKeepsInv(s, phone, user, nickname);
      }
    case Poll(r) => PollKeepsInv(s, r);
    case Append(r, ok) => if CanAppend(s, r) && !s.relays[r].appended { AppendKeepsInv(s, r, ok); }
    case Mark(r, ok) => if CanAppend(s, r) && s.relays[r].appended { MarkKeepsInv(s, r, ok); }
    case RelayCrash(r) => CrashKeepsInv(s, r, 0);
    case Start(w, name) => StartKeepsInv(s, w, name);
    case Read(w) => if w in s.workers { ReadKeepsInv(s, w); }
    case Handle(w, ok) => if CanHandle(s, w) && !s.workers[w].handled { HandleKeepsInv(s, w, ok); }
    case Ack(w, ok) => if CanHandle(s, w) && s.workers[w].handled { AckKeepsInv(s, w, ok); }
    case WorkerCrash(w) => CrashKeepsInv(s, 0, w);
  }

  lemma {:induction false} ExecKeepsInv(s: System, es: seq<Event>)
    requires Inv(s)
    ensures Inv(Exec(s, es))
    decreases |es|
  {
    if es != [] {
      ApplyKeepsInv(s, es[0]);
      ExecKeepsInv(Apply(s, es[0]), es[1..]);
    }
  }

  // ---- the theorems

  /** The entry `e` carries the signup of user `u`. */
  predicate Carries(s: System, e: nat, u: int)
    requires e < |s.stream|
  {
    s.stream[e] == Entry(s.stream[e].outboxId, USER_CREATED, Payload(Format(u), if u in s.users then s.users[u] else ""))
  }

  ghost predicate Waits(s: System, u: int) {
    || (exists i :: 0 <= i < |s.outbox| && s.outbox[i].user == u && !s.outbox[i].published)
    || (exists e :: 0 <= e < |s.stream| && Carries(s, e, u) && (e >= s.delivered || e in s.pending))
  }

  ghost predicate Arrived(s: System, u: int) {
    Format(u) in s.authors && u in s.users && s.authors[Format(u)] == s.users[u]
  }

  lemma AuthorIsSignup(s: System, u: int)
    requires AuthorsOk(s) && u in s.users && Format(u) in s.authors
    ensures Arrived(s, u)
  {
    var v :| v in s.users && Format(u) == Format(v) && s.authors[Format(u)] == s.users[v];
    FormatIsInjective(u, v);
  }

  lemma SignupIsSomewhere(s: System, u: int)
    requires Inv(s) && u in s.users
    ensures Waits(s, u) || Arrived(s, u)
  {
    var i :| 0 <= i < |s.outbox| && s.outbox[i].user == u;
    assert RowOk(s, s.outbox[i]);
    if s.outbox[i].published {
      assert InStream(s, i);
      var e :| 0 <= e < |s.stream| && s.stream[e].outboxId == i;
      assert Carries(s, e, u);
      if e < s.delivered && e !in s.pending {
        assert Applied(s, e);
        AuthorIsSignup(s, u);
      }
    }
  }

  /** No event is lost: at every moment of every run, each committed signup is an unpublished row, an
      undelivered or pending entry that carries it, or it is in the read model already. */
  lemma NoEventIsLost(es: seq<Event>, u: int)
    requires u in Exec(Init, es).users
    ensures Waits(Exec(Init, es), u) || Arrived(Exec(Init, es), u)
  {
    ExecKeepsInv(Init, es);
    SignupIsSomewhere(Exec(Init, es), u);
  }

  predicate Quiescent(s: System) {
    && (forall i :: 0 <= i < |s.outbox| ==> s.outbox[i].published)
    && s.delivered == |s.stream|
    && s.pending == map[]
  }

  /** Convergence: the read model never holds anything but signup nicknames under their decimal
      ids, and with nothing unpublished, undelivered or pending it holds exactly all of them. */
  lemma ReadModelConverges(es: seq<Event>)
    ensures var s := Exec(Init, es);
            && (forall k :: k in s.authors ==> exists u :: u in s.users && k == Format(u) && s.authors[k] == s.users[u])
            && (Quiescent(s) ==> forall u :: u in s.users ==> Arrived(s, u))
  {
    ExecKeepsInv(Init, es);
    var s := Exec(Init, es);
    if Quiescent(s) {
      forall u | u in s.users ensures Arrived(s, u) {
        SignupIsSomewhere(s, u);
      }
    }
  }
}
