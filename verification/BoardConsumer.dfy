/** One event consumer: drain what is pending under its name, then read new entries
    (services/board/internal/consumer/consumer.go). */
module BoardConsumer {
  import opened Events
  import Pipeline

  // What the consumer works on; `live` is the cursor ">" and otherwise it is "0".
  datatype View = View(stream: seq<Entry>, delivered: nat, pending: map<nat, string>, authors: Authors, live: bool)

  // The entries whose upsert fails, and whose ack fails, in one round of the loop.
  datatype Faults = Faults(upserts: set<nat>, acks: set<nat>)

  ghost predicate Consistent(v: View) {
    v.delivered <= |v.stream| && forall e :: e in v.pending ==> e < v.delivered
  }

  predicate Fails(v: View, e: nat, faults: Faults)
    requires e < |v.stream|
  {
    Handling(v.stream[e]).Reject? || (Handling(v.stream[e]).Upsert? && e in faults.upserts)
  }

  function BatchOf(v: View, name: string): seq<nat>
    requires v.delivered <= |v.stream|
  {
    if v.live then Undelivered(v.delivered, |v.stream|) else Take(Pending(v.pending, name, v.delivered), COUNT)
  }

  /** XREADGROUP: new entries become pending under the reader's name, old ones stay as they are. */
  function AfterRead(v: View, name: string): View
    requires v.delivered <= |v.stream|
  {
    var batch := BatchOf(v, name);
    if v.live then v.(delivered := v.delivered + |batch|, pending := v.pending + (map e | e in batch :: name))
    else v.(live := batch == [])
  }

  /** One message: upsert and ack; a failed handler leaves it unacked, a failed ack is ignored. */
  function AfterMessage(v: View, e: nat, faults: Faults): View
    requires e < |v.stream|
  {
    if Fails(v, e, faults) then v
    else v.(authors := Upserted(v.authors, v.stream[e]),
            pending := if e in faults.acks then v.pending else v.pending - {e})
  }

  function AfterMessages(v: View, batch: seq<nat>, faults: Faults): View
    requires forall k :: 0 <= k < |batch| ==> batch[k] < |v.stream|
    decreases |batch|
  {
    if batch == [] then v else AfterMessages(AfterMessage(v, batch[0], faults), batch[1..], faults)
  }

  function Round(v: View, name: string, faults: Faults): View
    requires v.delivered <= |v.stream|
  {
    AfterMessages(AfterRead(v, name), BatchOf(v, name), faults)
  }

  /** The first ten pending entries of a consumer, in stream order. */
  lemma FirstPending(pending: map<nat, string>, name: string, upto: nat)
    requires forall e :: e in pending ==> e < upto
    ensures var batch := Take(Pending(pending, name, upto), COUNT);
            && |batch| <= 10
            && (forall e :: e in pending && pending[e] == name ==>
                  e in batch || (|batch| == 10 && forall k :: 0 <= k < |batch| ==> batch[k] < e))
  {
    PendingIsAscending(pending, name, upto);
    var all := Pending(pending, name, upto);
    var batch := Take(all, COUNT);
    forall e | e in pending && pending[e] == name
      ensures e in batch || (|batch| == 10 && forall k :: 0 <= k < |batch| ==> batch[k] < e)
    {
      PendingIsComplete(pending, name, upto, e);
      var i :| 0 <= i < |all| && all[i] == e;
      assert i < |batch| ==> batch[i] == e;
    }
  }

  class Consumer {
    const stream: seq<Entry>
    const name: string
    var delivered: nat
    var pending: map<nat, string>
    var authors: Authors
    var live: bool

    function State(): View
      reads this
    {
      View(stream, delivered, pending, authors, live)
    }

    ghost predicate Valid()
      reads this
    {
      Consistent(State())
    }

    /** A start finds the group as an earlier process left it and begins with cursor "0". */
    constructor (stream: seq<Entry>, name: string, delivered: nat, pending: map<nat, string>, authors: Authors)
      requires Consistent(View(stream, delivered, pending, authors, false))
      ensures Valid() && State() == View(stream, delivered, pending, authors, false) && this.name == name
    {
      this.stream, this.name, this.delivered, this.pending, this.authors, this.live
        := stream, name, delivered, pending, authors, false;
    }

    method ReadGroup() returns (batch: seq<nat>)
      requires Valid()
      modifies this
      ensures batch == BatchOf(old(State()), name) && State() == AfterRead(old(State()), name)
      ensures authors == old(authors)
      ensures old(live) ==>
                && live && |batch| == (if |stream| - old(delivered) <= 10 then |stream| - old(delivered) else 10)
                && (forall k :: 0 <= k < |batch| ==> batch[k] == old(delivered) + k) && delivered == old(delivered) + |batch|
                && (forall e :: e in pending <==> e in old(pending) || e in batch)
                && (forall e :: e in pending ==> pending[e] == if e in batch then name else old(pending)[e])
      ensures !old(live) ==>
                && delivered == old(delivered) && pending == old(pending) && (live <==> batch == []) && |batch| <= 10
                && (forall k :: 0 <= k < |batch| ==> batch[k] in pending && pending[batch[k]] == name)
                && (forall e :: e in pending && pending[e] == name ==>
                      e in batch || (|batch| == 10 && forall k :: 0 <= k < |batch| ==> batch[k] < e))
    {
      if live {
        batch := Undelivered(delivered, |stream|);
        pending := pending + (map e | e in batch :: name);
        delivered := delivered + |batch|;
      } else {
        batch := Take(Pending(pending, name, delivered), COUNT);
        FirstPending(pending, name, delivered);
        if batch == [] {
          live := true;
        }
      }
    }

    method HandleMessage(e: nat, upsertFails: bool, ackFails: bool)
      requires e < |stream|
      modifies this
      ensures var faults := Faults(if upsertFails then {e} else {}, if ackFails then {e} else {});
              State() == AfterMessage(old(State()), e, faults)
      ensures delivered == old(delivered) && live == old(live)
      ensures stream[e].eventType != "user.created" ==>
                authors == old(authors) && pending == if ackFails then old(pending) else old(pending) - {e}
      ensures stream[e].eventType == "user.created" ==>
                match stream[e].payload
                case Malformed => authors == old(authors) && pending == old(pending)
                case Payload(userId, nickname) =>
                  if userId == "" || nickname == "" || upsertFails then authors == old(authors) && pending == old(pending)
                  else authors == old(authors)[userId := nickname] && pending == if ackFails then old(pending) else old(pending) - {e}
    {
      match Handling(stream[e]) {
        case Reject => return;
        case Upsert(userId, nickname) =>
          if upsertFails {
            return;
          }
          authors := authors[userId := nickname];
        case Skip =>
      }
      if !ackFails {
        pending := pending - {e};
      }
    }

    /** One turn of the loop in Run. */
    method RunOnce(faults: Faults)
      requires Valid()
      modifies this
      ensures Valid() && State() == Round(old(State()), name, faults)
    {
      RoundIsConsistent(State(), name, faults);
      var batch := ReadGroup();
      ghost var goal := AfterMessages(State(), batch, faults);
      assert batch[0..] == batch;
      for k := 0 to |batch|
        invariant forall j :: 0 <= j < |batch| ==> batch[j] < |stream|
        invariant AfterMessages(State(), batch[k..], faults) == goal
      {
        NextMessage(State(), batch[k..], faults);
        assert batch[k..][1..] == batch[k + 1..];
        HandleMessage(batch[k], batch[k] in faults.upserts, batch[k] in faults.acks);
      }
      assert batch[|batch|..] == [];
    }
  }

  lemma NextMessage(v: View, batch: seq<nat>, faults: Faults)
    requires batch != [] && forall j :: 0 <= j < |batch| ==> batch[j] < |v.stream|
    ensures AfterMessages(v, batch, faults) == AfterMessages(AfterMessage(v, batch[0], faults), batch[1..], faults)
    ensures AfterMessage(v, batch[0], faults)
         == AfterMessage(v, batch[0], Faults(if batch[0] in faults.upserts then {batch[0]} else {},
                                             if batch[0] in faults.acks then {batch[0]} else {}))
  {
  }

  lemma {:induction false} MessagesAreConsistent(v: View, batch: seq<nat>, faults: Faults)
    requires Consistent(v) && forall k :: 0 <= k < |batch| ==> batch[k] < |v.stream|
    ensures var v' := AfterMessages(v, batch, faults);
            Consistent(v') && v'.stream == v.stream && v'.delivered == v.delivered && v'.live == v.live
    decreases |batch|
  {
    if batch != [] {
      MessagesAreConsistent(AfterMessage(v, batch[0], faults), batch[1..], faults);
    }
  }

  lemma RoundIsConsistent(v: View, name: string, faults: Faults)
    requires Consistent(v)
    ensures Consistent(Round(v, name, faults)) && Round(v, name, faults).stream == v.stream
    ensures Round(v, name, faults).live == AfterRead(v, name).live
    ensures Round(v, name, faults).delivered == AfterRead(v, name).delivered
  {
    MessagesAreConsistent(AfterRead(v, name), BatchOf(v, name), faults);
  }

  // ---- the drain

  lemma {:induction false} AscendingIsUnique(a: seq<nat>, b: seq<nat>)
    requires Ascending(a) && Ascending(b)
    requires forall e :: e in a <==> e in b
    ensures a == b
    decreases |a|
  {
    assert a != [] ==> a[0] in b;
    assert b != [] ==> b[0] in a;
    if a != [] {
      assert a[0] == b[0];
      forall e ensures e in a[1..] <==> e in b[1..] {
        TailMember(a, e);
        TailMember(b, e);
      }
      AscendingIsUnique(a[1..], b[1..]);
    }
  }

  lemma TailMember(a: seq<nat>, e: nat)
    requires a != [] && Ascending(a)
    ensures e in a[1..] <==> e in a && e != a[0]
  {
  }

  /** The entry is handled, and its ack succeeds. */
  predicate Clears(v: View, e: nat, faults: Faults) {
    e < |v.stream| ==> !Fails(v, e, faults) && e !in faults.acks
  }

  // Every pending entry of the consumer does.
  ghost predicate AllClear(v: View, name: string, faults: Faults) {
    forall e :: e in v.pending && v.pending[e] == name ==> Clears(v, e, faults)
  }

  lemma {:induction false} ClearMessages(v: View, batch: seq<nat>, faults: Faults)
    requires forall k :: 0 <= k < |batch| ==> batch[k] < |v.stream| && Clears(v, batch[k], faults)
    ensures AfterMessages(v, batch, faults).pending == v.pending - (set e | e in batch)
    decreases |batch|
  {
    if batch == [] {
      assert v.pending - (set e: nat | e in batch) == v.pending;
    } else {
      var v1 := AfterMessage(v, batch[0], faults);
      forall k | 0 <= k < |batch[1..]| ensures Clears(v1, batch[1..][k], faults) {
        assert Clears(v, batch[k + 1], faults);
      }
      ClearMessages(v1, batch[1..], faults);
      assert batch == [batch[0]] + batch[1..];
      assert v1.pending - (set e | e in batch[1..]) == v.pending - (set e | e in batch);
    }
  }

  // Deleting a prefix of the consumer's pending entries leaves the others, in order.
  lemma PendingAfter(pending: map<nat, string>, name: string, upto: nat, n: nat)
    requires n <= |Pending(pending, name, upto)|
    ensures var p := Pending(pending, name, upto);
            Pending(pending - (set e | e in p[..n]), name, upto) == p[n..]
  {
    var p := Pending(pending, name, upto);
    var left := pending - (set e | e in p[..n]);
    PendingIsAscending(pending, name, upto);
    PendingIsAscending(left, name, upto);
    forall e: nat ensures e in Pending(left, name, upto) <==> e in p[n..] {
      SuffixMember(p, n, e);
      PendingIsComplete(left, name, upto, e);
      PendingIsComplete(pending, name, upto, e);
    }
    AscendingIsUnique(Pending(left, name, upto), p[n..]);
  }

  lemma SuffixMember(p: seq<nat>, n: nat, e: nat)
    requires n <= |p| && Ascending(p)
    ensures e in p[n..] <==> e in p && e !in p[..n]
  {
    assert p == p[..n] + p[n..];
  }

  lemma DrainBatch(v: View, name: string, faults: Faults)
    requires Consistent(v) && AllClear(v, name, faults) && !v.live
    ensures var p, v' := Pending(v.pending, name, v.delivered), Round(v, name, faults);
            var batch := p[..Drained(|p|, 1)];
            && v'.pending == v.pending - (set e | e in batch)
            && v'.live == (p == []) && v'.delivered == v.delivered && v'.stream == v.stream
  {
    RoundIsConsistent(v, name, faults);
    var p := Pending(v.pending, name, v.delivered);
    var batch := p[..Drained(|p|, 1)];
    assert BatchOf(v, name) == batch;
    ClearMessages(AfterRead(v, name), batch, faults);
  }

  /** A round of the drain whose entries all clear removes those it read, and it reads the first ten. */
  lemma DrainRound(v: View, name: string, faults: Faults)
    requires Consistent(v) && AllClear(v, name, faults) && !v.live
    ensures var v' := Round(v, name, faults);
            var p := Pending(v.pending, name, v.delivered);
            && Consistent(v') && AllClear(v', name, faults) && v'.delivered == v.delivered
            && v'.live == (p == [])
            && Pending(v'.pending, name, v'.delivered) == p[Drained(|p|, 1)..]
  {
    RoundIsConsistent(v, name, faults);
    var v' := Round(v, name, faults);
    var p := Pending(v.pending, name, v.delivered);
    var n := Drained(|p|, 1);
    DrainBatch(v, name, faults);
    PendingAfter(v.pending, name, v.delivered, n);
    forall e | e in v'.pending && v'.pending[e] == name ensures Clears(v', e, faults) {
      assert Clears(v, e, faults);
    }
  }

  function Rounds(v: View, name: string, faults: seq<Faults>): View
    requires v.delivered <= |v.stream|
    decreases |faults|
  {
    if faults == [] then v
    else
      var v1 := Round(v, name, faults[0]);
      if v1.delivered <= |v1.stream| then Rounds(v1, name, faults[1..]) else v1
  }

  /** The same faults, round after round. */
  function Always(faults: Faults, n: nat): seq<Faults> {
    seq(n, _ => faults)
  }

  function Drained(p: nat, n: nat): nat {
    if p <= 10 * n then p else 10 * n
  }

  /** When every pending entry clears, `n` rounds clear the first min(p, 10 n) of `p` of them, and the
      cursor is ">" exactly when a round has read none: `p` entries take ceil(p / 10) reads, and the
      next, empty read switches to live. */
  lemma {:induction false} DrainClears(v: View, name: string, faults: Faults, n: nat)
    requires Consistent(v) && AllClear(v, name, faults) && !v.live
    requires n >= 2 ==> COUNT * (n - 2) < |Pending(v.pending, name, v.delivered)|
    ensures var p := Pending(v.pending, name, v.delivered);
            var v' := Rounds(v, name, Always(faults, n));
            && v'.delivered == v.delivered
            && Pending(v'.pending, name, v'.delivered) == p[Drained(|p|, n)..]
            && (v'.live <==> n >= 1 && |p| <= 10 * (n - 1))
    decreases n, 2
  {
    if n > 0 {
      RoundsCons(v, name, faults, n);
      DrainStep(v, name, faults, n);
    }
  }

  lemma RoundsCons(v: View, name: string, faults: Faults, n: nat)
    requires Consistent(v) && n > 0
    ensures var v1 := Round(v, name, faults);
            v1.delivered <= |v1.stream| && Rounds(v, name, Always(faults, n)) == Rounds(v1, name, Always(faults, n - 1))
  {
    RoundIsConsistent(v, name, faults);
    assert Always(faults, n)[1..] == Always(faults, n - 1);
  }

  lemma DrainStep(v: View, name: string, faults: Faults, n: nat)
    requires n >= 1 && Consistent(v) && AllClear(v, name, faults) && !v.live
    requires n >= 2 ==> COUNT * (n - 2) < |Pending(v.pending, name, v.delivered)|
    requires Round(v, name, faults).delivered <= |Round(v, name, faults).stream|
    ensures var p := Pending(v.pending, name, v.delivered);
            var v' := Rounds(Round(v, name, faults), name, Always(faults, n - 1));
            && v'.delivered == v.delivered
            && Pending(v'.pending, name, v'.delivered) == p[Drained(|p|, n)..]
            && (v'.live <==> |p| <= COUNT * (n - 1))
    decreases n, 1
  {
    DrainRound(v, name, faults);
    DrainGoesOn(Pending(v.pending, name, v.delivered), Round(v, name, faults), name, faults, n);
  }

  // The rounds after the first, which left `p` without its first ten.
  lemma DrainGoesOn(p: seq<nat>, v1: View, name: string, faults: Faults, n: nat)
    requires n >= 1 && (n >= 2 ==> COUNT * (n - 2) < |p|)
    requires Consistent(v1) && AllClear(v1, name, faults) && v1.live == (p == [])
    requires Pending(v1.pending, name, v1.delivered) == p[Drained(|p|, 1)..]
    ensures var v' := Rounds(v1, name, Always(faults, n - 1));
            && v'.delivered == v1.delivered
            && Pending(v'.pending, name, v'.delivered) == p[Drained(|p|, n)..]
            && (v'.live <==> |p| <= COUNT * (n - 1))
    decreases n, 0
  {
    if p != [] {
      DrainedAdds(|p|, n);
      DrainClears(v1, name, faults, n - 1);
      SliceTwice(p, Drained(|p|, 1), Drained(|p| - Drained(|p|, 1), n - 1));
    }
  }

  lemma DrainedAdds(p: nat, n: nat)
    requires n >= 1 && p > 0 && (n >= 2 ==> COUNT * (n - 2) < p)
    ensures Drained(p, 1) <= p && Drained(p, 1) + Drained(p - Drained(p, 1), n - 1) == Drained(p, n)
    ensures n >= 3 ==> COUNT * (n - 3) < p - Drained(p, 1)
    ensures n >= 2 ==> (p - Drained(p, 1) <= COUNT * (n - 2) <==> p <= COUNT * (n - 1))
  {
  }

  lemma SliceTwice(p: seq<nat>, m: nat, k: nat)
    requires m + k <= |p|
    ensures p[m..][k..] == p[m + k..]
  {
  }

  /** An entry that clears in no round keeps the drain from ending, be it that its handling fails or
      that its ack does: it stays pending and the consumer never reads a new entry. */
  lemma {:induction false} PoisonBlocks(v: View, name: string, e: nat, faults: seq<Faults>)
    requires Consistent(v) && !v.live && e in v.pending && v.pending[e] == name
    requires forall k :: 0 <= k < |faults| ==> !Clears(v, e, faults[k])
    ensures var v' := Rounds(v, name, faults);
            !v'.live && v'.delivered == v.delivered && e in v'.pending && v'.pending[e] == name
    decreases |faults|
  {
    if faults != [] {
      RoundIsConsistent(v, name, faults[0]);
      PendingIsComplete(v.pending, name, v.delivered, e);
      UnclearStays(AfterRead(v, name), BatchOf(v, name), e, faults[0]);
      PoisonBlocks(Round(v, name, faults[0]), name, e, faults[1..]);
    }
  }

  lemma {:induction false} UnclearStays(v: View, batch: seq<nat>, e: nat, faults: Faults)
    requires forall k :: 0 <= k < |batch| ==> batch[k] < |v.stream|
    requires e in v.pending && !Clears(v, e, faults)
    ensures var v' := AfterMessages(v, batch, faults); e in v'.pending && v'.pending[e] == v.pending[e]
    decreases |batch|
  {
    if batch != [] {
      UnclearStays(AfterMessage(v, batch[0], faults), batch[1..], e, faults);
    }
  }

  // Reads until the drain is over: ceil(p / 10), and the empty one.
  function ReadsFor(p: nat): nat {
    (p + 9) / 10 + 1
  }

  /** With the same faults in every round, the drain ends if and only if every pending entry of the
      consumer clears, and then it ends with its read number ceil(p / 10) + 1 and not before. */
  lemma DrainEndsIff(v: View, name: string, faults: Faults)
    requires Consistent(v) && !v.live
    ensures (exists n: nat :: Rounds(v, name, Always(faults, n)).live) <==> AllClear(v, name, faults)
    ensures AllClear(v, name, faults) ==>
              var p := |Pending(v.pending, name, v.delivered)|;
              && Rounds(v, name, Always(faults, ReadsFor(p))).live
              && forall n :: 0 <= n < ReadsFor(p) ==> !Rounds(v, name, Always(faults, n)).live
  {
    var p := |Pending(v.pending, name, v.delivered)|;
    if AllClear(v, name, faults) {
      DrainClears(v, name, faults, ReadsFor(p));
      forall n | 0 <= n < ReadsFor(p) ensures !Rounds(v, name, Always(faults, n)).live {
        DrainClears(v, name, faults, n);
      }
    } else {
      var e :| e in v.pending && v.pending[e] == name && !Clears(v, e, faults);
      forall n: nat ensures !Rounds(v, name, Always(faults, n)).live {
        PoisonBlocks(v, name, e, Always(faults, n));
      }
    }
  }

  /** A live consumer never retries: an entry left pending stays pending, whatever later rounds do.
      Only a new process under the same name, which starts with cursor "0", reads it again. */
  lemma {:induction false} LiveNeverRetries(v: View, name: string, e: nat, faults: seq<Faults>)
    requires Consistent(v) && v.live && e in v.pending
    ensures var v' := Rounds(v, name, faults);
            v'.live && e in v'.pending && v'.pending[e] == v.pending[e]
    decreases |faults|
  {
    if faults != [] {
      RoundIsConsistent(v, name, faults[0]);
      OthersStay(AfterRead(v, name), BatchOf(v, name), e, faults[0]);
      LiveNeverRetries(Round(v, name, faults[0]), name, e, faults[1..]);
    }
  }

  lemma {:induction false} OthersStay(v: View, batch: seq<nat>, e: nat, faults: Faults)
    requires forall k :: 0 <= k < |batch| ==> batch[k] < |v.stream|
    requires e in v.pending && e !in batch
    ensures var v' := AfterMessages(v, batch, faults); e in v'.pending && v'.pending[e] == v.pending[e]
    decreases |batch|
  {
    if batch != [] {
      OthersStay(AfterMessage(v, batch[0], faults), batch[1..], e, faults);
    }
  }

  // ---- a round is one of the interleavings of the system

  function ViewOf(s: Pipeline.System, w: nat): View
    requires w in s.workers
  {
    View(s.stream, s.delivered, s.pending, s.authors, s.workers[w].live)
  }

  /** The steps of process `w` for one message. */
  function MessageSteps(v: View, w: nat, e: nat, faults: Faults): seq<Pipeline.Event>
    requires e < |v.stream|
  {
    [Pipeline.Handle(w, e !in faults.upserts)]
    + if Fails(v, e, faults) then [] else [Pipeline.Ack(w, e !in faults.acks)]
  }

  function BatchSteps(v: View, w: nat, batch: seq<nat>, faults: Faults): seq<Pipeline.Event>
    requires forall k :: 0 <= k < |batch| ==> batch[k] < |v.stream|
    decreases |batch|
  {
    if batch == [] then [] else MessageSteps(v, w, batch[0], faults) + BatchSteps(v, w, batch[1..], faults)
  }

  /** A consumer that starts drains first, as the constructor says. */
  lemma StartDrains(s: Pipeline.System, w: nat, name: string)
    requires w !in s.workers
    ensures var s' := Pipeline.Apply(s, Pipeline.Start(w, name));
            && w in s'.workers && s'.workers[w].name == name && s'.workers[w].batch == []
            && ViewOf(s', w) == View(s.stream, s.delivered, s.pending, s.authors, false)
  {
  }

  lemma MessageIsARun(s: Pipeline.System, w: nat, faults: Faults)
    requires w in s.workers && s.workers[w].batch != [] && !s.workers[w].handled && s.workers[w].batch[0] < |s.stream|
    ensures var e := s.workers[w].batch[0];
            var s' := Pipeline.Exec(s, MessageSteps(ViewOf(s, w), w, e, faults));
            && w in s'.workers && ViewOf(s', w) == AfterMessage(ViewOf(s, w), e, faults)
            && s'.workers[w].batch == s.workers[w].batch[1..] && !s'.workers[w].handled
  {
    var e := s.workers[w].batch[0];
    var s1 := Pipeline.Apply(s, Pipeline.Handle(w, e !in faults.upserts));
    ExecFew(s, Pipeline.Handle(w, e !in faults.upserts), Pipeline.Ack(w, e !in faults.acks));
    HandleStep(s, w, e !in faults.upserts);
    if Fails(ViewOf(s, w), e, faults) {
      assert MessageSteps(ViewOf(s, w), w, e, faults) == [Pipeline.Handle(w, e !in faults.upserts)];
    } else {
      AckStep(s1, w, e !in faults.acks);
      assert MessageSteps(ViewOf(s, w), w, e, faults)
          == [Pipeline.Handle(w, e !in faults.upserts), Pipeline.Ack(w, e !in faults.acks)];
    }
  }

  lemma ExecFew(s: Pipeline.System, a: Pipeline.Event, b: Pipeline.Event)
    ensures Pipeline.Exec(s, [a]) == Pipeline.Apply(s, a)
    ensures Pipeline.Exec(s, [a, b]) == Pipeline.Apply(Pipeline.Apply(s, a), b)
  {
    assert [a][1..] == [] && [a, b][1..] == [b] && [b][1..] == [];
    assert Pipeline.Exec(Pipeline.Apply(s, a), []) == Pipeline.Apply(s, a);
    assert Pipeline.Exec(Pipeline.Apply(s, a), [b]) == Pipeline.Apply(Pipeline.Apply(s, a), b);
  }

  lemma HandleStep(s: Pipeline.System, w: nat, ok: bool)
    requires Pipeline.CanHandle(s, w) && !s.workers[w].handled
    ensures var e := s.stream[s.workers[w].batch[0]];
            var skipped := Handling(e).Reject? || (Handling(e).Upsert? && !ok);
            var me := s.workers[w];
            Pipeline.Apply(s, Pipeline.Handle(w, ok)) ==
              s.(authors := if skipped then s.authors else Upserted(s.authors, e),
                 workers := s.workers[w := if skipped then me.(batch := me.batch[1..]) else me.(handled := true)])
  {
  }

  lemma AckStep(s: Pipeline.System, w: nat, ok: bool)
    requires Pipeline.CanHandle(s, w) && s.workers[w].handled
    ensures var me := s.workers[w];
            Pipeline.Apply(s, Pipeline.Ack(w, ok)) ==
              s.(pending := if ok then s.pending - {me.batch[0]} else s.pending,
                 workers := s.workers[w := me.(batch := me.batch[1..], handled := false)])
  {
  }

  lemma {:induction false} MessagesAreARun(s: Pipeline.System, w: nat, faults: Faults)
    requires w in s.workers && !s.workers[w].handled
    requires forall k :: 0 <= k < |s.workers[w].batch| ==> s.workers[w].batch[k] < |s.stream|
    ensures var batch := s.workers[w].batch;
            var s' := Pipeline.Exec(s, BatchSteps(ViewOf(s, w), w, batch, faults));
            w in s'.workers && ViewOf(s', w) == AfterMessages(ViewOf(s, w), batch, faults)
    decreases |s.workers[w].batch|
  {
    var batch := s.workers[w].batch;
    if batch != [] {
      var v := ViewOf(s, w);
      var first := MessageSteps(v, w, batch[0], faults);
      var s1 := Pipeline.Exec(s, first);
      MessageIsARun(s, w, faults);
      MessagesAreARun(s1, w, faults);
      StepsFrame(v, ViewOf(s1, w), w, batch[1..], faults);
      Pipeline.ExecConcat(s, first, BatchSteps(v, w, batch[1..], faults));
    }
  }

  // The steps only depend on the stream.
  lemma {:induction false} StepsFrame(v: View, v1: View, w: nat, batch: seq<nat>, faults: Faults)
    requires v1.stream == v.stream && forall k :: 0 <= k < |batch| ==> batch[k] < |v.stream|
    ensures BatchSteps(v1, w, batch, faults) == BatchSteps(v, w, batch, faults)
    decreases |batch|
  {
    if batch != [] {
      StepsFrame(v, v1, w, batch[1..], faults);
    }
  }

  /** A round that nothing interrupts is the run Read, (Handle, Ack)* of the system. */
  lemma RoundIsARun(s: Pipeline.System, w: nat, faults: Faults)
    requires w in s.workers && s.workers[w].batch == [] && !s.workers[w].handled && Consistent(ViewOf(s, w))
    ensures var v, name := ViewOf(s, w), s.workers[w].name;
            var s' := Pipeline.Exec(s, [Pipeline.Read(w)] + BatchSteps(v, w, BatchOf(v, name), faults));
            w in s'.workers && ViewOf(s', w) == Round(v, name, faults)
  {
    var v, name := ViewOf(s, w), s.workers[w].name;
    var s1 := Pipeline.Apply(s, Pipeline.Read(w));
    assert ViewOf(s1, w) == AfterRead(v, name) && s1.workers[w].batch == BatchOf(v, name);
    MessagesAreARun(s1, w, faults);
    StepsFrame(v, ViewOf(s1, w), w, BatchOf(v, name), faults);
    var es := [Pipeline.Read(w)] + BatchSteps(v, w, BatchOf(v, name), faults);
    assert es[1..] == BatchSteps(v, w, BatchOf(v, name), faults);
  }
}
