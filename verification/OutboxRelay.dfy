/** One relay: a poll publishes, then marks, row by row (services/identity/internal/outbox/relay.go). */
module OutboxRelay {
  import opened Collections
  import opened Decimal
  import opened Events
  import Pipeline

  // Which command of a poll fails, by the position of its row in the batch.
  datatype Fault = NoFault | AtAppend(k: nat) | AtMark(k: nat)

  function Marked(outbox: seq<Row>, ids: seq<nat>): (r: seq<Row>)
    requires forall k :: 0 <= k < |ids| ==> ids[k] < |outbox|
    ensures |r| == |outbox|
    ensures forall i :: 0 <= i < |outbox| ==> r[i] == outbox[i].(published := outbox[i].published || i in ids)
  {
    seq(|outbox|, i requires 0 <= i < |outbox| => outbox[i].(published := outbox[i].published || i in ids))
  }

  function Sent(outbox: seq<Row>, ids: seq<nat>): (r: seq<Entry>)
    requires forall k :: 0 <= k < |ids| ==> ids[k] < |outbox|
    ensures |r| == |ids| && forall k :: 0 <= k < |ids| ==> r[k] == Publish(ids[k], outbox[ids[k]])
  {
    seq(|ids|, k requires 0 <= k < |ids| => Publish(ids[k], outbox[ids[k]]))
  }

  function BatchOf(outbox: seq<Row>): seq<nat> {
    Take(Unpublished(outbox), BATCH)
  }

  /** How many rows of the batch a poll finishes. */
  function Finished(batch: seq<nat>, fault: Fault): (n: nat)
    ensures n <= |batch|
  {
    if fault.NoFault? || fault.k >= |batch| then |batch| else fault.k
  }

  /** The row that is appended and not marked, if there is one. */
  function Orphan(batch: seq<nat>, fault: Fault): seq<nat> {
    if fault.AtMark? && fault.k < |batch| then [batch[fault.k]] else []
  }

  /** The finished rows of a batch are published and sent, in order; a failed mark has sent one more. */
  function AfterRows(outbox: seq<Row>, stream: seq<Entry>, batch: seq<nat>, fault: Fault): (seq<Row>, seq<Entry>)
    requires forall k :: 0 <= k < |batch| ==> batch[k] < |outbox|
  {
    var n := Finished(batch, fault);
    (Marked(outbox, batch[..n]), stream + Sent(outbox, batch[..n] + Orphan(batch, fault)))
  }

  /** What a poll leaves behind: it takes the first hundred unpublished rows, in id order. */
  function AfterPoll(outbox: seq<Row>, stream: seq<Entry>, fault: Fault): (seq<Row>, seq<Entry>) {
    AfterRows(outbox, stream, BatchOf(outbox), fault)
  }

  lemma MarkedOneMore(outbox: seq<Row>, ids: seq<nat>, n: nat)
    requires n < |ids| && forall k :: 0 <= k < |ids| ==> ids[k] < |outbox|
    ensures var before := Marked(outbox, ids[..n]);
            Marked(outbox, ids[..n + 1]) == before[ids[n] := before[ids[n]].(published := true)]
  {
    assert ids[..n + 1] == ids[..n] + [ids[n]];
  }

  lemma SentOneMore(outbox: seq<Row>, ids: seq<nat>, n: nat)
    requires n < |ids| && forall k :: 0 <= k < |ids| ==> ids[k] < |outbox|
    ensures Sent(outbox, ids[..n + 1]) == Sent(outbox, ids[..n]) + [Publish(ids[n], outbox[ids[n]])]
  {
    assert ids[..n + 1] == ids[..n] + [ids[n]];
  }

  lemma FaultAt(batch: seq<nat>, k: nat, fault: Fault)
    requires k < |batch| && (fault == AtAppend(k) || fault == AtMark(k))
    ensures batch[..Finished(batch, fault)] + Orphan(batch, fault) == batch[..if fault.AtMark? then k + 1 else k]
  {
  }

  class Relay {
    var outbox: seq<Row>
    var stream: seq<Entry>

    constructor (outbox: seq<Row>, stream: seq<Entry>)
      ensures this.outbox == outbox && this.stream == stream
    {
      this.outbox, this.stream := outbox, stream;
    }

    /** The SELECT and its row loop. */
    method LoadBatch() returns (batch: seq<nat>)
      ensures batch == BatchOf(outbox)
    {
      var all := Unpublished(outbox);
      batch := [];
      while |batch| < |all| && |batch| < BATCH
        invariant |batch| <= |all| && |batch| <= BATCH && batch == all[..|batch|]
      {
        assert all[..|batch| + 1] == all[..|batch|] + [all[|batch|]];
        batch := batch + [all[|batch|]];
      }
    }

    /** The body of the publish loop: XADD, then UPDATE. */
    method PublishRow(i: nat, addFails: bool, markFails: bool)
      requires i < |outbox|
      modifies this
      ensures stream == if addFails then old(stream)
                        else old(stream) + [Entry(i, "user.created", Payload(Format(old(outbox)[i].user), old(outbox)[i].nickname))]
      ensures outbox == if addFails || markFails then old(outbox)
                        else old(outbox)[i := old(outbox)[i].(published := true)]
    {
      if !addFails {
        stream := stream + [Publish(i, outbox[i])];
        if !markFails {
          outbox := outbox[i := outbox[i].(published := true)];
        }
      }
    }

    /** The publish loop; an error ends it. */
    method PublishRows(batch: seq<nat>, fault: Fault) returns (failed: bool)
      requires forall k :: 0 <= k < |batch| ==> batch[k] < |outbox|
      modifies this
      ensures (outbox, stream) == AfterRows(old(outbox), old(stream), batch, fault)
      ensures failed <==> !fault.NoFault? && fault.k < |batch|
    {
      ghost var rows, sent := outbox, stream;
      var k := 0;
      while k < |batch|
        invariant k <= Finished(batch, fault)
        invariant outbox == Marked(rows, batch[..k])
        invariant stream == sent + Sent(rows, batch[..k])
      {
        SentOneMore(rows, batch, k);
        MarkedOneMore(rows, batch, k);
        Assoc(sent, Sent(rows, batch[..k]), [Publish(batch[k], rows[batch[k]])]);
        PublishRow(batch[k], fault == AtAppend(k), fault == AtMark(k));
        if fault == AtAppend(k) || fault == AtMark(k) {
          FaultAt(batch, k, fault);
          return true;
        }
        k := k + 1;
      }
      assert batch[..k] + Orphan(batch, fault) == batch[..k];
      return false;
    }

    /** One poll. */
    method PublishBatch(fault: Fault) returns (failed: bool)
      modifies this
      ensures (outbox, stream) == AfterPoll(old(outbox), old(stream), fault)
      ensures failed <==> !fault.NoFault? && fault.k < |BatchOf(old(outbox))|
    {
      var batch := LoadBatch();
      failed := PublishRows(batch, fault);
    }
  }

  // ---- progress

  lemma {:induction false} MarkingFirst(outbox: seq<Row>, from: nat, i: nat)
    requires from <= |outbox| && Unpublished(outbox, from) != [] && i == Unpublished(outbox, from)[0]
    ensures Unpublished(outbox[i := outbox[i].(published := true)], from) == Unpublished(outbox, from)[1..]
    decreases |outbox| - from
  {
    if outbox[from].published {
      MarkingFirst(outbox, from + 1, i);
    } else {
      MarkingHere(outbox, from);
    }
  }

  lemma MarkingHere(outbox: seq<Row>, from: nat)
    requires from < |outbox| && !outbox[from].published
    ensures Unpublished(outbox, from)[0] == from
    ensures Unpublished(outbox[from := outbox[from].(published := true)], from) == Unpublished(outbox, from)[1..]
  {
    var marked := outbox[from := outbox[from].(published := true)];
    assert marked[from + 1..] == outbox[from + 1..];
    SameAfter(outbox, marked, from + 1);
  }

  lemma {:induction false} SameAfter(a: seq<Row>, b: seq<Row>, from: nat)
    requires from <= |a| == |b| && a[from..] == b[from..]
    ensures Unpublished(a, from) == Unpublished(b, from)
    decreases |a| - from
  {
    if from < |a| {
      assert a[from] == a[from..][0] && b[from] == b[from..][0];
      assert a[from + 1..] == a[from..][1..] && b[from + 1..] == b[from..][1..];
      SameAfter(a, b, from + 1);
    }
  }

  /** Marking the first unpublished rows leaves the later ones, in order. */
  lemma {:induction false} MarkingPrefix(outbox: seq<Row>, n: nat)
    requires n <= |Unpublished(outbox)|
    ensures Unpublished(Marked(outbox, Unpublished(outbox)[..n])) == Unpublished(outbox)[n..]
    decreases n
  {
    var ids := Unpublished(outbox);
    if n == 0 {
      MarkedNone(outbox);
    } else {
      MarkingPrefix(outbox, n - 1);
      var before := Marked(outbox, ids[..n - 1]);
      TailOfDrop(ids, n - 1);
      MarkedOneMore(outbox, ids, n - 1);
      MarkingFirst(before, 0, ids[n - 1]);
    }
  }

  lemma MarkedNone(outbox: seq<Row>)
    ensures Marked(outbox, []) == outbox
  {
  }

  lemma TailOfDrop(ids: seq<nat>, n: nat)
    requires n < |ids|
    ensures ids[n..] != [] && ids[n..][0] == ids[n] && ids[n..][1..] == ids[n + 1..]
  {
  }

  function Polls(outbox: seq<Row>, stream: seq<Entry>, n: nat): (seq<Row>, seq<Entry>)
    decreases n
  {
    if n == 0 then (outbox, stream)
    else var (outbox', stream') := AfterPoll(outbox, stream, NoFault); Polls(outbox', stream', n - 1)
  }

  /** How many of `k` rows `n` polls publish. */
  function Cleared(k: nat, n: nat): nat {
    if k <= 100 * n then k else 100 * n
  }

  /** The rows and the stream after some polls published the first `m` unpublished rows. */
  ghost predicate PublishedFirst(outbox: seq<Row>, stream: seq<Entry>, m: nat, outbox': seq<Row>, stream': seq<Entry>) {
    && m <= |Unpublished(outbox)| && |outbox'| == |outbox|
    && (forall i :: 0 <= i < |outbox| ==> outbox'[i].user == outbox[i].user && outbox'[i].nickname == outbox[i].nickname)
    && Unpublished(outbox') == Unpublished(outbox)[m..]
    && stream' == stream + Sent(outbox, Unpublished(outbox)[..m])
  }

  lemma MarkedIsFirst(outbox: seq<Row>, stream: seq<Entry>, m: nat)
    requires m <= |Unpublished(outbox)|
    ensures PublishedFirst(outbox, stream, m, Marked(outbox, Unpublished(outbox)[..m]), stream + Sent(outbox, Unpublished(outbox)[..m]))
  {
    MarkingPrefix(outbox, m);
  }

  lemma OnePoll(outbox: seq<Row>, stream: seq<Entry>)
    ensures AfterPoll(outbox, stream, NoFault).0 == Marked(outbox, Unpublished(outbox)[..|BatchOf(outbox)|])
    ensures AfterPoll(outbox, stream, NoFault).1 == stream + Sent(outbox, Unpublished(outbox)[..|BatchOf(outbox)|])
  {
    var batch := BatchOf(outbox);
    assert batch[..|batch|] + Orphan(batch, NoFault) == batch == Unpublished(outbox)[..|batch|];
  }

  /** Error-free polls publish the unpublished rows in id order, exactly a hundred at a time: after `n`
      polls min(k, 100 n) of `k` rows are gone, so all of them after ceil(k / 100) polls and not
      earlier, and the stream has grown by exactly their events. */
  lemma {:induction false} PollsClear(outbox: seq<Row>, stream: seq<Entry>, n: nat)
    ensures var (outbox', stream') := Polls(outbox, stream, n);
            PublishedFirst(outbox, stream, Cleared(|Unpublished(outbox)|, n), outbox', stream')
    decreases n, 1
  {
    if n == 0 {
      assert stream == stream + Sent(outbox, Unpublished(outbox)[..0]);
    } else {
      var (outbox1, stream1) := AfterPoll(outbox, stream, NoFault);
      OnePoll(outbox, stream);
      MarkedIsFirst(outbox, stream, |BatchOf(outbox)|);
      PollsGoOn(outbox, stream, |BatchOf(outbox)|, outbox1, stream1, n);
    }
  }

  // The polls after the first, which took `m` rows.
  lemma PollsGoOn(outbox: seq<Row>, stream: seq<Entry>, m: nat, outbox1: seq<Row>, stream1: seq<Entry>, n: nat)
    requires n > 0 && m == Cleared(|Unpublished(outbox)|, 1) && PublishedFirst(outbox, stream, m, outbox1, stream1)
    ensures var (outbox', stream') := Polls(outbox1, stream1, n - 1);
            PublishedFirst(outbox, stream, Cleared(|Unpublished(outbox)|, n), outbox', stream')
    decreases n, 0
  {
    PollsClear(outbox1, stream1, n - 1);
    var (outbox2, stream2) := Polls(outbox1, stream1, n - 1);
    ClearedAdds(|Unpublished(outbox)|, n);
    PublishedInTwo(outbox, stream, m, outbox1, stream1, Cleared(|Unpublished(outbox1)|, n - 1), outbox2, stream2);
  }

  lemma PublishedInTwo(outbox: seq<Row>, stream: seq<Entry>, m: nat, outbox1: seq<Row>, stream1: seq<Entry>,
                       k: nat, outbox2: seq<Row>, stream2: seq<Entry>)
    requires PublishedFirst(outbox, stream, m, outbox1, stream1)
    requires PublishedFirst(outbox1, stream1, k, outbox2, stream2)
    ensures PublishedFirst(outbox, stream, m + k, outbox2, stream2)
  {
    PollsAdd(outbox, outbox1, stream, Unpublished(outbox), m, m + k);
  }

  lemma ClearedAdds(k: nat, n: nat)
    requires n > 0
    ensures Cleared(k, 1) <= Cleared(k, n) <= k && Cleared(k - Cleared(k, 1), n - 1) == Cleared(k, n) - Cleared(k, 1)
  {
  }

  // Two stretches of polls, the first of which took `m` rows, publish what one stretch does.
  lemma PollsAdd(a: seq<Row>, b: seq<Row>, stream: seq<Entry>, ids: seq<nat>, m: nat, total: nat)
    requires m <= total <= |ids| && |a| == |b| && forall k :: 0 <= k < |ids| ==> ids[k] < |a|
    requires forall i :: 0 <= i < |a| ==> b[i].user == a[i].user && b[i].nickname == a[i].nickname
    ensures ids[m..][total - m..] == ids[total..]
    ensures (stream + Sent(a, ids[..m])) + Sent(b, ids[m..][..total - m]) == stream + Sent(a, ids[..total])
  {
    assert ids[..total][..m] == ids[..m] && ids[..total][m..] == ids[m..][..total - m];
    SentInTwo(a, b, ids[..total], m);
    Assoc(stream, Sent(a, ids[..m]), Sent(b, ids[m..][..total - m]));
  }

  lemma SentInTwo(a: seq<Row>, b: seq<Row>, ids: seq<nat>, m: nat)
    requires m <= |ids| && |a| == |b| && forall k :: 0 <= k < |ids| ==> ids[k] < |a|
    requires forall i :: 0 <= i < |a| ==> b[i].user == a[i].user && b[i].nickname == a[i].nickname
    ensures Sent(a, ids) == Sent(a, ids[..m]) + Sent(b, ids[m..])
  {
  }

  // ---- duplicates

  // The life of one relay: signups commit rows, polls run with or without a fault.
  datatype Op = Commit(user: int, nickname: string) | Poll(fault: Fault)

  datatype Track = Track(outbox: seq<Row>, stream: seq<Entry>, orphans: seq<nat>)

  function Step(t: Track, op: Op): Track {
    match op
    case Commit(user, nickname) => t.(outbox := t.outbox + [Row(user, nickname, false)])
    case Poll(fault) =>
      var (outbox', stream') := AfterPoll(t.outbox, t.stream, fault);
      Track(outbox', stream', t.orphans + Orphan(BatchOf(t.outbox), fault))
  }

  function Life(t: Track, ops: seq<Op>): Track
    decreases |ops|
  {
    if ops == [] then t else Life(Step(t, ops[0]), ops[1..])
  }

  function Ids(stream: seq<Entry>): seq<nat> {
    seq(|stream|, k requires 0 <= k < |stream| => stream[k].outboxId)
  }

  ghost predicate BalancedAt(t: Track, i: nat) {
    multiset(Ids(t.stream))[i] == One(i < |t.outbox| && t.outbox[i].published) + multiset(t.orphans)[i]
  }

  /** A row was sent once for its mark, and once more for every poll that failed between append and
      mark of that row. */
  ghost predicate Balanced(t: Track) {
    && (forall i: nat :: BalancedAt(t, i))
    && (forall k :: 0 <= k < |t.stream| ==> t.stream[k].outboxId < |t.outbox|)
    && (forall k :: 0 <= k < |t.orphans| ==> t.orphans[k] < |t.outbox|)
  }

  lemma {:induction false} AscendingIsOnce(ids: seq<nat>, i: nat)
    requires Ascending(ids)
    ensures multiset(ids)[i] == One(i in ids)
  {
    if ids != [] {
      var rest := ids[..|ids| - 1];
      assert ids == rest + [ids[|ids| - 1]];
      AscendingIsOnce(rest, i);
    }
  }

  lemma IdsOfSent(outbox: seq<Row>, stream: seq<Entry>, ids: seq<nat>)
    requires forall k :: 0 <= k < |ids| ==> ids[k] < |outbox|
    ensures Ids(stream + Sent(outbox, ids)) == Ids(stream) + ids
  {
  }

  lemma PollIds(t: Track, fault: Fault)
    ensures var batch := BatchOf(t.outbox);
            var done, orphan := batch[..Finished(batch, fault)], Orphan(batch, fault);
            var t' := Step(t, Poll(fault));
            && Ids(t'.stream) == Ids(t.stream) + (done + orphan)
            && multiset(Ids(t'.stream)) == multiset(Ids(t.stream)) + multiset(done) + multiset(orphan)
            && multiset(t'.orphans) == multiset(t.orphans) + multiset(orphan)
            && t'.outbox == Marked(t.outbox, done)
  {
    var batch := BatchOf(t.outbox);
    IdsOfSent(t.outbox, t.stream, batch[..Finished(batch, fault)] + Orphan(batch, fault));
  }

  lemma PollKeepsBalanceAt(t: Track, fault: Fault, i: nat)
    requires BalancedAt(t, i)
    ensures BalancedAt(Step(t, Poll(fault)), i)
  {
    var done := BatchOf(t.outbox)[..Finished(BatchOf(t.outbox), fault)];
    PollIds(t, fault);
    UnpublishedIsAscending(t.outbox, 0);
    AscendingIsOnce(done, i);
    assert i in done ==> !t.outbox[i].published;
  }

  lemma PollKeepsBalance(t: Track, fault: Fault)
    requires Balanced(t)
    ensures Balanced(Step(t, Poll(fault)))
  {
    forall i: nat ensures BalancedAt(Step(t, Poll(fault)), i) {
      PollKeepsBalanceAt(t, fault, i);
    }
    PollInRange(t, fault);
  }

  lemma PollInRange(t: Track, fault: Fault)
    requires forall k :: 0 <= k < |t.stream| ==> t.stream[k].outboxId < |t.outbox|
    requires forall k :: 0 <= k < |t.orphans| ==> t.orphans[k] < |t.outbox|
    ensures var t' := Step(t, Poll(fault));
            && (forall k :: 0 <= k < |t'.stream| ==> t'.stream[k].outboxId < |t'.outbox|)
            && (forall k :: 0 <= k < |t'.orphans| ==> t'.orphans[k] < |t'.outbox|)
  {
  }

  lemma {:induction false} LifeIsBalanced(t: Track, ops: seq<Op>)
    requires Balanced(t)
    ensures Balanced(Life(t, ops))
    decreases |ops|
  {
    if ops != [] {
      if ops[0].Poll? {
        PollKeepsBalance(t, ops[0].fault);
      } else {
        forall i: nat ensures BalancedAt(Step(t, ops[0]), i) {
          assert BalancedAt(t, i);
        }
      }
      LifeIsBalanced(Step(t, ops[0]), ops[1..]);
    }
  }

  /** Over the whole life of a single relay, a row is sent once plus once for each of its orphans:
      at least once when published, and more than once only through failed marks. */
  lemma EntriesPerRow(ops: seq<Op>, i: nat)
    ensures var t := Life(Track([], [], []), ops);
            multiset(Ids(t.stream))[i] == One(i < |t.outbox| && t.outbox[i].published) + multiset(t.orphans)[i]
  {
    LifeIsBalanced(Track([], [], []), ops);
    assert BalancedAt(Life(Track([], [], []), ops), i);
  }

  // ---- a poll is one of the interleavings of the system

  function PublishSteps(r: nat, batch: seq<nat>): seq<Pipeline.Event> {
    if batch == [] then [] else [Pipeline.Append(r, true), Pipeline.Mark(r, true)] + PublishSteps(r, batch[1..])
  }

  // One row of the batch: Append, then Mark.
  lemma RowSteps(s: Pipeline.System, r: nat, batch: seq<nat>)
    requires r in s.relays && s.relays[r] == Pipeline.Relay(batch, false) && batch != [] && batch[0] < |s.outbox|
    ensures var s2 := Pipeline.Apply(Pipeline.Apply(s, Pipeline.Append(r, true)), Pipeline.Mark(r, true));
            && r in s2.relays && s2.relays[r] == Pipeline.Relay(batch[1..], false)
            && s2.outbox == s.outbox[batch[0] := s.outbox[batch[0]].(published := true)]
            && s2.stream == s.stream + [Publish(batch[0], s.outbox[batch[0]])]
  {
  }

  lemma MarkedInTwo(outbox: seq<Row>, ids: seq<nat>)
    requires ids != [] && forall k :: 0 <= k < |ids| ==> ids[k] < |outbox|
    ensures Marked(outbox[ids[0] := outbox[ids[0]].(published := true)], ids[1..]) == Marked(outbox, ids)
  {
    assert ids == [ids[0]] + ids[1..];
  }

  lemma ExecTwo(s: Pipeline.System, a: Pipeline.Event, b: Pipeline.Event, rest: seq<Pipeline.Event>)
    ensures Pipeline.Exec(s, [a, b] + rest) == Pipeline.Exec(Pipeline.Apply(Pipeline.Apply(s, a), b), rest)
  {
    var es := [a, b] + rest;
    assert es[1..][1..] == rest && es[1..][0] == b;
  }

  // The rows of a batch after the first, which took the system from `s` to `s2`.
  lemma PublishFrom(s: Pipeline.System, s2: Pipeline.System, r: nat, batch: seq<nat>)
    requires batch != [] && forall k :: 0 <= k < |batch| ==> batch[k] < |s.outbox|
    requires r in s2.relays && s2.relays[r] == Pipeline.Relay(batch[1..], false)
    requires s2.outbox == s.outbox[batch[0] := s.outbox[batch[0]].(published := true)]
    requires s2.stream == s.stream + [Publish(batch[0], s.outbox[batch[0]])]
    ensures var s' := Pipeline.Exec(s2, PublishSteps(r, batch[1..]));
            s'.outbox == Marked(s.outbox, batch) && s'.stream == s.stream + Sent(s.outbox, batch)
    decreases |batch|, 0
  {
    PublishStepsRun(s2, r, batch[1..]);
    SentInTwo(s.outbox, s2.outbox, batch, 1);
    MarkedInTwo(s.outbox, batch);
    assert Sent(s.outbox, batch[..1]) == [Publish(batch[0], s.outbox[batch[0]])];
    Assoc(s.stream, Sent(s.outbox, batch[..1]), Sent(s2.outbox, batch[1..]));
  }

  lemma {:induction false} PublishStepsRun(s: Pipeline.System, r: nat, batch: seq<nat>)
    requires r in s.relays && s.relays[r] == Pipeline.Relay(batch, false)
    requires forall k :: 0 <= k < |batch| ==> batch[k] < |s.outbox|
    ensures var s' := Pipeline.Exec(s, PublishSteps(r, batch));
            s'.outbox == Marked(s.outbox, batch) && s'.stream == s.stream + Sent(s.outbox, batch)
    decreases |batch|, 1
  {
    if batch == [] {
      assert s.stream + Sent(s.outbox, batch) == s.stream;
      assert Marked(s.outbox, batch) == s.outbox;
    } else {
      RowSteps(s, r, batch);
      ExecTwo(s, Pipeline.Append(r, true), Pipeline.Mark(r, true), PublishSteps(r, batch[1..]));
      PublishFrom(s, Pipeline.Apply(Pipeline.Apply(s, Pipeline.Append(r, true)), Pipeline.Mark(r, true)), r, batch);
    }
  }

  /** A poll that nothing interrupts is the run Poll, (Append, Mark)* of the system. */
  lemma PollIsARun(s: Pipeline.System, r: nat)
    requires r !in s.relays
    ensures var s' := Pipeline.Exec(s, [Pipeline.Event.Poll(r)] + PublishSteps(r, BatchOf(s.outbox)));
            (s'.outbox, s'.stream) == AfterPoll(s.outbox, s.stream, NoFault)
  {
    var batch := BatchOf(s.outbox);
    var es := [Pipeline.Event.Poll(r)] + PublishSteps(r, batch);
    assert es[1..] == PublishSteps(r, batch);
    PublishStepsRun(Pipeline.Apply(s, es[0]), r, batch);
    assert batch[..|batch|] + Orphan(batch, NoFault) == batch == batch[..|batch|];
  }
}
