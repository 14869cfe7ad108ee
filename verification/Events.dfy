/** The `user.created` event on its way from the identity database to the board's read model. */
module Events {
  import opened Decimal

  // A row of the outbox table, in id order; a row is named by its position.
  datatype Row = Row(user: int, nickname: string, published: bool)

  // The payload column, and what json.Unmarshal makes of it.
  datatype Payload = Payload(userId: string, nickname: string) | Malformed

  // An entry of the stream events:user; an entry is named by its position.
  datatype Entry = Entry(outboxId: nat, eventType: string, payload: Payload)

  const USER_CREATED := "user.created"
  const BATCH: nat := 100  // rows per relay poll
  const COUNT: nat := 10   // entries per XREADGROUP

  /** What XADD sends for a row. */
  function Publish(i: nat, row: Row): Entry {
    Entry(i, USER_CREATED, Payload(Format(row.user), row.nickname))
  }

  // What the consumer does with an entry.
  datatype Effect = Upsert(userId: string, nickname: string) | Skip | Reject

  /** handle and upsertAuthor, up to the database call. */
  function Handling(e: Entry): Effect {
    if e.eventType != USER_CREATED then Skip
    else match e.payload
      case Malformed => Reject
      case Payload(userId, nickname) =>
        if userId == "" || nickname == "" then Reject else Upsert(userId, nickname)
  }

  type Authors = map<string, string>

  /** INSERT ... ON DUPLICATE KEY UPDATE. */
  function Upserted(authors: Authors, e: Entry): Authors {
    match Handling(e)
    case Upsert(userId, nickname) => authors[userId := nickname]
    case _ => authors
  }

  /** SELECT id ... WHERE published_at IS NULL ORDER BY id, from position `from` on. */
  function Unpublished(outbox: seq<Row>, from: nat := 0): (ids: seq<nat>)
    requires from <= |outbox|
    ensures forall k :: 0 <= k < |ids| ==> from <= ids[k] < |outbox| && !outbox[ids[k]].published
    decreases |outbox| - from
  {
    if from == |outbox| then []
    else (if outbox[from].published then [] else [from]) + Unpublished(outbox, from + 1)
  }

  predicate Ascending(ids: seq<nat>) {
    forall j, k :: 0 <= j < k < |ids| ==> ids[j] < ids[k]
  }

  lemma AscendingJoin(a: seq<nat>, b: seq<nat>)
    requires Ascending(a) && Ascending(b) && forall j, k :: 0 <= j < |a| && 0 <= k < |b| ==> a[j] < b[k]
    ensures Ascending(a + b)
  {
  }

  lemma {:induction false} UnpublishedIsAscending(outbox: seq<Row>, from: nat)
    requires from <= |outbox|
    ensures Ascending(Unpublished(outbox, from))
    decreases |outbox| - from
  {
    if from < |outbox| {
      UnpublishedIsAscending(outbox, from + 1);
      AscendingJoin([from], Unpublished(outbox, from + 1));
    }
  }

  /** It misses no unpublished row. */
  lemma {:induction false} UnpublishedIsComplete(outbox: seq<Row>, from: nat, i: nat)
    requires from <= i < |outbox|
    ensures i in Unpublished(outbox, from) <==> !outbox[i].published
    decreases |outbox| - from
  {
    if from < i {
      UnpublishedIsComplete(outbox, from + 1, i);
    } else {
      assert from < |outbox|;
    }
  }

  function Take<T>(s: seq<T>, n: nat): seq<T> {
    if |s| <= n then s else s[..n]
  }

  lemma PublishedRowIsUpsert(i: nat, row: Row)
    requires row.nickname != ""
    ensures Handling(Publish(i, row)) == Upsert(Format(row.user), row.nickname)
  {
    DigitsAreRead(if row.user < 0 then -row.user else row.user);
  }

  /** The pending entries of one consumer name among the first `upto`, in stream order. */
  function Pending(pending: map<nat, string>, name: string, upto: nat): (es: seq<nat>)
    ensures forall k :: 0 <= k < |es| ==> es[k] < upto && es[k] in pending && pending[es[k]] == name
  {
    if upto == 0 then []
    else Pending(pending, name, upto - 1) + (if upto - 1 in pending && pending[upto - 1] == name then [upto - 1] else [])
  }

  lemma {:induction false} PendingIsAscending(pending: map<nat, string>, name: string, upto: nat)
    ensures Ascending(Pending(pending, name, upto))
  {
    if upto > 0 {
      PendingIsAscending(pending, name, upto - 1);
      AscendingJoin(Pending(pending, name, upto - 1), [upto - 1]);
    }
  }

  /** It misses no pending entry of that name. */
  lemma {:induction false} PendingIsComplete(pending: map<nat, string>, name: string, upto: nat, e: nat)
    ensures e in Pending(pending, name, upto) <==> e < upto && e in pending && pending[e] == name
  {
    if upto > 0 {
      PendingIsComplete(pending, name, upto - 1, e);
    }
  }

  /** Up to ten entries that the group has not delivered yet. */
  function Undelivered(delivered: nat, length: nat): (es: seq<nat>)
    requires delivered <= length
    ensures forall k :: 0 <= k < |es| ==> es[k] == delivered + k
    ensures |es| == (if length - delivered <= COUNT then length - delivered else COUNT)
  {
    seq(if length - delivered <= COUNT then length - delivered else COUNT, k requires 0 <= k => delivered + k)
  }
}
