/** Posts and their keyset pagination (services/board/internal/usecase/board.go,
    services/board/internal/repo/mysql/post_repo.go). */
module Board {
  import opened Collections
  import opened Decimal
  import opened Events

  const DEFAULT_PAGE: nat := 20
  const MAX_PAGE: nat := 100
  const MAX_TITLE: nat := 200     // bytes, as the lengths below
  const MAX_CONTENT: nat := 20_000

  datatype Post = Post(id: int, author: string, title: string, content: string)

  // A post as it is read: with the nickname of its author, empty while the read model has none.
  datatype Listed = Listed(post: Post, nickname: string)

  datatype Result<+T> = Ok(value: T) | InvalidPost | NotFound | Failed

  /** posts LEFT JOIN authors: user_id is the key of authors, so every post is one row. */
  function Joined(p: Post, authors: Authors): Listed {
    Listed(p, if p.author in authors then authors[p.author] else "")
  }

  /** The table in insertion order: ids are positive and grow. */
  predicate Growing(posts: seq<Post>) {
    && (forall i :: 0 <= i < |posts| ==> 0 < posts[i].id <= MAX_INT64)
    && (forall i, j :: 0 <= i < j < |posts| ==> posts[i].id < posts[j].id)
  }

  /** WHERE id < after ORDER BY id DESC, of a growing table. */
  function Newest(posts: seq<Post>, after: int): seq<Post> {
    if posts == [] then []
    else
      var last := posts[|posts| - 1];
      (if last.id < after then [last] else []) + Newest(posts[..|posts| - 1], after)
  }

  function JoinedAll(posts: seq<Post>, authors: Authors): (rows: seq<Listed>)
    ensures |rows| == |posts| && forall i :: 0 <= i < |posts| ==> rows[i] == Joined(posts[i], authors)
  {
    seq(|posts|, i requires 0 <= i < |posts| => Joined(posts[i], authors))
  }

  /** A cursor of 0 starts before the newest post. */
  function Cursor(after: int): int {
    if after == 0 then MAX_INT64 else after
  }

  function Clamp(pageSize: int): (size: nat)
    ensures 1 <= size <= MAX_PAGE
    ensures 1 <= pageSize <= MAX_PAGE ==> size == pageSize
  {
    if pageSize <= 0 then DEFAULT_PAGE else if pageSize > MAX_PAGE then MAX_PAGE else pageSize
  }

  lemma JoinedMore(posts: seq<Post>, p: Post, authors: Authors)
    ensures JoinedAll(posts + [p], authors) == JoinedAll(posts, authors) + [Joined(p, authors)]
  {
  }

  lemma TakenIsFirst(taken: seq<Post>, rest: seq<Post>, limit: nat)
    requires |taken| == limit || (|taken| < limit && rest == [])
    ensures taken == Take(taken + rest, limit)
  {
  }

  /** Scanning one row further down the table. */
  lemma NewestStep(posts: seq<Post>, i: nat, after: int)
    requires 0 < i <= |posts|
    ensures Newest(posts[..i], after)
         == (if posts[i - 1].id < after then [posts[i - 1]] else []) + Newest(posts[..i - 1], after)
  {
    assert posts[..i][..i - 1] == posts[..i - 1];
  }

  /** Each row carries the nickname that the read model has for its author, or none. */
  predicate NamesAre(rows: seq<Listed>, authors: Authors) {
    forall k :: 0 <= k < |rows| ==>
      rows[k].nickname == if rows[k].post.author in authors then authors[rows[k].post.author] else ""
  }

  /** The rows are the newest posts below a cursor, newest first, `limit` of them or all there are. */
  predicate IsNewest(rows: seq<Listed>, posts: seq<Post>, below: int, limit: nat) {
    && |rows| <= limit
    && (forall j, k :: 0 <= j < k < |rows| ==> rows[j].post.id > rows[k].post.id)
    && (forall k :: 0 <= k < |rows| ==> rows[k].post in posts && rows[k].post.id < below)
    && (forall p :: p in posts && p.id < below ==>
          (exists k :: 0 <= k < |rows| && rows[k].post == p)
          || (|rows| == limit && forall k :: 0 <= k < |rows| ==> rows[k].post.id > p.id))
  }

  lemma FirstAreNewest(rows: seq<Listed>, posts: seq<Post>, authors: Authors, below: int, limit: nat)
    requires Growing(posts) && rows == JoinedAll(Take(Newest(posts, below), limit), authors)
    ensures NamesAre(rows, authors) && IsNewest(rows, posts, below, limit)
  {
    var all := Newest(posts, below);
    forall k | 0 <= k < |rows|
      ensures rows[k] == Joined(all[k], authors) && rows[k].post in posts && rows[k].post.id < below
    {
      NewestMember(posts, below, k);
    }
    forall j, k | 0 <= j < k < |rows| ensures rows[j].post.id > rows[k].post.id {
      NewestIsDescending(posts, below);
    }
    forall p | p in posts && p.id < below
      ensures (exists k :: 0 <= k < |rows| && rows[k].post == p)
              || (|rows| == limit && forall k :: 0 <= k < |rows| ==> rows[k].post.id > p.id)
    {
      NewestIsDescending(posts, below);
      InFirstOrBelow(rows, all, p, limit);
    }
  }

  lemma InFirstOrBelow(rows: seq<Listed>, all: seq<Post>, p: Post, limit: nat)
    requires p in all && |rows| == (if |all| <= limit then |all| else limit)
    requires forall k :: 0 <= k < |rows| ==> rows[k].post == all[k]
    requires forall i, j :: 0 <= i < j < |all| ==> all[i].id > all[j].id
    ensures (exists k :: 0 <= k < |rows| && rows[k].post == p)
            || (|rows| == limit && forall k :: 0 <= k < |rows| ==> rows[k].post.id > p.id)
  {
    var i :| 0 <= i < |all| && all[i] == p;
    if i < |rows| {
      assert rows[i].post == p;
    }
  }

  class PostRepo {
    var posts: seq<Post>
    var authors: Authors
    var nextId: int                 // AUTO_INCREMENT

    predicate Valid()
      reads this
    {
      Growing(posts) && 0 < nextId && forall i :: 0 <= i < |posts| ==> posts[i].id < nextId
    }

    constructor ()
      ensures Valid() && posts == [] && authors == map[]
    {
      posts, authors, nextId := [], map[], 1;
    }

    /** INSERT, then read the row back. */
    method Create(author: string, title: string, content: string) returns (r: Result<Listed>)
      requires Valid()
      modifies this
      ensures Valid() && authors == old(authors)
      ensures old(nextId) > MAX_INT64 ==> r == Failed && posts == old(posts)
      ensures old(nextId) <= MAX_INT64 ==>
                var p := Post(old(nextId), author, title, content);
                && posts == old(posts) + [p] && nextId == old(nextId) + 1
                && r == Ok(Listed(p, if author in authors then authors[author] else ""))
    {
      if nextId > MAX_INT64 {
        return Failed;
      }
      var id := nextId;
      posts := posts + [Post(id, author, title, content)];
      nextId := nextId + 1;
      assert posts[|posts| - 1].id == id;
      r := FindByID(id);
    }

    method FindByID(id: int) returns (r: Result<Listed>)
      requires Valid()
      ensures r == NotFound <==> forall i :: 0 <= i < |posts| ==> posts[i].id != id
      ensures r != NotFound ==> exists i :: 0 <= i < |posts| && posts[i].id == id
                                     && r == Ok(Listed(posts[i], if posts[i].author in authors then authors[posts[i].author] else ""))
    {
      var i := |posts|;
      while i > 0
        invariant 0 <= i <= |posts|
        invariant forall j :: i <= j < |posts| ==> posts[j].id != id
      {
        i := i - 1;
        if posts[i].id == id {
          return Ok(Joined(posts[i], authors));
        }
      }
      return NotFound;
    }

    method List(after: int, limit: nat) returns (rows: seq<Listed>)
      requires Valid()
      ensures rows == JoinedAll(Take(Newest(posts, Cursor(after)), limit), authors)
      ensures NamesAre(rows, authors)
      ensures IsNewest(rows, posts, if after == 0 then 0x7fff_ffff_ffff_ffff else after, limit)
    {
      var below := if after == 0 then MAX_INT64 else after;
      rows := [];
      var i := |posts|;
      ghost var taken: seq<Post> := [];
      assert posts[..i] == posts;
      while i > 0 && |rows| < limit
        invariant 0 <= i <= |posts|
        invariant |rows| == |taken| <= limit && rows == JoinedAll(taken, authors)
        invariant taken + Newest(posts[..i], below) == Newest(posts, below)
      {
        NewestStep(posts, i, below);
        i := i - 1;
        if posts[i].id < below {
          Assoc(taken, [posts[i]], Newest(posts[..i], below));
          JoinedMore(taken, posts[i], authors);
          rows, taken := rows + [Joined(posts[i], authors)], taken + [posts[i]];
        }
      }
      TakenIsFirst(taken, Newest(posts[..i], below), limit);
      FirstAreNewest(rows, posts, authors, below, limit);
    }

    // ---- usecase.Board

    method CreatePost(author: string, title: string, content: string) returns (r: Result<Listed>)
      requires Valid()
      modifies this
      ensures Valid() && authors == old(authors)
      ensures r == InvalidPost <==> author == "" || title == "" || content == "" || |title| > 200 || |content| > 20_000
      ensures r == Failed <==> r != InvalidPost && old(nextId) > 0x7fff_ffff_ffff_ffff
      ensures !r.Ok? ==> posts == old(posts)
      ensures r.Ok? ==>
                && posts == old(posts) + [Post(old(nextId), author, title, content)] && r.value.post == posts[|posts| - 1]
                && r.value.nickname == if author in authors then authors[author] else ""
      ensures r != NotFound
    {
      if author == "" || title == "" || content == "" {
        return InvalidPost;
      }
      if |title| > MAX_TITLE || |content| > MAX_CONTENT {
        return InvalidPost;
      }
      r := Create(author, title, content);
    }

    /** A page, and the cursor of the next one; 0 says there is none. */
    method ListPosts(after: int, pageSize: int) returns (rows: seq<Listed>, next: int)
      requires Valid()
      ensures rows == JoinedAll(PageOf(posts, after, pageSize).0, authors)
      ensures next == PageOf(posts, after, pageSize).1
      ensures NamesAre(rows, authors)
      ensures var size := if pageSize <= 0 then 20 else if pageSize > 100 then 100 else pageSize;
              && IsNewest(rows, posts, if after == 0 then 0x7fff_ffff_ffff_ffff else after, size)
              && next == if |rows| == size then rows[size - 1].post.id else 0
    {
      var size := pageSize;
      if size <= 0 {
        size := DEFAULT_PAGE;
      }
      if size > MAX_PAGE {
        size := MAX_PAGE;
      }
      rows := List(after, size);
      next := 0;
      if |rows| == size {
        next := rows[|rows| - 1].post.id;
      }
    }
  }

  function PageOf(posts: seq<Post>, after: int, pageSize: int): (seq<Post>, int) {
    var size := Clamp(pageSize);
    var page := Take(Newest(posts, Cursor(after)), size);
    (page, if |page| == size then page[size - 1].id else 0)
  }

  // ---- the walk

  // One turn of a reader: the size it asks for, and what is inserted before its next turn.
  datatype Turn = Turn(pageSize: int, inserted: seq<Post>)

  /** Follow `next` from `after`: the pages one after the other, and whether the end was reached. */
  function Walk(posts: seq<Post>, after: int, turns: seq<Turn>): (seq<Post>, bool)
    decreases turns
  {
    if turns == [] then ([], false)
    else
      var (page, next) := PageOf(posts, after, turns[0].pageSize);
      if next == 0 then (page, true)
      else
        var (rest, done) := Walk(posts + turns[0].inserted, next, turns[1..]);
        (page + rest, done)
  }

  function AllInserted(turns: seq<Turn>): seq<Post>
    decreases turns
  {
    if turns == [] then [] else turns[0].inserted + AllInserted(turns[1..])
  }

  /** Newest, seen from the other side: exactly the posts below the cursor, newest first. */
  lemma {:induction false} NewestIsDescending(posts: seq<Post>, after: int)
    requires Growing(posts)
    ensures var all := Newest(posts, after);
            && (forall i, j :: 0 <= i < j < |all| ==> all[i].id > all[j].id)
            && (forall p :: p in all <==> p in posts && p.id < after)
  {
    if posts != [] {
      var init, last := posts[..|posts| - 1], posts[|posts| - 1];
      assert posts == init + [last];
      NewestIsDescending(init, after);
      var rest := Newest(init, after);
      forall i | 0 <= i < |rest| ensures rest[i].id < last.id {
        assert rest[i] in init;
      }
    }
  }

  lemma {:induction false} NewestBelowAll(posts: seq<Post>, after: int)
    requires Growing(posts) && forall i :: 0 <= i < |posts| ==> posts[i].id >= after
    ensures Newest(posts, after) == []
  {
    if posts != [] {
      NewestBelowAll(posts[..|posts| - 1], after);
    }
  }

  /** What is inserted above the cursor is not seen. */
  lemma {:induction false} NewestIgnoresLater(posts: seq<Post>, later: seq<Post>, after: int)
    requires forall i :: 0 <= i < |later| ==> later[i].id >= after
    ensures Newest(posts + later, after) == Newest(posts, after)
  {
    if later == [] {
      assert posts + later == posts;
    } else {
      var all := posts + later;
      assert all[..|all| - 1] == posts + later[..|later| - 1];
      NewestIgnoresLater(posts, later[..|later| - 1], after);
    }
  }

  lemma NewestHead(posts: seq<Post>, after: int)
    requires Growing(posts) && posts != [] && posts[|posts| - 1].id < after
    ensures Newest(posts, posts[|posts| - 1].id) == Newest(posts[..|posts| - 1], after)
  {
    NewestAll(posts[..|posts| - 1], after, posts[|posts| - 1].id);
  }

  lemma NewestSkip(posts: seq<Post>, after: int)
    requires posts != [] && posts[|posts| - 1].id >= after
    ensures Newest(posts, after) == Newest(posts[..|posts| - 1], after)
  {
  }

  lemma TailOfCons<T>(x: T, rest: seq<T>, k: nat)
    requires 0 < k <= |rest|
    ensures ([x] + rest)[k] == rest[k - 1] && ([x] + rest)[k + 1..] == rest[k..]
  {
  }

  /** The rest of the list begins below its k-th post. */
  lemma {:induction false} NewestBelow(posts: seq<Post>, after: int, k: nat)
    requires Growing(posts) && k < |Newest(posts, after)|
    ensures Newest(posts, Newest(posts, after)[k].id) == Newest(posts, after)[k + 1..]
    decreases |posts|, 1
  {
    if posts[|posts| - 1].id >= after {
      NewestSkip(posts, after);
      NewestMember(posts[..|posts| - 1], after, k);
      NewestBelow(posts[..|posts| - 1], after, k);
      NewestSkip(posts, Newest(posts, after)[k].id);
    } else if k == 0 {
      NewestHead(posts, after);
    } else {
      NewestBelowLast(posts, after, k);
    }
  }

  lemma {:induction false} NewestBelowLast(posts: seq<Post>, after: int, k: nat)
    requires Growing(posts) && 0 < k < |Newest(posts, after)| && posts[|posts| - 1].id < after
    ensures Newest(posts, Newest(posts, after)[k].id) == Newest(posts, after)[k + 1..]
    decreases |posts|, 0
  {
    var init, last := posts[..|posts| - 1], posts[|posts| - 1];
    TailOfCons(last, Newest(init, after), k);
    NewestMember(init, after, k - 1);
    NewestBelow(init, after, k - 1);
    NewestSkip(posts, Newest(posts, after)[k].id);
  }

  lemma NewestMember(posts: seq<Post>, after: int, k: nat)
    requires Growing(posts) && k < |Newest(posts, after)|
    ensures Newest(posts, after)[k] in posts && Newest(posts, after)[k].id < after
  {
    NewestIsDescending(posts, after);
    assert Newest(posts, after)[k] in Newest(posts, after);
  }

  lemma {:induction false} NewestAll(posts: seq<Post>, a: int, b: int)
    requires forall i :: 0 <= i < |posts| ==> posts[i].id < a && posts[i].id < b
    ensures Newest(posts, a) == Newest(posts, b)
  {
    if posts != [] {
      NewestAll(posts[..|posts| - 1], a, b);
    }
  }

  lemma PageIsPrefix(posts: seq<Post>, after: int, pageSize: int)
    requires Growing(posts)
    ensures var (page, next) := PageOf(posts, after, pageSize);
            if next == 0 then page == Newest(posts, Cursor(after))
            else page != [] && page + Newest(posts, next) == Newest(posts, Cursor(after)) && 0 < next == Cursor(next) < Cursor(after)
  {
    var (page, next) := PageOf(posts, after, pageSize);
    var all := Newest(posts, Cursor(after));
    if |page| == Clamp(pageSize) {
      assert page == all[..|page|];
      NewestMember(posts, Cursor(after), |page| - 1);
      NewestBelow(posts, Cursor(after), |page| - 1);
    } else {
      assert page == all;
    }
  }

  /** `seen` is a prefix of the list as it was, all of it if the walk is done, and it is done if it had
      more turns than there are posts. */
  predicate Follows(seen: seq<Post>, done: bool, turns: nat, all: seq<Post>) {
    seen <= all && (done ==> seen == all) && (turns > |all| ==> done)
  }

  lemma FollowsOn(page: seq<Post>, seen: seq<Post>, done: bool, turns: nat, rest: seq<Post>)
    requires page != [] && turns > 0 && Follows(seen, done, turns - 1, rest)
    ensures Follows(page + seen, done, turns, page + rest)
  {
  }

  /** Whatever is inserted and whatever sizes are asked for, a walk sees the list as it was at its
      first read. */
  lemma {:induction false} WalkIsSnapshot(posts: seq<Post>, after: int, turns: seq<Turn>)
    requires Growing(posts + AllInserted(turns))
    ensures Follows(Walk(posts, after, turns).0, Walk(posts, after, turns).1, |turns|, Newest(posts, Cursor(after)))
    decreases turns
  {
    if turns != [] {
      GrowingParts(posts, turns);
      PageIsPrefix(posts, after, turns[0].pageSize);
      var (page, next) := PageOf(posts, after, turns[0].pageSize);
      if next != 0 {
        var later := turns[0].inserted;
        WalkIsSnapshot(posts + later, next, turns[1..]);
        LaterIsAbove(posts, later, after, turns[0].pageSize);
        NewestIgnoresLater(posts, later, next);
        var (seen, done) := Walk(posts + later, next, turns[1..]);
        FollowsOn(page, seen, done, |turns|, Newest(posts, next));
      }
    }
  }

  lemma GrowingParts(posts: seq<Post>, turns: seq<Turn>)
    requires turns != [] && Growing(posts + AllInserted(turns))
    ensures Growing(posts) && Growing(posts + turns[0].inserted)
    ensures Growing((posts + turns[0].inserted) + AllInserted(turns[1..]))
  {
    var later, rest := turns[0].inserted, AllInserted(turns[1..]);
    Assoc(posts, later, rest);
    GrowingPrefix(posts + later, rest);
    GrowingPrefix(posts, later);
  }

  lemma GrowingPrefix(a: seq<Post>, b: seq<Post>)
    requires Growing(a + b)
    ensures Growing(a)
  {
    assert forall i :: 0 <= i < |a| ==> (a + b)[i] == a[i];
  }

  lemma LaterIsAbove(posts: seq<Post>, later: seq<Post>, after: int, pageSize: int)
    requires Growing(posts + later) && PageOf(posts, after, pageSize).1 != 0
    ensures forall i :: 0 <= i < |later| ==> later[i].id >= PageOf(posts, after, pageSize).1
  {
    GrowingPrefix(posts, later);
    var all := Newest(posts, Cursor(after));
    var page := PageOf(posts, after, pageSize).0;
    NewestIsDescending(posts, Cursor(after));
    var last := all[|page| - 1];
    assert last in all;
    var k :| 0 <= k < |posts| && posts[k] == last;
    forall i | 0 <= i < |later| ensures later[i].id > last.id {
      assert (posts + later)[k] == last && (posts + later)[|posts| + i] == later[i];
    }
  }

  /** From the newest post on, a finished walk is every post there was at the first read, newest
      first, exactly when none of them has the largest id of all. */
  lemma FullWalkIsEveryPost(posts: seq<Post>, turns: seq<Turn>)
    requires Growing(posts + AllInserted(turns)) && Walk(posts, 0, turns).1
    ensures var seen := Walk(posts, 0, turns).0;
            && (forall i, j :: 0 <= i < j < |seen| ==> seen[i].id > seen[j].id)
            && ((forall p :: p in seen <==> p in posts) <==> forall p :: p in posts ==> p.id != MAX_INT64)
  {
    GrowingPrefix(posts, AllInserted(turns));
    WalkIsSnapshot(posts, 0, turns);
    NewestIsDescending(posts, MAX_INT64);
  }
}
