/** What a reader of the board sees of a signup, once the event has arrived. */
module BoardReads {
  import opened Decimal
  import Board
  import Pipeline
  import PipelineProofs

  /** With nothing unpublished, undelivered or pending, every listed post of a signed-up user shows the
      nickname of the signup, and a post of nobody who signed up shows none. */
  method ListShowsNicknames(repo: Board.PostRepo, es: seq<Pipeline.Event>, after: int, limit: nat) returns (rows: seq<Board.Listed>)
    requires repo.Valid()
    requires var s := Pipeline.Exec(Pipeline.Init, es); repo.authors == s.authors && PipelineProofs.Quiescent(s)
    ensures var s := Pipeline.Exec(Pipeline.Init, es);
            forall k :: 0 <= k < |rows| ==>
              && (forall u :: u in s.users && rows[k].post.author == Format(u) ==> rows[k].nickname == s.users[u])
              && ((forall u :: u in s.users ==> rows[k].post.author != Format(u)) ==> rows[k].nickname == "")
  {
    PipelineProofs.ReadModelConverges(es);
    rows := repo.List(after, limit);
    ghost var s := Pipeline.Exec(Pipeline.Init, es);
    forall k, u | 0 <= k < |rows| && u in s.users && rows[k].post.author == Format(u) ensures rows[k].nickname == s.users[u] {
      assert PipelineProofs.Arrived(s, u);
    }
  }
}
