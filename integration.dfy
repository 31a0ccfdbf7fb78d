/**
 * How the game's `handleSaveScore` meets the server's `POST /api/scores`:
 * the client sends `{ name, score, time }` as JSON with no `Authorization`
 * header, so every submission from the game is a guest submission.
 */
module Integration {
  import opened Wrappers
  import opened Tables
  import opened Api
  import MemoryGame

  /** The JSON body the client builds from a post: every field present. */
  function PostBody(p: MemoryGame.ScorePost): (body: ScoreBody)
    ensures body.name.Some? && body.score.Some? && body.time.Some?
  {
    ScoreBody(Some(p.name), Some(p.score), Some(p.time))
  }

  /**
   * A post the client sends (its name is not empty) is credited to that
   * name as a guest, whatever the users table holds and whether or not a
   * user lookup would fail.
   */
  lemma ClientPostIsGuestSubmission(users: seq<User>, verify: string -> Option<int>,
                                    p: MemoryGame.ScorePost, lookupFails: bool)
    requires p.name != ""
    ensures Identify(users, None, verify, PostBody(p).name, lookupFails) == Success(Author(p.name, None))
  {
  }

  /**
   * The client's guard and the server's agree on names: the server answers
   * a header-less body with 400 for a missing name exactly when the name is
   * empty, the case `handleSaveScore` never sends.
   */
  lemma NameGuardsAgree(users: seq<User>, verify: string -> Option<int>, name: string, lookupFails: bool)
    ensures Identify(users, None, verify, Some(name), lookupFails) == Failure(MissingName) <==> name == ""
  {
  }

  /**
   * Two clicks on the save button before the first reply arrives: both pass
   * the client's guard, both posts carry the same score, and the server,
   * which has no notion of a game, stores it twice.
   */
  method SaveClickedTwiceBeforeReply(game: MemoryGame.Game, db: Database, verify: string -> Option<int>)
    returns (first: Option<MemoryGame.ScorePost>, second: Option<MemoryGame.ScorePost>)
    requires game.Valid() && db.Valid() && game.playerName != "" && !game.scoreSaved
    modifies game, db
    ensures first.Some? && second == first
    ensures |db.scores| == |old(db.scores)| + 2
    ensures var n := |old(db.scores)|;
      && db.scores[n].playerName == db.scores[n + 1].playerName == first.value.name
      && db.scores[n].score == db.scores[n + 1].score == first.value.score
      && db.scores[n].time == db.scores[n + 1].time == first.value.time
      && db.scores[n].id < db.scores[n + 1].id
  {
    first := game.HandleSaveScore();
    second := game.HandleSaveScore();
    ClientPostIsGuestSubmission(db.users, verify, first.value, false);
    var outcome1 := db.SubmitScore(None, verify, PostBody(first.value), false, false);
    var outcome2 := db.SubmitScore(None, verify, PostBody(second.value), false, false);
  }
}
