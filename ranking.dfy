/**
 * The leaderboard query of `GET /api/scores`: the ten rows ranked best by
 * score descending, then time ascending; each is named by its user's current
 * username, or else by the stored player name.
 * SQLite leaves the order of rows with equal score and time unspecified; the
 * functions below fix one (insertion sort keeps table order among equals).
 * `TopRowsAreTheBest` states properties that every order SQLite may return
 * satisfies, and proves them for the order fixed here.
 */
module Ranking {
  import opened Wrappers
  import opened Tables

  /** The `LIMIT` of the query. */
  const Limit: nat := 10

  /** `a` may come before `b` under `ORDER BY score DESC, time ASC`. */
  predicate RanksAtLeast(a: ScoreRow, b: ScoreRow)
  {
    a.score > b.score || (a.score == b.score && a.time <= b.time)
  }

  /** Every row may come before every later row. */
  ghost predicate Ordered(rows: seq<ScoreRow>)
  {
    forall i, j :: 0 <= i < j < |rows| ==> RanksAtLeast(rows[i], rows[j])
  }

  /** Places `row` before the first row it ranks at least as high as. */
  function Insert(row: ScoreRow, sorted: seq<ScoreRow>): (r: seq<ScoreRow>)
    ensures |r| == |sorted| + 1 && row in r
  {
    if sorted == [] then [row]
    else if RanksAtLeast(row, sorted[0]) then [row] + sorted
    else [sorted[0]] + Insert(row, sorted[1..])
  }

  /** `ORDER BY s.score DESC, s.time ASC` over the whole table. */
  function SortRows(rows: seq<ScoreRow>): (sorted: seq<ScoreRow>)
    ensures |sorted| == |rows|
  {
    if rows == [] then [] else Insert(rows[0], SortRows(rows[1..]))
  }

  lemma {:induction false} InsertKeepsOrder(row: ScoreRow, sorted: seq<ScoreRow>)
    requires Ordered(sorted)
    ensures Ordered(Insert(row, sorted))
    ensures multiset(Insert(row, sorted)) == multiset(sorted) + multiset{row}
  {
    if sorted != [] && !RanksAtLeast(row, sorted[0]) {
      var tail := sorted[1..];
      assert sorted == [sorted[0]] + tail;
      assert Ordered(tail) by {
        forall i, j | 0 <= i < j < |tail| ensures RanksAtLeast(tail[i], tail[j]) {
          assert tail[i] == sorted[i + 1] && tail[j] == sorted[j + 1];
        }
      }
      InsertKeepsOrder(row, tail);
      var rest := Insert(row, tail);
      // every element of the rest is the inserted row or an element of the tail
      forall k | 0 <= k < |rest| ensures RanksAtLeast(sorted[0], rest[k]) {
        assert rest[k] in multiset(tail) + multiset{row};
        if rest[k] != row {
          assert rest[k] in tail;
          var m :| 0 <= m < |tail| && tail[m] == rest[k];
          assert sorted[m + 1] == rest[k];
        }
      }
    }
  }

  lemma {:induction false} SortRowsSorts(rows: seq<ScoreRow>)
    ensures Ordered(SortRows(rows))
    ensures multiset(SortRows(rows)) == multiset(rows)
  {
    if rows != [] {
      SortRowsSorts(rows[1..]);
      InsertKeepsOrder(rows[0], SortRows(rows[1..]));
      assert rows == [rows[0]] + rows[1..];
    }
  }

  function Min(a: nat, b: nat): nat { if a < b then a else b }

  /** The rows the query returns, before the names are resolved. */
  function TopRows(scores: seq<ScoreRow>): (top: seq<ScoreRow>)
    ensures |top| == Min(Limit, |scores|)
    ensures multiset(top) <= multiset(scores)
  {
    var sorted := SortRows(scores);
    SortRowsSorts(scores);
    assert sorted == sorted[..Min(Limit, |sorted|)] + sorted[Min(Limit, |sorted|)..];
    sorted[..Min(Limit, |sorted|)]
  }

  /** In an ordered list, every row of a prefix ranks at least as high as every row after it. */
  lemma PrefixRanksAbove(sorted: seq<ScoreRow>, n: nat)
    requires Ordered(sorted) && n <= |sorted|
    ensures Ordered(sorted[..n])
    ensures forall left, shown :: left in sorted[n..] && shown in sorted[..n] ==> RanksAtLeast(shown, left)
  {
    forall left, shown | left in sorted[n..] && shown in sorted[..n]
      ensures RanksAtLeast(shown, left)
    {
      var j :| 0 <= j < |sorted| - n && sorted[n..][j] == left;
      var i :| 0 <= i < n && sorted[..n][i] == shown;
      assert sorted[i] == shown && sorted[n + j] == left;
    }
  }

  /**
   * The query returns at most ten rows, in leaderboard order, taken from the
   * table, and no row left out ranks above a row returned: the result is a
   * top prefix of the table under `score DESC, time ASC`.
   */
  lemma TopRowsAreTheBest(scores: seq<ScoreRow>)
    ensures |TopRows(scores)| == Min(Limit, |scores|)
    ensures Ordered(TopRows(scores))
    ensures multiset(TopRows(scores)) <= multiset(scores)
    ensures forall left, shown :: left in multiset(scores) - multiset(TopRows(scores)) && shown in TopRows(scores)
              ==> RanksAtLeast(shown, left)
  {
    var sorted := SortRows(scores);
    SortRowsSorts(scores);
    var n := Min(Limit, |sorted|);
    var top, rest := sorted[..n], sorted[n..];
    assert sorted == top + rest;
    assert multiset(scores) - multiset(top) == multiset(rest);
    PrefixRanksAbove(sorted, n);
  }

  /** A row of the leaderboard reply: `{ id, name, score, time }`. */
  datatype RankedRow = RankedRow(id: int, name: string, score: int, time: int)

  /** The name a leaderboard row is shown under: the username of the score's user if that user exists, else the stored player name. */
  function DisplayName(users: seq<User>, row: ScoreRow): (name: string)
    ensures row.userId.None? ==> name == row.playerName
    ensures name == row.playerName
            || exists k :: 0 <= k < |users| && users[k].id == row.userId.value && users[k].username == name
  {
    match row.userId
    case None => row.playerName
    case Some(id) =>
      match UsernameOf(users, id)
      case Some(username) => username
      case None => row.playerName
  }

  /** The reply of `GET /api/scores`. */
  function Leaderboard(users: seq<User>, scores: seq<ScoreRow>): (reply: seq<RankedRow>)
    ensures |reply| == Min(Limit, |scores|)
    ensures forall i :: 0 <= i < |reply| ==>
              exists k :: 0 <= k < |scores| && scores[k].id == reply[i].id
                           && scores[k].score == reply[i].score && scores[k].time == reply[i].time
  {
    var top := TopRows(scores);
    assert forall i :: 0 <= i < |top| ==> top[i] in multiset(scores);
    seq(|top|, i requires 0 <= i < |top| =>
      RankedRow(top[i].id, DisplayName(users, top[i]), top[i].score, top[i].time))
  }

  /**
   * `GET /api/scores`: status 500 when SQLite reports an error for the query
   * (`queryFails`), otherwise the leaderboard with status 200.
   */
  function ScoresReply(users: seq<User>, scores: seq<ScoreRow>, queryFails: bool): (reply: Result<seq<RankedRow>, int>)
    ensures reply.Failure? <==> queryFails
    ensures reply.Failure? ==> reply.error == 500
    ensures reply.Success? ==> |reply.value| <= Limit && reply.value == Leaderboard(users, scores)
  {
    if queryFails then Failure(500)
    else
      LeaderboardReply(users, scores);
      Success(Leaderboard(users, scores))
  }

  /**
   * The reply has at most ten rows, is ordered by score descending and then
   * time ascending, and each row shows the current username of the user the
   * score is credited to, or else the stored player name.
   */
  lemma LeaderboardReply(users: seq<User>, scores: seq<ScoreRow>)
    ensures |Leaderboard(users, scores)| <= Limit
    ensures |Leaderboard(users, scores)| == Min(Limit, |scores|)
    ensures var reply := Leaderboard(users, scores);
      forall i, j :: 0 <= i < j < |reply| ==>
        reply[i].score > reply[j].score || (reply[i].score == reply[j].score && reply[i].time <= reply[j].time)
    ensures var reply, top := Leaderboard(users, scores), TopRows(scores);
      forall i :: 0 <= i < |reply| ==>
        && reply[i].id == top[i].id && reply[i].score == top[i].score && reply[i].time == top[i].time
        && (top[i].userId.Some? && UsernameOf(users, top[i].userId.value).Some? ==>
              reply[i].name == UsernameOf(users, top[i].userId.value).value)
        && (top[i].userId.None? || UsernameOf(users, top[i].userId.value).None? ==>
              reply[i].name == top[i].playerName)
  {
    TopRowsAreTheBest(scores);
  }

  /** A row that ranks strictly above a row on the leaderboard is on it too. */
  lemma BetterRowIsShown(scores: seq<ScoreRow>, better: ScoreRow, shown: ScoreRow)
    requires better in scores && shown in TopRows(scores)
    requires RanksAtLeast(better, shown) && !RanksAtLeast(shown, better)
    ensures better in TopRows(scores)
  {
    TopRowsAreTheBest(scores);
    assert better in multiset(scores);
  }
}
