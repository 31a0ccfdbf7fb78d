/**
 * The two SQLite tables of the score server, as in-memory sequences in
 * insertion order, and the lookups the routes run on them.
 */
module Tables {
  import opened Wrappers

  /** A row of `users`: AUTOINCREMENT id, UNIQUE username, bcrypt hash of the password. */
  datatype User = User(id: int, username: string, password: string)

  /** A row of `scores`; `userId` is null for a guest submission. */
  datatype ScoreRow = ScoreRow(id: int, playerName: string, score: int, time: int, userId: Option<int>)

  /** JavaScript truthiness of an optional string: present and not empty. */
  predicate Truthy(s: Option<string>)
  {
    s.Some? && s.value != ""
  }

  /** The lookup of a user's username by id: the username of the first user with that id. */
  function UsernameOf(users: seq<User>, id: int): (name: Option<string>)
    ensures name.None? <==> forall k :: 0 <= k < |users| ==> users[k].id != id
    ensures name.Some? ==> exists k :: 0 <= k < |users| && users[k].id == id && users[k].username == name.value
  {
    if users == [] then None
    else if users[0].id == id then Some(users[0].username)
    else
      var rest := UsernameOf(users[1..], id);
      assert forall k :: 1 <= k < |users| ==> users[k] == users[1..][k - 1];
      rest
  }

  /**
   * The lookup of a user's id by username, which registration runs to find a
   * taken name: the id of the first user with that username.
   */
  function IdOfUsername(users: seq<User>, username: string): (id: Option<int>)
    ensures id.None? <==> forall k :: 0 <= k < |users| ==> users[k].username != username
    ensures id.Some? ==> exists k :: 0 <= k < |users| && users[k].username == username && users[k].id == id.value
  {
    if users == [] then None
    else if users[0].username == username then Some(users[0].id)
    else
      var rest := IdOfUsername(users[1..], username);
      assert forall k :: 1 <= k < |users| ==> users[k] == users[1..][k - 1];
      rest
  }

  /**
   * The table invariants: ids are positive, strictly increasing in insertion
   * order and never above the AUTOINCREMENT counter; usernames are unique;
   * and every score credited to a user refers to an existing user (the
   * foreign key, with no route ever deleting a user).
   */
  ghost predicate TablesOk(users: seq<User>, scores: seq<ScoreRow>, lastUserId: int, lastScoreId: int)
  {
    && lastUserId >= 0 && lastScoreId >= 0
    && (forall i :: 0 <= i < |users| ==> 0 < users[i].id <= lastUserId)
    && (forall i, j :: 0 <= i < j < |users| ==> users[i].id < users[j].id)
    && (forall i, j :: 0 <= i < j < |users| ==> users[i].username != users[j].username)
    && (forall i :: 0 <= i < |scores| ==> 0 < scores[i].id <= lastScoreId)
    && (forall i, j :: 0 <= i < j < |scores| ==> scores[i].id < scores[j].id)
    && (forall i :: 0 <= i < |scores| && scores[i].userId.Some? ==>
          UsernameOf(users, scores[i].userId.value).Some?)
  }

  /** With unique ids, the lookup finds the one user with that id. */
  lemma UsernameOfUnique(users: seq<User>, k: nat)
    requires k < |users|
    requires forall i, j :: 0 <= i < j < |users| ==> users[i].id < users[j].id
    ensures UsernameOf(users, users[k].id) == Some(users[k].username)
  {
    var name := UsernameOf(users, users[k].id);
    var m :| 0 <= m < |users| && users[m].id == users[k].id && users[m].username == name.value;
    assert m == k;
  }

  /** Appending a user with a new id leaves every existing lookup as it was. */
  lemma {:induction false} UsernameOfAppend(users: seq<User>, u: User, id: int)
    requires id != u.id
    ensures UsernameOf(users + [u], id) == UsernameOf(users, id)
  {
    if users != [] {
      assert (users + [u])[1..] == users[1..] + [u];
      UsernameOfAppend(users[1..], u, id);
    }
  }
}
