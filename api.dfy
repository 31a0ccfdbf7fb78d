/**
 * The two writing routes of the score server: `POST /api/scores` and
 * `POST /api/register`. The database is an object whose tables the routes
 * append to. The collaborators the routes call are parameters:
 * `verify` is `jwt.verify` (the id in a valid token's payload, or None when the
 * signature or expiry check fails), `hash` is what `bcrypt.hash` delivered (None
 * for its error), and `lookupFails`/`insertFails` say whether SQLite reported an
 * error for the lookup or the insert of this request.
 */
module Api {
  import opened Wrappers
  import opened Tables

  /** The body of `POST /api/scores`; None is `undefined`. */
  datatype ScoreBody = ScoreBody(name: Option<string>, score: Option<int>, time: Option<int>)

  /** The replies of `POST /api/scores`. */
  datatype SubmitOutcome = Saved | InvalidToken | MissingName | UserNotFound | MissingFields | SaveFailed
  {
    /**
     * The HTTP status. Only a saved score is answered with a success status
     * (what the client's `response.ok` tests); a rejected request is a
     * client error (4xx) and a database error a server error (5xx).
     */
    function Status(): (code: int)
      ensures 200 <= code < 300 <==> this == Saved
      ensures 400 <= code < 500 <==> this in {InvalidToken, MissingName, UserNotFound, MissingFields}
      ensures code == 401 <==> this == InvalidToken
      ensures code == 400 <==> this in {MissingName, UserNotFound, MissingFields}
      ensures code == 201 <==> this == Saved
      ensures code == 500 <==> this == SaveFailed
      ensures 500 <= code < 600 <==> this == SaveFailed
    {
      match this
      case Saved => 201
      case InvalidToken => 401
      case MissingName => 400
      case UserNotFound => 400
      case MissingFields => 400
      case SaveFailed => 500
    }
  }

  /** The replies of `POST /api/register`. */
  datatype RegisterOutcome = Registered | MissingCredentials | LookupFailed | NameTaken | HashFailed | InsertFailed
  {
    /**
     * The HTTP status: success only for a new user, 409 (conflict) exactly
     * for a taken name, another client error for missing credentials, and a
     * server error for every failure of the database or of hashing.
     */
    function Status(): (code: int)
      ensures 200 <= code < 300 <==> this == Registered
      ensures code == 409 <==> this == NameTaken
      ensures code == 400 <==> this == MissingCredentials
      ensures code == 201 <==> this == Registered
      ensures code == 500 <==> this in {LookupFailed, HashFailed, InsertFailed}
      ensures 400 <= code < 500 <==> this in {MissingCredentials, NameTaken}
      ensures 500 <= code < 600 <==> this in {LookupFailed, HashFailed, InsertFailed}
    {
      match this
      case Registered => 201
      case MissingCredentials => 400
      case LookupFailed => 500
      case NameTaken => 409
      case HashFailed => 500
      case InsertFailed => 500
    }
  }

  const BearerPrefix: string := "Bearer "

  /**
   * The bearer token of the `Authorization` header: the text after the
   * literal prefix `"Bearer "`. None stands for every falsy `bearerToken`: no
   * header, a header without the prefix, or the prefix with nothing after it.
   */
  function BearerToken(authorization: Option<string>): (token: Option<string>)
    ensures token.Some? <==>
      authorization.Some? && |authorization.value| > |BearerPrefix|
      && authorization.value[..|BearerPrefix|] == BearerPrefix
    ensures token.Some? ==> authorization.value == BearerPrefix + token.value
  {
    var authHeader := if authorization.Some? then authorization.value else "";
    var bearerToken := if |authHeader| >= 7 && authHeader[..7] == BearerPrefix then Some(authHeader[7..]) else None;
    if bearerToken.Some? && bearerToken.value != "" then bearerToken else None
  }

  /** A header made of the prefix and a non-empty token yields exactly that token. */
  lemma BearerTokenRoundTrip(token: string)
    requires token != ""
    ensures BearerToken(Some(BearerPrefix + token)) == Some(token)
  {
    assert (BearerPrefix + token)[..|BearerPrefix|] == BearerPrefix;
  }

  /** Who a stored score is credited to: the `playerName` and `userId` columns. */
  datatype Author = Author(playerName: string, userId: Option<int>)

  /**
   * The identity step of the score route: with a bearer token, the token must verify
   * (else 401) and its id must name a user (else 400), whose username is used
   * whatever the body's `name`; without one, the body's `name` must be truthy
   * (else 400) and is stored with a null `userId`.
   */
  function Identify(users: seq<User>, authorization: Option<string>, verify: string -> Option<int>,
                    name: Option<string>, lookupFails: bool): (r: Result<Author, SubmitOutcome>)
    ensures BearerToken(authorization).Some? && verify(BearerToken(authorization).value).None?
            ==> r == Failure(InvalidToken)
    ensures BearerToken(authorization).None? ==>
              r == if Truthy(name) then Success(Author(name.value, None)) else Failure(MissingName)
    ensures r.Failure? ==> r.error in {InvalidToken, MissingName, UserNotFound}
    ensures BearerToken(authorization).Some? && verify(BearerToken(authorization).value).Some? ==>
              && (r.Success? <==> !lookupFails && UsernameOf(users, verify(BearerToken(authorization).value).value).Some?)
              && (r.Failure? ==> r.error == UserNotFound)
              && (r.Success? ==> r.value.userId.Some?)
    ensures r.Success? && r.value.userId.Some? ==>
              && BearerToken(authorization).Some?
              && verify(BearerToken(authorization).value) == r.value.userId
              && !lookupFails
              && exists k :: 0 <= k < |users| && users[k].id == r.value.userId.value
                                              && users[k].username == r.value.playerName
  {
    var token := BearerToken(authorization);
    if token.Some? then
      match verify(token.value)
      case None => Failure(InvalidToken)
      case Some(id) =>
        if lookupFails then Failure(UserNotFound)
        else
          match UsernameOf(users, id)
          case None => Failure(UserNotFound)
          case Some(username) => Success(Author(username, Some(id)))
    else if !Truthy(name) then Failure(MissingName)
    else Success(Author(name.value, None))
  }

  /** With a token, the body's `name` plays no part: a spoofed name is never stored. */
  lemma AuthenticatedIgnoresName(users: seq<User>, authorization: Option<string>, verify: string -> Option<int>,
                                 name: Option<string>, spoofed: Option<string>, lookupFails: bool)
    requires BearerToken(authorization).Some?
    ensures Identify(users, authorization, verify, name, lookupFails)
         == Identify(users, authorization, verify, spoofed, lookupFails)
  {
  }

  /** An authenticated score is credited to the token's user, under that user's current username. */
  lemma AuthenticatedUsesUsername(users: seq<User>, authorization: Option<string>, verify: string -> Option<int>,
                                  name: Option<string>, k: nat)
    requires k < |users| && forall i, j :: 0 <= i < j < |users| ==> users[i].id < users[j].id
    requires BearerToken(authorization).Some? && verify(BearerToken(authorization).value) == Some(users[k].id)
    ensures Identify(users, authorization, verify, name, false) == Success(Author(users[k].username, Some(users[k].id)))
  {
    UsernameOfUnique(users, k);
  }

  class Database {
    var users: seq<User>
    var scores: seq<ScoreRow>
    /** The AUTOINCREMENT counters: the largest id each table has handed out. */
    var lastUserId: int
    var lastScoreId: int

    ghost predicate Valid()
      reads this
    {
      TablesOk(users, scores, lastUserId, lastScoreId)
    }

    /** A new database: both tables empty. */
    constructor ()
      ensures Valid() && users == [] && scores == [] && lastUserId == 0 && lastScoreId == 0
    {
      users, scores := [], [];
      lastUserId, lastScoreId := 0, 0;
    }

    /**
     * `insertScore`, the route's final step: rejects a body whose `score` or `time` is
     * `undefined`, and otherwise appends one row with the next id.
     */
    method InsertScore(author: Author, score: Option<int>, time: Option<int>, insertFails: bool)
      returns (outcome: SubmitOutcome)
      requires Valid()
      requires author.userId.Some? ==> UsernameOf(users, author.userId.value).Some?
      modifies this`scores, this`lastScoreId
      ensures Valid()
      ensures outcome == (if score.None? || time.None? then MissingFields
                          else if insertFails then SaveFailed
                          else Saved)
      ensures outcome != Saved ==> scores == old(scores) && lastScoreId == old(lastScoreId)
      ensures outcome == Saved ==>
        && lastScoreId == old(lastScoreId) + 1
        && scores == old(scores) + [ScoreRow(lastScoreId, author.playerName, score.value, time.value, author.userId)]
    {
      if score.None? || time.None? {
        return MissingFields;
      }
      if insertFails {
        return SaveFailed;
      }
      lastScoreId := lastScoreId + 1;
      scores := scores + [ScoreRow(lastScoreId, author.playerName, score.value, time.value, author.userId)];
      outcome := Saved;
    }

    /**
     * `POST /api/scores`. The checks run in the route's order: the
     * token, then the name or the user, then `score` and `time`, then the
     * insert; any failure leaves the table as it was, and success appends
     * exactly one row, with an id larger than every earlier one.
     */
    method SubmitScore(authorization: Option<string>, verify: string -> Option<int>, body: ScoreBody,
                       lookupFails: bool, insertFails: bool) returns (outcome: SubmitOutcome)
      requires Valid()
      modifies this`scores, this`lastScoreId
      ensures Valid()
      ensures match Identify(users, authorization, verify, body.name, lookupFails)
        case Failure(error) => outcome == error
        case Success(author) =>
          && outcome == (if body.score.None? || body.time.None? then MissingFields
                         else if insertFails then SaveFailed
                         else Saved)
          && (outcome == Saved ==>
                scores == old(scores) + [ScoreRow(lastScoreId, author.playerName, body.score.value,
                                                  body.time.value, author.userId)])
      ensures outcome != Saved ==> scores == old(scores) && lastScoreId == old(lastScoreId)
      ensures outcome == Saved ==>
        && |scores| == |old(scores)| + 1 && scores[..|old(scores)|] == old(scores)
        && lastScoreId == old(lastScoreId) + 1
        && forall r :: r in old(scores) ==> r.id < lastScoreId
    {
      var token := BearerToken(authorization);
      var userId: Option<int> := None;
      if token.Some? {
        var decoded := verify(token.value);
        if decoded.None? {
          return InvalidToken;
        }
        userId := decoded;
      }
      if token.None? {
        if !Truthy(body.name) {
          return MissingName;
        }
        outcome := InsertScore(Author(body.name.value, None), body.score, body.time, insertFails);
      } else {
        var row := if lookupFails then None else UsernameOf(users, userId.value);
        if row.None? {
          return UserNotFound;
        }
        outcome := InsertScore(Author(row.value, userId), body.score, body.time, insertFails);
      }
    }

    /**
     * `POST /api/register`: a falsy username or password is rejected (400), a
     * taken username is rejected (409) and so are lookup, hashing and insert
     * errors (500); otherwise exactly one user is appended with the next id
     * and the password's hash. Usernames stay unique (`Valid`).
     */
    method Register(username: Option<string>, password: Option<string>, lookupFails: bool,
                    hash: Option<string>, insertFails: bool) returns (outcome: RegisterOutcome)
      requires Valid()
      modifies this`users, this`lastUserId
      ensures Valid()
      ensures outcome == (if !Truthy(username) || !Truthy(password) then MissingCredentials
                          else if lookupFails then LookupFailed
                          else if IdOfUsername(old(users), username.value).Some? then NameTaken
                          else if hash.None? then HashFailed
                          else if insertFails then InsertFailed
                          else Registered)
      ensures outcome != Registered ==> users == old(users) && lastUserId == old(lastUserId)
      ensures outcome == Registered ==>
        && lastUserId == old(lastUserId) + 1
        && users == old(users) + [User(lastUserId, username.value, hash.value)]
    {
      if !Truthy(username) || !Truthy(password) {
        return MissingCredentials;
      }
      if lookupFails {
        return LookupFailed;
      }
      var row := IdOfUsername(users, username.value);
      if row.Some? {
        return NameTaken;
      }
      if hash.None? {
        return HashFailed;
      }
      if insertFails {
        return InsertFailed;
      }
      var user := User(lastUserId + 1, username.value, hash.value);
      forall i | 0 <= i < |scores| && scores[i].userId.Some?
        ensures UsernameOf(users + [user], scores[i].userId.value).Some?
      {
        UsernameOfAppend(users, user, scores[i].userId.value);
      }
      users := users + [user];
      lastUserId := lastUserId + 1;
      outcome := Registered;
    }
  }
}
