# Memória Mágica: a verified model

Memória Mágica is a browser memory game with a small score server. This
project models both halves.

The client (`App` in the frontend):
- doubles a list of eight animal symbols into a deck of sixteen;
- shuffles the deck with a Fisher-Yates loop and deals it as face-down cards;
- lets the player turn two cards at a time: equal pairs stay matched, unequal pairs turn back after one second;
- ends the game when every pair is matched, and scores it from the elapsed seconds and the number of moves;
- posts the score under the player's name.

The server (`backend/index.js`):
- keeps two SQLite tables, `users` and `scores`;
- accepts scores from guests (a name in the body) or from users holding a bearer token;
- registers users;
- answers the leaderboard query: the ten best scores, ordered by score descending and then time ascending, with each row shown under its user's current username, or under the stored player name for a guest score.

Modules:
- `Wrappers`: `Option` and `Result`.
- `ScoreFormula`: `calculateScore`, stated against the same formula evaluated over the real numbers.
- `Shuffle`: `shuffleArray`. It is an array method proved against the specification function `FisherYates` and shown to permute its input.
- `MemoryGame`: the deck, the board invariant, and the class `Game`. Each React state hook of `App` that the game logic reads is a field of `Game`, and each event handler is a method. The screen switch `showRanking` is not modelled.
- `Tables`: the rows of the two tables, their invariants (AUTOINCREMENT ids, unique usernames, the foreign key) and the username lookup.
- `Ranking`: the `GET /api/scores` query.
- `Api`: bearer-token parsing, identity resolution, and the class `Database` with the `POST /api/scores` and `POST /api/register` routes.
- `Integration`: what the server does with the request the client sends.

Nondeterminism and the outside world become parameters:
- `Math.random` becomes the `draws` sequence. `draws[i]` is the index drawn at loop position `i`, so `draws[i] <= i`.
- The wall clock read at game end becomes `clockSeconds`.
- The one-second interval timer becomes the step `Tick`.
- The one-second timeout after a mismatch becomes the step `UnflipMismatch`. It may run only while `busy`.
- The client's `fetch` becomes two steps: `HandleSaveScore` sends the post, and `ReceiveSaveReply` handles its reply later.
- `jwt.verify` becomes a function `verify` from token to user id.
- The result of `bcrypt.hash` becomes `hash`.
- Each SQLite error becomes a boolean `lookupFails`, `insertFails` or `queryFails`.

Facts about the score route that the model keeps as the code has them:
- `POST /api/scores` answers a saved score with `201` and a message only. The reply does not carry the new row's id.
- `score` and `time` are only checked for being `undefined`. A negative score is stored as given.
- When a token's user cannot be looked up, the reply is `400` ("user not found"). This holds for a missing row and for a database error alike.
- A header of exactly `"Bearer "` (with an empty token) makes the request a guest submission, not a failed authentication.

## Model

| member | source | states |
|---|---|---|
| ScoreFormula.CalculateScore | frontend/src/App.jsx:164-171 | The score is never negative and equals the floor of `10000 - 10*time - 100*(moves - cards/2)` computed over the reals and clamped at 0, for every card count, odd ones included |
| ScoreFormula.ScoreForPairs | frontend/src/App.jsx:164-171 | For `2*pairs` cards the score is `max(0, 10000 - 10*time - 100*(moves - pairs))`: 100 points per move beyond one per pair and 10 per second |
| ScoreFormula.ScoreBounds | frontend/src/App.jsx:164-171 | With at least one move per pair and non-negative time, the score lies between 0 and 10000 |
| ScoreFormula.ScoreMonotone | frontend/src/App.jsx:164-171 | More moves or more seconds never raise the score |
| ScoreFormula.ScoreExamples | frontend/src/App.jsx:164-171 | A perfect 16-card game in 0 s scores 10000; 50 s gives 9500; 20 moves in 100 s give 7800; 100 moves in 1000 s floor at 0 |
| Shuffle.SwapPermutes | frontend/src/App.jsx:31 | The destructuring swap keeps the length and the multiset of elements |
| Shuffle.ShuffleDownPermutes | frontend/src/App.jsx:29-32 | Any number of remaining loop iterations, for any valid draws, permutes the array |
| Shuffle.FisherYates | frontend/src/App.jsx:27-34 | The array `shuffleArray` returns for the given draws: the loop from the last position down to 1, each swapped with its drawn index; it keeps the length, and leaves arrays of at most one element as they are |
| Shuffle.FisherYatesPermutes | frontend/src/App.jsx:27-34 | The shuffled result has the input's length and exactly its elements, whatever `Math.random` returns |
| Shuffle.ShuffleArray | frontend/src/App.jsx:27-34 | Returns a new array equal to `FisherYates` of the input for the drawn indices and a permutation of the input; the input array is not modified |
| MemoryGame.Deck | frontend/src/App.jsx:24-38 | The unshuffled deck has sixteen cards, each of the eight symbols exactly twice and nothing else |
| MemoryGame.Deal | frontend/src/App.jsx:39-44 | Dealing gives one card per deck position whose faces read back as the deck, each card numbered by its position, face down and unmatched |
| MemoryGame.DealtNoneMatched | frontend/src/App.jsx:39-44 | A freshly dealt board has no matched card |
| MemoryGame.NewDeck | frontend/src/App.jsx:38-44 | A board dealt from any shuffle has sixteen cards with `id == index`, all face down and unmatched, each symbol exactly twice |
| MemoryGame.NewBoard | frontend/src/App.jsx:38-44 | Builds the board from `shuffleArray` of the doubled symbols; it is the `ShuffledBoard` of the draws, an arrangement of the deck, face down, with no card matched |
| MemoryGame.FirstPickKeepsBoard | frontend/src/App.jsx:85-90 | Turning up an unmatched face-down card as the first pick keeps the board invariant and the matched count |
| MemoryGame.MatchKeepsBoard | frontend/src/App.jsx:97-111 | Matching an equal pair keeps the board invariant with no card left face up unmatched, and adds exactly two matched cards |
| MemoryGame.MismatchKeepsBoard | frontend/src/App.jsx:97-102 | Turning up the second card of an unequal pair leaves exactly those two cards face up and pending, and changes no matched status |
| MemoryGame.UnflipKeepsBoard | frontend/src/App.jsx:128-136 | Turning the pending pair face down again restores a board with no face-up unmatched card |
| MemoryGame.Game.constructor | frontend/src/App.jsx:8-18 | The initial state of every hook: no cards, no pick, zero moves, pairs and seconds, empty name, not started, not over, not busy |
| MemoryGame.Game.GameOverSettled | frontend/src/App.jsx:112-125 | In any reachable state with the game over, every card is matched, nothing is picked or pending, and the timer is stopped |
| MemoryGame.Game.InitializeGame | frontend/src/App.jsx:37-61 | Deals the shuffled board and resets the pick, moves, pairs, game-over flag, saved flag, name and seconds; the timer runs; the game invariant holds |
| MemoryGame.Game.ResetBoard | frontend/src/App.jsx:45-60 | After the deal, the board becomes the given one and the pick, moves, pairs, game-over flag, saved flag, name and seconds are reset; the timer runs; nothing pending changes; the game invariant holds |
| MemoryGame.Game.StartGame | frontend/src/App.jsx:63-66 | From the start screen: the game is started and a fresh board is dealt, with every counter reset |
| MemoryGame.Game.RestartGame | frontend/src/App.jsx:68-71 | From the game-over screen: a fresh board is dealt, counters are reset, and nothing is left busy |
| MemoryGame.Game.Tick | frontend/src/App.jsx:58-60 | While the game runs, each tick adds one second and keeps the invariant |
| MemoryGame.Game.HandleCardClick | frontend/src/App.jsx:81-139 | Clicks while busy, after the game ends, on a face-up or matched card, or on the first pick change nothing. A first pick turns only that card up. A second pick counts one move and either matches both cards, ending the game at the clock reading on the last pair, or leaves an unequal pair face up and busy. The invariant holds in every case |
| MemoryGame.Game.PickFirst | frontend/src/App.jsx:83-90 | The chosen card alone is turned face up and becomes the first pick |
| MemoryGame.Game.PickSecond | frontend/src/App.jsx:92-137 | A move is counted and the pick is cleared; an equal pair is matched, an unequal pair is left pending |
| MemoryGame.Game.MatchPair | frontend/src/App.jsx:97-125 | Both cards are matched, a move and a pair are counted, and the game ends (timer stopped, clock read) exactly when every pair is matched |
| MemoryGame.Game.ShowMismatch | frontend/src/App.jsx:97-102 | The second card is turned up, a move is counted, and the pair is scheduled to turn back while `busy` |
| MemoryGame.Game.UnflipMismatch | frontend/src/App.jsx:128-136 | Exactly the two pending cards are turned face down, `busy` ends, and nothing else changes |
| MemoryGame.Game.SetPlayerName | frontend/src/App.jsx:232-238 | The name field holds what was typed; the invariant is kept |
| MemoryGame.Game.HandleSaveScore | frontend/src/App.jsx:142-150 | Nothing is posted exactly when the name is empty or the score is already saved; otherwise `{name, calculateScore(), timeElapsed}` is posted and one more reply is awaited. The guard's inputs are left unchanged, so a second click before the reply posts again |
| MemoryGame.Game.ReceiveSaveReply | frontend/src/App.jsx:151-160 | When a reply arrives, the score becomes saved if and only if it was already saved or the reply has a success status; nothing else in the game changes |
| Tables.UsernameOf | backend/index.js:141-145 | The lookup by id finds nothing exactly when no user has that id, and otherwise returns the username of a user with that id |
| Tables.IdOfUsername | backend/index.js:59-66 | The lookup by username finds nothing exactly when no user has that name, and otherwise returns the id of a user with that name |
| Tables.UsernameOfUnique | backend/index.js:28-34 | With the primary key's unique ids, the lookup by a user's id returns that user's username |
| Tables.UsernameOfAppend | backend/index.js:74 | Inserting a user with a new id changes no existing lookup, so stored scores keep their users |
| Ranking.Insert | backend/index.js:181 | Inserting a row into the ordered list adds exactly one row, and that row is in the result |
| Ranking.SortRows | backend/index.js:181 | `ORDER BY s.score DESC, s.time ASC` over the whole table keeps the number of rows |
| Ranking.InsertKeepsOrder | backend/index.js:181 | Inserting a row into a list ordered by score descending and time ascending keeps it ordered and adds exactly that row |
| Ranking.SortRowsSorts | backend/index.js:181 | Sorting orders the table by score descending, then time ascending, and is a permutation of it |
| Ranking.TopRows | backend/index.js:181-182 | The rows the query returns before names are resolved: `min(10, rows)` of them, all taken from the table |
| Ranking.PrefixRanksAbove | backend/index.js:181-182 | In an ordered list, a prefix is ordered and every row of it ranks at least as high as every row after it |
| Ranking.TopRowsAreTheBest | backend/index.js:174-183 | The query returns `min(10, rows)` rows, ordered, taken from the table, and no row left out ranks above a row returned |
| Ranking.DisplayName | backend/index.js:176-180 | A guest row is shown under its stored player name. Any other row is shown under that name or under the username of a user with the row's user id |
| Ranking.Leaderboard | backend/index.js:174-183 | The reply has `min(10, rows)` rows, and each carries the id, score and time of one row of the table |
| Ranking.ScoresReply | backend/index.js:184-190 | A query error answers 500; otherwise the reply is the leaderboard, at most ten rows |
| Ranking.LeaderboardReply | backend/index.js:174-183 | Each reply row carries the row's id, score and time, is ordered, and shows the user's current username when the score's user exists, else the stored player name |
| Ranking.BetterRowIsShown | backend/index.js:181-182 | A row that ranks strictly above a row on the leaderboard is on the leaderboard too |
| Api.SubmitOutcome.Status | backend/index.js:128-162 | The score route's codes: 201 exactly for a saved score (the only success status, which the client's `response.ok` tests), 401 exactly for an invalid token, 400 exactly for a missing name, an unknown user or missing fields, and 500 exactly for an insert error |
| Api.RegisterOutcome.Status | backend/index.js:55-79 | The register route's codes: 201 exactly for a new user (the only success status), 400 exactly for missing credentials, 409 exactly for a taken name, and 500 exactly for lookup, hash and insert errors |
| Api.BearerToken | backend/index.js:117-118 | A token is taken exactly when the header is present and starts with `"Bearer "` followed by at least one character, and the header is that prefix followed by the token |
| Api.BearerTokenRoundTrip | backend/index.js:117-118 | A header built from the prefix and a non-empty token yields that token |
| Api.Identify | backend/index.js:117-149 | An invalid token gives 401 whatever the body. Without a token, the score is credited to a truthy `name` as a guest, else 400. With a valid token, the request succeeds exactly when the lookup does not fail and a user has the token's id; it then credits that id and that user's username, never a guest, and otherwise gives 400 (user not found) |
| Api.AuthenticatedIgnoresName | backend/index.js:138-147 | With a token, the body's `name` makes no difference to the outcome |
| Api.AuthenticatedUsesUsername | backend/index.js:141-147 | A valid token for an existing user credits the score to that user's id and current username |
| Api.Database.constructor | backend/index.js:27-45 | A new database has empty tables, zero counters and satisfies the table invariants |
| Api.Database.InsertScore | backend/index.js:152-164 | A missing score or time gives 400 and an insert error 500, with no change; otherwise exactly one row with the next id is appended; the table invariants hold |
| Api.Database.SubmitScore | backend/index.js:116-170 | The outcome follows the order of the checks: token, name or user, fields, insert. Every failure leaves the table unchanged. Success appends one row credited to the resolved author, with an id above every earlier id |
| Api.Database.Register | backend/index.js:53-83 | Missing credentials give 400, a lookup error 500, a taken name 409, and a hash or insert error 500, all with no change. Success appends one user with the next id and the hash. Usernames stay unique and every stored score keeps its user |
| Integration.PostBody | frontend/src/App.jsx:149 | The JSON body the client sends has its name, score and time all present |
| Integration.ClientPostIsGuestSubmission | backend/index.js:132-138 | A post the client sends, with no Authorization header and a non-empty name, is credited to that name as a guest |
| Integration.SaveClickedTwiceBeforeReply | frontend/src/App.jsx:142-152 | Two save clicks before the first reply both post the same name, score and time. The server stores both as two rows with increasing ids |
| Integration.NameGuardsAgree | frontend/src/App.jsx:143 | The server rejects a header-less body for a missing name exactly when the name is empty, the case the client never sends |

## Left out

- The rendering (JSX, the Scoreboard and Card components, the `showRanking` screen switch) is left out. It changes no game state that is modelled.
- The network transport and JSON encoding of the `fetch` are left out. Its reply arrives as `ReceiveSaveReply(ok)`, where a network error is `ok == false`. Which post a reply belongs to is not tracked, since the client does not track it either.
- `POST /api/login` is not part of this model. It only issues tokens, and tokens enter the model through `verify`.
- `jwt.verify`, `bcrypt.hash`, token expiry and the secret are oracles given as parameters.
- The timers and the wall clock are steps and parameters. `clearInterval` on unmount is left out.
- Concurrency between requests and SQLite's atomicity are left out. Each route runs atomically on the in-memory tables.
- The asynchrony inside one request is left out: the database callbacks run to completion.
- `ON DELETE CASCADE` is left out, since no route deletes a user.
- JavaScript values other than strings for `name`, `username` and `password` are left out. So are `null` (rather than `undefined`) for `score` and `time`, and non-integer scores or times.
- MemoryGame.Game.InitializeGame: requires that no mismatch is pending (`!busy`). The code never clears `busy` on a restart and is only ever called from the start and game-over screens, where nothing is pending.
- MemoryGame.Game.HandleCardClick: requires `index < |cards|`. The code only offers clicks on the rendered cards.
- ScoreFormula.CalculateScore: states the formula over the real numbers. JavaScript evaluates it in IEEE-754 doubles, which agree with the reals only while every intermediate value stays below 2^53 in magnitude. The step from doubles to reals is not modelled.
- MemoryGame.Game.HandleSaveScore: also callable before the game ends. The code only shows the save button on the game-over screen.
- Ranking.TopRowsAreTheBest: SQLite leaves the order of rows with equal score and time unspecified. `SortRows` picks one order (table order among equals). The lemma states properties that every order SQLite may return satisfies, but it is proved only for the order `SortRows` picks.
