/**
 * The memory game of the client (`App` in the frontend): a deck of eight
 * symbols, each twice, shuffled and dealt face down; the player turns cards
 * two at a time, equal pairs stay matched, unequal pairs are turned back after
 * one second; the game ends when every pair is matched.
 *
 * Each React state hook that the game logic reads is a field of `Game` (the
 * screen switch `showRanking` is not); each event handler is a method
 * that runs atomically. The one-second timeout that hides a mismatched pair is
 * the separate step `UnflipMismatch`, possible only while `busy`; the
 * one-second interval timer is the step `Tick`; the clock read when the game
 * ends is the parameter `clockSeconds` of `HandleCardClick`.
 */
module MemoryGame {
  import opened Wrappers
  import opened Shuffle
  import opened ScoreFormula

  type Symbol = string

  /** The eight card faces: dog, cat, fox, panda, monkey, frog, rabbit, lion. */
  const Symbols: seq<Symbol> := [
    "\U{1F436}", "\U{1F431}", "\U{1F98A}", "\U{1F43C}",
    "\U{1F435}", "\U{1F438}", "\U{1F430}", "\U{1F981}"
  ]

  /**
   * The deck before shuffling, the symbol list twice over: sixteen cards,
   * each of the eight symbols exactly twice and nothing else.
   */
  function Deck(): (deck: seq<Symbol>)
    ensures |deck| == DeckSize && IsDeckArrangement(deck)
  {
    assert IsDeckArrangement(Symbols + Symbols) by {
      SymbolsDistinct();
      forall sym ensures multiset(Symbols + Symbols)[sym] == DeckCount(sym) {
        DistinctOccursOnce(Symbols, sym);
      }
    }
    Symbols + Symbols
  }

  /** The number of cards on a board. */
  const DeckSize: nat := 16

  datatype Card = Card(id: nat, value: Symbol, isFlipped: bool, isMatched: bool)

  /** How often `sym` occurs in the deck: twice for each of the eight symbols. */
  function DeckCount(sym: Symbol): nat
  {
    if sym in Symbols then 2 else 0
  }

  /** `faces` is an arrangement of the deck: each symbol exactly as often as in `Deck()`. */
  ghost predicate IsDeckArrangement(faces: seq<Symbol>)
  {
    forall sym :: multiset(faces)[sym] == DeckCount(sym)
  }

  /** The faces of the cards, in board order. */
  function Values(cards: seq<Card>): seq<Symbol>
  {
    seq(|cards|, i requires 0 <= i < |cards| => cards[i].value)
  }

  /** The dealt board: one card per deck position, numbered by that position, face down and unmatched. */
  function Deal(deck: seq<Symbol>): (cards: seq<Card>)
    ensures |cards| == |deck| && Values(cards) == deck
    ensures forall i :: 0 <= i < |cards| ==> cards[i].id == i && !cards[i].isFlipped && !cards[i].isMatched
  {
    seq(|deck|, i requires 0 <= i < |deck| => Card(i, deck[i], false, false))
  }

  /** Facts about the board after one card is turned or matched. */
  lemma UpdateCard(cards: seq<Card>, i: nat, c: Card)
    requires i < |cards| && c.value == cards[i].value
    ensures Values(cards[i := c]) == Values(cards)
    ensures MatchedCount(cards[i := c])
         == MatchedCount(cards) - (if cards[i].isMatched then 1 else 0) + (if c.isMatched then 1 else 0)
  {
    MatchedCountUpdate(cards, i, c);
  }

  /** The number of matched cards on the board. */
  function MatchedCount(cards: seq<Card>): (n: nat)
    ensures n <= |cards|
  {
    if cards == [] then 0
    else (if cards[0].isMatched then 1 else 0) + MatchedCount(cards[1..])
  }

  /** Replacing one card changes the matched count by the change in that card's status only. */
  lemma {:induction false} MatchedCountUpdate(cards: seq<Card>, i: nat, c: Card)
    requires i < |cards|
    ensures MatchedCount(cards[i := c])
         == MatchedCount(cards) - (if cards[i].isMatched then 1 else 0) + (if c.isMatched then 1 else 0)
  {
    if i == 0 {
      assert cards[i := c][1..] == cards[1..];
    } else {
      assert cards[i := c][1..] == cards[1..][i - 1 := c];
      MatchedCountUpdate(cards[1..], i - 1, c);
    }
  }

  /** A board whose matched count equals its size has every card matched. */
  lemma {:induction false} FullCountAllMatched(cards: seq<Card>)
    requires MatchedCount(cards) == |cards|
    ensures forall i :: 0 <= i < |cards| ==> cards[i].isMatched
  {
    if cards != [] {
      FullCountAllMatched(cards[1..]);
      assert forall i :: 1 <= i < |cards| ==> cards[i] == cards[1..][i - 1];
    }
  }

  /** A board with no matched card has matched count zero. */
  lemma {:induction false} NoneMatchedCountZero(cards: seq<Card>)
    requires forall i :: 0 <= i < |cards| ==> !cards[i].isMatched
    ensures MatchedCount(cards) == 0
  {
    if cards != [] {
      assert forall i :: 0 <= i < |cards| - 1 ==> cards[1..][i] == cards[i + 1];
      NoneMatchedCountZero(cards[1..]);
    }
  }

  /** A freshly dealt board has no matched card. */
  lemma DealtNoneMatched(deck: seq<Symbol>)
    ensures MatchedCount(Deal(deck)) == 0
  {
    NoneMatchedCountZero(Deal(deck));
  }

  predicate Distinct<T(==)>(s: seq<T>)
  {
    forall i, j :: 0 <= i < j < |s| ==> s[i] != s[j]
  }

  lemma {:induction false} DistinctOccursOnce<T>(s: seq<T>, x: T)
    requires Distinct(s)
    ensures multiset(s)[x] == if x in s then 1 else 0
  {
    if s != [] {
      assert s == [s[0]] + s[1..];
      assert Distinct(s[1..]) by {
        forall i, j | 0 <= i < j < |s| - 1 ensures s[1..][i] != s[1..][j] {
          assert s[1..][i] == s[i + 1] && s[1..][j] == s[j + 1];
        }
      }
      DistinctOccursOnce(s[1..], x);
      if x == s[0] {
        assert x !in s[1..] by {
          forall k | 0 <= k < |s| - 1 ensures s[1..][k] != x {
            assert s[1..][k] == s[k + 1];
          }
        }
      }
    }
  }

  lemma SymbolsDistinct()
    ensures |Symbols| == 8 && Distinct(Symbols)
  {
    forall i, j | 0 <= i < j < |Symbols| ensures Symbols[i] != Symbols[j] {
      assert Symbols[i][0] != Symbols[j][0];
    }
  }

  /** The board `initializeGame` deals for the given draws. */
  function ShuffledBoard(draws: seq<nat>): seq<Card>
    requires ValidDraws(draws, DeckSize)
  {
    Deal(FisherYates(Deck(), draws))
  }

  /** A board dealt from any shuffle: sixteen face-down, unmatched cards numbered by position, each symbol twice. */
  lemma NewDeck(draws: seq<nat>, sym: Symbol)
    requires ValidDraws(draws, DeckSize)
    ensures var cards := ShuffledBoard(draws);
      && |cards| == 16
      && (forall i :: 0 <= i < |cards| ==> cards[i].id == i && !cards[i].isFlipped && !cards[i].isMatched)
      && multiset(Values(cards))[sym] == DeckCount(sym)
  {
    var deck := FisherYates(Deck(), draws);
    FisherYatesPermutes(Deck(), draws);
    assert Values(Deal(deck)) == deck;
  }

  /** The two cards of a mismatch, captured by the timeout that turns them back. */
  datatype PendingPair = PendingPair(first: nat, second: nat)

  /** Card `i` exists, is face up and is not matched. */
  ghost predicate FaceUpUnmatched(cards: seq<Card>, i: nat)
  {
    i < |cards| && cards[i].isFlipped && !cards[i].isMatched
  }

  /**
   * The board invariant: cards are numbered by position and carry the deck's
   * faces; matched cards are face up; and the face-up unmatched cards are
   * exactly the first pick, or the two cards of a pending mismatch (never both).
   */
  ghost predicate BoardOk(cards: seq<Card>, firstIndex: Option<nat>, pending: Option<PendingPair>)
  {
    && (forall i :: 0 <= i < |cards| ==> cards[i].id == i)
    && (forall i :: 0 <= i < |cards| && cards[i].isMatched ==> cards[i].isFlipped)
    && (cards != [] ==> IsDeckArrangement(Values(cards)))
    && !(firstIndex.Some? && pending.Some?)
    && (firstIndex.Some? ==> FaceUpUnmatched(cards, firstIndex.value))
    && (pending.Some? ==>
          var p := pending.value;
          && p.first != p.second && FaceUpUnmatched(cards, p.first) && FaceUpUnmatched(cards, p.second)
          && cards[p.first].value != cards[p.second].value)
    && (forall i: nat :: FaceUpUnmatched(cards, i) ==>
          firstIndex == Some(i) || (pending.Some? && (pending.value.first == i || pending.value.second == i)))
  }

  /** A first pick turns one face-down card up and keeps the board invariant. */
  lemma FirstPickKeepsBoard(cards: seq<Card>, i: nat)
    requires BoardOk(cards, None, None)
    requires i < |cards| && !cards[i].isFlipped && !cards[i].isMatched
    ensures var next := cards[i := cards[i].(isFlipped := true)];
      BoardOk(next, Some(i), None) && MatchedCount(next) == MatchedCount(cards)
  {
    UpdateCard(cards, i, cards[i].(isFlipped := true));
  }

  /** Matching an equal pair adds two matched cards and keeps the board invariant. */
  lemma MatchKeepsBoard(cards: seq<Card>, first: nat, second: nat)
    requires BoardOk(cards, Some(first), None) && first != second
    requires second < |cards| && !cards[second].isFlipped && !cards[second].isMatched
    requires cards[first].value == cards[second].value
    ensures var next := cards[second := cards[second].(isFlipped := true, isMatched := true)]
                             [first := cards[first].(isMatched := true)];
      BoardOk(next, None, None) && MatchedCount(next) == MatchedCount(cards) + 2
  {
    var c2 := cards[second].(isFlipped := true, isMatched := true);
    UpdateCard(cards, second, c2);
    UpdateCard(cards[second := c2], first, cards[first].(isMatched := true));
  }

  /** Turning up the second card of an unequal pair leaves both pending and keeps the board invariant. */
  lemma MismatchKeepsBoard(cards: seq<Card>, first: nat, second: nat)
    requires BoardOk(cards, Some(first), None) && first != second
    requires second < |cards| && !cards[second].isFlipped && !cards[second].isMatched
    requires cards[first].value != cards[second].value
    ensures var next := cards[second := cards[second].(isFlipped := true)];
      BoardOk(next, None, Some(PendingPair(first, second))) && MatchedCount(next) == MatchedCount(cards)
  {
    UpdateCard(cards, second, cards[second].(isFlipped := true));
  }

  /** Turning a pending mismatch face down again keeps the board invariant. */
  lemma UnflipKeepsBoard(cards: seq<Card>, p: PendingPair)
    requires BoardOk(cards, None, Some(p))
    ensures var next := cards[p.first := cards[p.first].(isFlipped := false)]
                             [p.second := cards[p.second].(isFlipped := false)];
      BoardOk(next, None, None) && MatchedCount(next) == MatchedCount(cards)
  {
    var c1 := cards[p.first].(isFlipped := false);
    UpdateCard(cards, p.first, c1);
    UpdateCard(cards[p.first := c1], p.second, cards[p.second].(isFlipped := false));
  }

  /**
   * The deal of `initializeGame`: shuffles the doubled symbol list and
   * deals it as face-down, unmatched cards numbered by position.
   */
  method NewBoard(draws: seq<nat>) returns (board: seq<Card>)
    requires ValidDraws(draws, DeckSize)
    ensures board == ShuffledBoard(draws)
    ensures |board| == DeckSize && IsDeckArrangement(Values(board))
    ensures forall i :: 0 <= i < |board| ==> board[i].id == i && !board[i].isFlipped && !board[i].isMatched
    ensures MatchedCount(board) == 0
    ensures BoardOk(board, None, None)
  {
    var deck := Deck();
    var source := new Symbol[|deck|](i requires 0 <= i < |deck| => deck[i]);
    assert source[..] == deck;
    var deckSymbols := ShuffleArray(source, draws);
    board := Deal(deckSymbols[..]);
    FisherYatesPermutes(deck, draws);
    DealtNoneMatched(deckSymbols[..]);
  }

  /** The body `{ name, score, time }` that `handleSaveScore` posts. */
  datatype ScorePost = ScorePost(name: string, score: int, time: int)

  class Game {
    var cards: seq<Card>
    var firstIndex: Option<nat>
    var moves: nat
    var matchedPairs: nat
    var gameStarted: bool
    var gameOver: bool
    var timeElapsed: nat
    var playerName: string
    var scoreSaved: bool
    var busy: bool
    /** The two cards the scheduled one-second timeout will turn face down again. */
    var pendingUnflip: Option<PendingPair>
    /** Whether the one-second interval timer is running. */
    var timerRunning: bool
    /** The score posts sent whose reply has not arrived yet. */
    var savesInFlight: nat

    /** The invariant every reachable game state keeps. */
    ghost predicate Valid()
      reads this
    {
      && BoardOk(cards, firstIndex, pendingUnflip)
      && (!gameStarted ==> cards == [])
      && MatchedCount(cards) == 2 * matchedPairs
      && (gameOver <==> cards != [] && 2 * matchedPairs == |cards|)
      && (timerRunning <==> cards != [] && !gameOver)
      && (busy <==> pendingUnflip.Some?)
    }

    /** The initial React state, before the start screen's button is pressed. */
    constructor ()
      ensures Valid()
      ensures cards == [] && firstIndex == None && moves == 0 && matchedPairs == 0
      ensures !gameStarted && !gameOver && timeElapsed == 0 && playerName == ""
      ensures !scoreSaved && !busy && pendingUnflip == None && !timerRunning && savesInFlight == 0
    {
      cards := [];
      firstIndex := None;
      moves := 0;
      matchedPairs := 0;
      gameStarted := false;
      gameOver := false;
      timeElapsed := 0;
      playerName := "";
      scoreSaved := false;
      busy := false;
      pendingUnflip := None;
      timerRunning := false;
      savesInFlight := 0;
    }

    /** At the end of a game every card is matched and nothing is pending. */
    lemma GameOverSettled()
      requires Valid() && gameOver
      ensures forall i :: 0 <= i < |cards| ==> cards[i].isMatched
      ensures !busy && firstIndex == None && pendingUnflip == None && !timerRunning
    {
      FullCountAllMatched(cards);
      assert forall i: nat :: !FaceUpUnmatched(cards, i);
    }

    /**
     * `initializeGame`: deals a fresh shuffled deck and resets the game. It
     * leaves `busy` alone, so it is called only when no mismatch is pending:
     * from the start screen (after `gameStarted` is set) and from the game-over screen.
     */
    method InitializeGame(draws: seq<nat>)
      requires Valid() && gameStarted && !busy
      requires ValidDraws(draws, DeckSize)
      modifies this
      ensures Valid()
      ensures cards == ShuffledBoard(draws)
      ensures firstIndex == None && moves == 0 && matchedPairs == 0 && timeElapsed == 0
      ensures !gameOver && !scoreSaved && playerName == "" && timerRunning
      ensures gameStarted == old(gameStarted) && busy == old(busy) && pendingUnflip == old(pendingUnflip)
      ensures savesInFlight == old(savesInFlight)
    {
      var board := NewBoard(draws);
      ResetBoard(board);
    }

    /** The state updates of `initializeGame` once the board is dealt. */
    method ResetBoard(board: seq<Card>)
      requires gameStarted && !busy && pendingUnflip == None
      requires |board| == DeckSize && BoardOk(board, None, None) && MatchedCount(board) == 0
      modifies this
      ensures Valid()
      ensures cards == board
      ensures firstIndex == None && moves == 0 && matchedPairs == 0 && timeElapsed == 0
      ensures !gameOver && !scoreSaved && playerName == "" && timerRunning
      ensures gameStarted == old(gameStarted) && busy == old(busy) && pendingUnflip == old(pendingUnflip)
      ensures savesInFlight == old(savesInFlight)
    {
      cards, firstIndex, moves, matchedPairs, gameOver := board, None, 0, 0, false;
      scoreSaved, playerName, timeElapsed, timerRunning := false, "", 0, true;
    }

    /** `startGame`: leaves the start screen and deals the first board. */
    method StartGame(draws: seq<nat>)
      requires Valid() && !gameStarted
      requires ValidDraws(draws, DeckSize)
      modifies this
      ensures Valid() && gameStarted
      ensures cards == ShuffledBoard(draws)
      ensures firstIndex == None && moves == 0 && matchedPairs == 0 && timeElapsed == 0
      ensures !gameOver && !busy && !scoreSaved && playerName == "" && timerRunning
      ensures savesInFlight == old(savesInFlight)
    {
      gameStarted := true;
      InitializeGame(draws);
    }

    /** `restartGame`, offered on the game-over screen: deals a new board. */
    method RestartGame(draws: seq<nat>)
      requires Valid() && gameStarted && gameOver
      requires ValidDraws(draws, DeckSize)
      modifies this
      ensures Valid() && gameStarted
      ensures cards == ShuffledBoard(draws)
      ensures firstIndex == None && moves == 0 && matchedPairs == 0 && timeElapsed == 0
      ensures !gameOver && !busy && !scoreSaved && playerName == "" && timerRunning
      ensures savesInFlight == old(savesInFlight)
    {
      GameOverSettled();
      InitializeGame(draws);
    }

    /** One tick of the one-second interval timer, which runs from the deal until the game ends. */
    method Tick()
      requires Valid() && timerRunning
      modifies this`timeElapsed
      ensures Valid()
      ensures timeElapsed == old(timeElapsed) + 1
    {
      timeElapsed := timeElapsed + 1;
    }

    /**
     * `handleCardClick(index)`. A click is ignored while a pair is being
     * compared or after the game is over, on a card that is already face up or
     * matched, and on the first card itself. A first pick turns that card face
     * up. A second pick turns its card face up and counts a move; an equal pair
     * is matched at once (ending the game when it is the last pair, at clock
     * reading `clockSeconds`), an unequal pair stays face up and `busy` until
     * `UnflipMismatch` runs.
     */
    method HandleCardClick(index: nat, clockSeconds: nat)
      requires Valid() && index < |cards|
      modifies this
      ensures Valid()
      ensures gameStarted == old(gameStarted) && playerName == old(playerName) && scoreSaved == old(scoreSaved)
      ensures savesInFlight == old(savesInFlight)
      // ignored clicks
      ensures old(busy || gameOver) ==> unchanged(this)
      ensures old(cards[index].isFlipped || cards[index].isMatched) ==> unchanged(this)
      ensures old(firstIndex) == Some(index) ==> unchanged(this)
      // first pick
      ensures old(!busy && !gameOver && firstIndex == None && !cards[index].isFlipped && !cards[index].isMatched) ==>
        && cards == old(cards)[index := old(cards[index]).(isFlipped := true)]
        && firstIndex == Some(index)
        && moves == old(moves) && matchedPairs == old(matchedPairs) && !busy && pendingUnflip == None
        && gameOver == old(gameOver) && timeElapsed == old(timeElapsed) && timerRunning == old(timerRunning)
      // second pick
      ensures old(!busy && !gameOver && firstIndex.Some? && firstIndex != Some(index)
                  && !cards[index].isFlipped && !cards[index].isMatched) ==>
        var first := old(firstIndex).value;
        && moves == old(moves) + 1
        && firstIndex == None
        && if old(cards[first].value == cards[index].value) then
             && cards == old(cards)[index := old(cards[index]).(isFlipped := true, isMatched := true)]
                                   [first := old(cards[first]).(isMatched := true)]
             && matchedPairs == old(matchedPairs) + 1 && !busy && pendingUnflip == None
             && gameOver == (2 * matchedPairs == |cards|)
             && timerRunning == !gameOver
             && timeElapsed == if gameOver then clockSeconds else old(timeElapsed)
           else
             && cards == old(cards)[index := old(cards[index]).(isFlipped := true)]
             && matchedPairs == old(matchedPairs) && busy && pendingUnflip == Some(PendingPair(first, index))
             && !gameOver && timeElapsed == old(timeElapsed) && timerRunning == old(timerRunning)
    {
      if busy || gameOver {
        return;
      }
      if firstIndex == None {
        if cards[index].isMatched || cards[index].isFlipped {
          return;
        }
        PickFirst(index);
      } else {
        if Some(index) == firstIndex || cards[index].isMatched || cards[index].isFlipped {
          return;
        }
        PickSecond(index, clockSeconds);
      }
    }

    /** The first pick of `handleCardClick`: the first card of a pair is turned face up. */
    method PickFirst(index: nat)
      requires Valid() && !busy && !gameOver && firstIndex == None
      requires index < |cards| && !cards[index].isFlipped && !cards[index].isMatched
      modifies this`cards, this`firstIndex
      ensures Valid()
      ensures cards == old(cards)[index := old(cards[index]).(isFlipped := true)]
      ensures firstIndex == Some(index)
    {
      FirstPickKeepsBoard(cards, index);
      firstIndex := Some(index);
      cards := cards[index := cards[index].(isFlipped := true)];
    }

    /**
     * The second pick of `handleCardClick`: the second card is turned face up and
     * a move is counted; then the pair is either matched or left for
     * `UnflipMismatch`.
     */
    method PickSecond(index: nat, clockSeconds: nat)
      requires Valid() && !busy && !gameOver && firstIndex.Some? && firstIndex != Some(index)
      requires index < |cards| && !cards[index].isFlipped && !cards[index].isMatched
      modifies this
      ensures Valid()
      ensures gameStarted == old(gameStarted) && playerName == old(playerName) && scoreSaved == old(scoreSaved)
      ensures savesInFlight == old(savesInFlight)
      ensures var first := old(firstIndex).value;
        && moves == old(moves) + 1
        && firstIndex == None
        && if old(cards[first].value == cards[index].value) then
             && cards == old(cards)[index := old(cards[index]).(isFlipped := true, isMatched := true)]
                                   [first := old(cards[first]).(isMatched := true)]
             && matchedPairs == old(matchedPairs) + 1 && !busy && pendingUnflip == None
             && gameOver == (2 * matchedPairs == |cards|)
             && timerRunning == !gameOver
             && timeElapsed == if gameOver then clockSeconds else old(timeElapsed)
           else
             && cards == old(cards)[index := old(cards[index]).(isFlipped := true)]
             && matchedPairs == old(matchedPairs) && busy && pendingUnflip == Some(PendingPair(first, index))
             && !gameOver && timeElapsed == old(timeElapsed) && timerRunning == old(timerRunning)
    {
      var firstIdx, secondIdx := firstIndex.value, index;
      if cards[firstIdx].value == cards[secondIdx].value {
        MatchPair(firstIdx, secondIdx, clockSeconds);
      } else {
        ShowMismatch(firstIdx, secondIdx);
      }
    }

    /**
     * The second pick for an equal pair. React applies the state updates of one
     * handler together, so the second card is turned face up, both cards are
     * matched, a move is counted and `busy` is set and cleared in one step.
     * The game ends when the last pair is matched: the timer stops and the
     * elapsed time is read from the clock.
     */
    method MatchPair(firstIdx: nat, secondIdx: nat, clockSeconds: nat)
      requires Valid() && !busy && !gameOver && firstIndex == Some(firstIdx) && firstIdx != secondIdx
      requires secondIdx < |cards| && !cards[secondIdx].isFlipped && !cards[secondIdx].isMatched
      requires cards[firstIdx].value == cards[secondIdx].value
      modifies this`cards, this`moves, this`firstIndex, this`matchedPairs, this`timerRunning,
               this`timeElapsed, this`gameOver
      ensures Valid()
      ensures cards == old(cards)[secondIdx := old(cards[secondIdx]).(isFlipped := true, isMatched := true)]
                                 [firstIdx := old(cards[firstIdx]).(isMatched := true)]
      ensures moves == old(moves) + 1 && firstIndex == None && matchedPairs == old(matchedPairs) + 1
      ensures gameOver == (2 * matchedPairs == |cards|) && timerRunning == !gameOver
      ensures timeElapsed == if gameOver then clockSeconds else old(timeElapsed)
    {
      MatchKeepsBoard(cards, firstIdx, secondIdx);
      var next := cards[secondIdx := cards[secondIdx].(isFlipped := true, isMatched := true)]
                       [firstIdx := cards[firstIdx].(isMatched := true)];
      var newMatched := matchedPairs + 1;
      assert |next| == |cards| && MatchedCount(next) == 2 * newMatched;
      if newMatched * 2 == |cards| {
        timerRunning, timeElapsed, gameOver := false, clockSeconds, true;
      }
      cards, moves, firstIndex, matchedPairs := next, moves + 1, None, newMatched;
    }

    /**
     * The second pick for an unequal pair: the second card is turned face
     * up, a move is counted, and both cards stay face up and `busy` until the
     * scheduled timeout (`UnflipMismatch`) runs.
     */
    method ShowMismatch(firstIdx: nat, secondIdx: nat)
      requires Valid() && !busy && !gameOver && firstIndex == Some(firstIdx) && firstIdx != secondIdx
      requires secondIdx < |cards| && !cards[secondIdx].isFlipped && !cards[secondIdx].isMatched
      requires cards[firstIdx].value != cards[secondIdx].value
      modifies this`cards, this`moves, this`firstIndex, this`busy, this`pendingUnflip
      ensures Valid()
      ensures cards == old(cards)[secondIdx := old(cards[secondIdx]).(isFlipped := true)]
      ensures moves == old(moves) + 1 && firstIndex == None
      ensures busy && pendingUnflip == Some(PendingPair(firstIdx, secondIdx))
    {
      MismatchKeepsBoard(cards, firstIdx, secondIdx);
      cards := cards[secondIdx := cards[secondIdx].(isFlipped := true)];
      moves := moves + 1;
      busy := true;
      firstIndex := None;
      pendingUnflip := Some(PendingPair(firstIdx, secondIdx));
    }

    /**
     * The one-second timeout scheduled by a mismatch: turns exactly the two
     * mismatched cards face down again and ends `busy`.
     */
    method UnflipMismatch()
      requires Valid() && busy
      modifies this
      ensures Valid()
      ensures var p := old(pendingUnflip).value;
        cards == old(cards)[p.first := old(cards[p.first]).(isFlipped := false)]
                           [p.second := old(cards[p.second]).(isFlipped := false)]
      ensures !busy && pendingUnflip == None
      ensures firstIndex == old(firstIndex) && moves == old(moves) && matchedPairs == old(matchedPairs)
      ensures gameStarted == old(gameStarted) && gameOver == old(gameOver) && timeElapsed == old(timeElapsed)
      ensures playerName == old(playerName) && scoreSaved == old(scoreSaved) && timerRunning == old(timerRunning)
      ensures savesInFlight == old(savesInFlight)
    {
      var firstIdx, secondIdx := pendingUnflip.value.first, pendingUnflip.value.second;
      UnflipKeepsBoard(cards, pendingUnflip.value);
      cards := cards[firstIdx := cards[firstIdx].(isFlipped := false)]
                    [secondIdx := cards[secondIdx].(isFlipped := false)];
      busy := false;
      pendingUnflip := None;
    }

    /** The name field of the game-over screen. */
    method SetPlayerName(name: string)
      requires Valid()
      modifies this`playerName
      ensures Valid() && playerName == name
    {
      playerName := name;
    }

    /**
     * `handleSaveScore` up to its `await`: unless the name is empty or the
     * score is already saved, posts `{ name, score, time }`. Posting changes
     * neither the name nor the saved flag, so until the reply arrives a
     * second click passes the same guard and posts the same score again.
     */
    method HandleSaveScore() returns (post: Option<ScorePost>)
      requires Valid()
      modifies this`savesInFlight
      ensures Valid()
      ensures post == None <==> playerName == "" || scoreSaved
      ensures post.Some? ==>
        post.value == ScorePost(playerName, CalculateScore(|cards|, moves, timeElapsed), timeElapsed)
      ensures savesInFlight == old(savesInFlight) + (if post.Some? then 1 else 0)
    {
      if playerName == "" || scoreSaved {
        return None;
      }
      var score := CalculateScore(|cards|, moves, timeElapsed);
      post := Some(ScorePost(playerName, score, timeElapsed));
      savesInFlight := savesInFlight + 1;
    }

    /**
     * The rest of `handleSaveScore`, when the reply to one of the posts in
     * flight arrives: a success status (`ok`) marks the score as saved, in
     * whatever game is on screen by then; a failure status or a network
     * error changes nothing else.
     */
    method ReceiveSaveReply(ok: bool)
      requires Valid() && savesInFlight > 0
      modifies this`scoreSaved, this`savesInFlight
      ensures Valid()
      ensures scoreSaved == (old(scoreSaved) || ok)
      ensures savesInFlight == old(savesInFlight) - 1
    {
      if ok {
        scoreSaved := true;
      }
      savesInFlight := savesInFlight - 1;
    }
  }
}
