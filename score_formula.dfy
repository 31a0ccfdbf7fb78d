/**
 * The score a finished game is worth (`calculateScore` in the client).
 * The client computes it with JavaScript numbers: half the card count may be
 * fractional, and the raw value is clamped at zero and then floored.
 */
module ScoreFormula {

  /**
   * The raw score of the formula over the reals. JavaScript computes it in
   * doubles, which agree with the reals here while every value stays below 2^53.
   */
  function RawScore(cardCount: nat, moves: int, timeElapsed: int): real
  {
    var totalPairs := cardCount as real / 2.0;
    var timePenalty := timeElapsed as real * 10.0;
    var movesPenalty := (moves as real - totalPairs) * 100.0;
    10000.0 - timePenalty - movesPenalty
  }

  /**
   * The score, computed in integers: 100 * (cardCount / 2) is 50 * cardCount,
   * so the raw value is always a whole number and the floor changes nothing.
   */
  function CalculateScore(cardCount: nat, moves: int, timeElapsed: int): (score: int)
    ensures score >= 0
    ensures var raw := RawScore(cardCount, moves, timeElapsed);
            score == (if raw < 0.0 then 0.0 else raw).Floor
  {
    var raw := 10000 - 10 * timeElapsed - 100 * moves + 50 * cardCount;
    if raw < 0 then 0 else raw
  }

  function Max(a: int, b: int): int { if a < b then b else a }

  /** With an even number of cards the score is 10000 minus 10 per second and 100 per move beyond one per pair, floored at 0. */
  lemma ScoreForPairs(pairs: nat, moves: int, timeElapsed: int)
    ensures CalculateScore(2 * pairs, moves, timeElapsed)
         == Max(0, 10000 - 10 * timeElapsed - 100 * (moves - pairs))
  {
  }

  /** Play that follows the rules (at least one move per pair, non-negative time) scores between 0 and 10000. */
  lemma ScoreBounds(cardCount: nat, moves: int, timeElapsed: int)
    requires 2 * moves >= cardCount && timeElapsed >= 0
    ensures 0 <= CalculateScore(cardCount, moves, timeElapsed) <= 10000
  {
  }

  /** Taking longer or making more moves never raises the score. */
  lemma ScoreMonotone(cardCount: nat, moves: int, moves': int, time: int, time': int)
    requires moves <= moves' && time <= time'
    ensures CalculateScore(cardCount, moves', time') <= CalculateScore(cardCount, moves, time)
  {
  }

  /** Worked values for the 16-card deck. */
  lemma ScoreExamples()
    ensures CalculateScore(16, 8, 0) == 10000
    ensures CalculateScore(16, 8, 50) == 9500
    ensures CalculateScore(16, 20, 100) == 7800
    ensures CalculateScore(16, 100, 1000) == 0
  {
  }
}
