/** The star rules shared by the mini-games of js/games.js: the per-round penalty for wrong
    answers and the end-of-game grade. */
module Scoring {
  import opened Common

  /** Stars left in a round after `errors` wrong answers: `Math.max(1, 3 - errors)`. A round
      with no error keeps its initial 3. */
  function Penalty(errors: nat): (stars: int)
    ensures 1 <= stars <= 3
    ensures errors < 2 ==> stars == 3 - errors
    ensures errors >= 2 ==> stars == 1
  {
    Max(1, 3 - errors)
  }

  /** More errors never give more stars. */
  lemma PenaltyNonIncreasing(e1: nat, e2: nat)
    requires e1 <= e2
    ensures Penalty(e2) <= Penalty(e1)
  {
  }

  /** The end-of-game grade: with `maxStars = 3 * totalRounds` and
      `percent = totalStars / maxStars * 100`, 3 stars when `percent >= 80`, 2 when
      `percent >= 50`, else 1. The floating-point test is restated exactly in integers; with no
      rounds the quotient is `Infinity` (some stars) or `NaN` (none). */
  function FinalStars(totalStars: nat, totalRounds: nat): (grade: int)
    ensures 1 <= grade <= 3
  {
    var maxStars := 3 * totalRounds;
    if maxStars == 0 then (if totalStars > 0 then 3 else 1)
    else if 100 * totalStars >= 80 * maxStars then 3
    else if 100 * totalStars >= 50 * maxStars then 2
    else 1
  }

  /** The grade never drops when more stars were earned over the same rounds. */
  lemma FinalStarsMonotone(t1: nat, t2: nat, rounds: nat)
    requires t1 <= t2
    ensures FinalStars(t1, rounds) <= FinalStars(t2, rounds)
  {
  }

  /** A game whose every round was answered without error is graded 3 stars; one whose every
      round earned a single star is graded 1. */
  lemma FinalStarsExtremes(rounds: nat)
    requires rounds >= 1
    ensures FinalStars(3 * rounds, rounds) == 3
    ensures FinalStars(rounds, rounds) == 1
  {
  }

  /** The grade as an average: 3 stars from an average of 2.4 stars per round, 2 from 1.5. */
  lemma FinalStarsByAverage(totalStars: nat, rounds: nat)
    requires rounds >= 1
    ensures FinalStars(totalStars, rounds) == 3 <==> 5 * totalStars >= 12 * rounds
    ensures FinalStars(totalStars, rounds) >= 2 <==> 2 * totalStars >= 3 * rounds
  {
  }

  /** The grade of the memory game: 3 stars when it took at most as many moves as there are
      cards, 2 when at most 1.5 times as many (stated exactly in integers), else 1. */
  function MemoryStars(moves: nat, cards: nat): (stars: int)
    ensures 1 <= stars <= 3
  {
    if moves <= cards then 3 else if 2 * moves <= 3 * cards then 2 else 1
  }

  /** Fewer moves never give fewer stars; a game finished with one move per pair (no mismatch)
      earns 3. */
  lemma MemoryStarsMonotone(m1: nat, m2: nat, cards: nat)
    requires m1 <= m2
    ensures MemoryStars(m2, cards) <= MemoryStars(m1, cards)
    ensures MemoryStars(cards / 2, cards) == 3
  {
  }
}
