/** The round state shared by the colours, numbers, animals and pattern games of js/games.js
    (`colorsGameState`, `numbersGameState`, `animalsGameState`, `puzzleGameState`). Each game
    plays `totalRounds` rounds; a round offers some options, one of which is accepted; a wrong
    answer costs stars and disables that option; the click games (animals and patterns) also
    end the round after the second wrong answer. The options of a round are the pieces or
    buttons the page shows; `disabled` are those that can no longer be picked. */
module Rounds {
  import opened Common
  import opened Scoring

  datatype GameKind = Colors | Numbers | Animals | Puzzle

  /** The click games end a round after the second wrong answer and disable every button once
      the round is over; the drag games only disable the dropped piece. */
  predicate TwoStrikes(kind: GameKind) { kind == Animals || kind == Puzzle }

  /** `totalRounds` for a level: `3 + level`, or `4 + level` for the pattern game. */
  function TotalRounds(kind: GameKind, level: nat): (n: nat)
    ensures n >= 3 + level
    ensures kind == Puzzle <==> n == 4 + level
    ensures kind != Puzzle ==> n == 3 + level
  {
    if kind == Puzzle then 4 + level else 3 + level
  }

  /** Exactly one of the options is an accepted answer. */
  predicate OneAccepted<T>(options: seq<T>, accepted: set<T>) {
    && (exists i :: 0 <= i < |options| && options[i] in accepted)
    && (forall i, j ::
          0 <= i < |options| && 0 <= j < |options| && options[i] in accepted && options[j] in accepted
          ==> i == j)
  }

  /** A list whose first option is the only accepted one. */
  lemma OneAcceptedFirst<T>(options: seq<T>, accepted: set<T>)
    requires |options| > 0 && options[0] in accepted
    requires forall i :: 1 <= i < |options| ==> options[i] !in accepted
    ensures OneAccepted(options, accepted)
  {
  }

  /** What an answer did. */
  datatype Outcome =
    | Ignored                   // a disabled or absent option: nothing happens
    | Right(earned: int)        // the round is won with `earned` stars
    | Wrong(advanced: bool)     // a wrong answer; `advanced` when it ended the round

  class RoundGame<T(==)> {
    const kind: GameKind
    var stars: int
    var errors: nat
    var round: nat
    var totalRounds: nat
    var totalStars: nat
    var options: seq<T>
    var accepted: set<T>
    var disabled: set<T>
    /** Whether the current round is over (won, or lost after two strikes). */
    ghost var answered: bool
    /** `round` when the current round began. */
    ghost var roundStart: nat

    ghost predicate Valid()
      reads this
    {
      && stars == Penalty(errors)
      && round <= totalStars <= 3 * round
      && round <= totalRounds
      && Distinct(options)
      && OneAccepted(options, accepted)
      && round == roundStart + (if answered then 1 else 0)
      && (!answered ==>
            && roundStart < totalRounds
            && (forall x :: x in disabled ==> x !in accepted)
            && (TwoStrikes(kind) ==> errors < 2))
      && (answered ==> forall i :: 0 <= i < |options| && options[i] in accepted ==> options[i] in disabled)
      && (answered && TwoStrikes(kind) ==> forall i :: 0 <= i < |options| ==> options[i] in disabled)
    }

    constructor (kind: GameKind)
      ensures this.kind == kind && round == 0 && totalRounds == 5 && totalStars == 0
      ensures stars == 3 && errors == 0 && options == [] && accepted == {} && disabled == {}
    {
      this.kind := kind;
      stars := 3;
      errors := 0;
      round := 0;
      totalRounds := 5;
      totalStars := 0;
      options := [];
      accepted := {};
      disabled := {};
    }

    /** Starts a round with the given options: stars back to 3, errors to 0, nothing disabled. */
    method BeginRound(newOptions: seq<T>, newAccepted: set<T>)
      requires round <= totalStars <= 3 * round && round < totalRounds
      requires Distinct(newOptions) && OneAccepted(newOptions, newAccepted)
      modifies this
      ensures Valid() && !answered && roundStart == round
      ensures stars == 3 && errors == 0
      ensures options == newOptions && accepted == newAccepted && disabled == {}
      ensures round == old(round) && totalRounds == old(totalRounds) && totalStars == old(totalStars)
    {
      stars := 3;
      errors := 0;
      options := newOptions;
      accepted := newAccepted;
      disabled := {};
      answered := false;
      roundStart := round;
    }

    /** `init*Game`: a fresh game of `TotalRounds(kind, level)` rounds, then the first round. */
    method Init(level: nat, firstOptions: seq<T>, firstAccepted: set<T>)
      requires Distinct(firstOptions) && OneAccepted(firstOptions, firstAccepted)
      modifies this
      ensures Valid() && !answered
      ensures round == 0 && totalStars == 0 && totalRounds == TotalRounds(kind, level)
      ensures stars == 3 && errors == 0
      ensures options == firstOptions && accepted == firstAccepted && disabled == {}
    {
      stars := 3;
      errors := 0;
      round := 0;
      totalRounds := TotalRounds(kind, level);
      totalStars := 0;
      BeginRound(firstOptions, firstAccepted);
    }

    /** `next*Round`, run by the timer once a round is over: the final grade when every round
        has been played (and nothing changes), otherwise the next round. */
    method NextRound(newOptions: seq<T>, newAccepted: set<T>) returns (grade: Option<int>)
      requires Valid() && answered
      requires Distinct(newOptions) && OneAccepted(newOptions, newAccepted)
      modifies this
      ensures Valid()
      ensures old(round) >= old(totalRounds) ==>
                grade == Some(FinalStars(old(totalStars), old(totalRounds))) && unchanged(this)
      ensures old(round) < old(totalRounds) ==>
                && grade == None && !answered && roundStart == round
                && stars == 3 && errors == 0
                && options == newOptions && accepted == newAccepted && disabled == {}
                && round == old(round) && totalRounds == old(totalRounds)
                && totalStars == old(totalStars)
    {
      if round >= totalRounds {
        grade := Some(FinalStars(totalStars, totalRounds));
      } else {
        BeginRound(newOptions, newAccepted);
        grade := None;
      }
    }

    /** `checkColorMatch`, `checkNumberMatch`, `checkAnimalAnswer`, `checkPatternAnswer`: the
        player picks (clicks or drops) the option `choice`. */
    method Answer(choice: T) returns (outcome: Outcome)
      requires Valid()
      modifies this
      ensures Valid()
      ensures totalRounds == old(totalRounds) && options == old(options) && accepted == old(accepted)
      ensures choice !in old(options) || choice in old(disabled) ==>
                outcome == Ignored && unchanged(this)
      ensures choice in old(options) && choice !in old(disabled) && choice in accepted ==>
                && outcome == Right(old(stars))
                && round == old(round) + 1 && totalStars == old(totalStars) + old(stars)
                && errors == old(errors) && stars == old(stars)
                && disabled == (if TwoStrikes(kind) then set x | x in options
                                else old(disabled) + {choice})
      ensures choice in old(options) && choice !in old(disabled) && choice !in accepted ==>
                && errors == old(errors) + 1 && stars == Penalty(errors)
                && var advance := TwoStrikes(kind) && errors >= 2;
                   && outcome == Wrong(advance)
                   && (advance ==>
                         round == old(round) + 1 && totalStars == old(totalStars) + stars
                         && disabled == set x | x in options)
                   && (!advance ==>
                         round == old(round) && totalStars == old(totalStars)
                         && disabled == old(disabled) + {choice})
    {
      if choice !in options || choice in disabled {
        return Ignored;
      }
      if choice in accepted {
        assert !answered;
        totalStars := totalStars + stars;
        round := round + 1;
        if TwoStrikes(kind) {
          disabled := set x | x in options;
        } else {
          disabled := disabled + {choice};
        }
        answered := true;
        outcome := Right(stars);
      } else {
        errors := errors + 1;
        stars := Max(1, 3 - errors);
        disabled := disabled + {choice};
        if TwoStrikes(kind) && errors >= 2 {
          totalStars := totalStars + stars;
          round := round + 1;
          disabled := set x | x in options;
          answered := true;
          outcome := Wrong(true);
        } else {
          outcome := Wrong(false);
        }
      }
    }
  }

  /** Once a round is over, its accepted option cannot be picked again until the next round
      begins, so a round earns stars and counts at most once. */
  lemma RoundCountsOnce<T>(g: RoundGame<T>, choice: T)
    requires g.Valid() && g.answered
    ensures choice in g.accepted && choice in g.options ==> choice in g.disabled
  {
    if choice in g.accepted && choice in g.options {
      var i :| 0 <= i < |g.options| && g.options[i] == choice;
    }
  }

  /** While a round is open its accepted option can still be picked. */
  lemma RoundCanBeWon<T>(g: RoundGame<T>)
    requires g.Valid() && !g.answered
    ensures exists i :: 0 <= i < |g.options| && g.options[i] in g.accepted && g.options[i] !in g.disabled
  {
    var i :| 0 <= i < |g.options| && g.options[i] in g.accepted;
  }
}
