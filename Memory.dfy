/** The memory game of js/games.js: a deck holding two cards of each chosen emoji is dealt face
    down; the player turns cards up two at a time; two equal cards stay up as a matched pair,
    two different ones lock the board until a timer turns them back down. */
module Memory {
  import opened Common
  import opened Scoring
  import opened Shuffle

  /** `memoryEmojis`. */
  const MemoryEmojis: seq<string> :=
    ["🐶", "🐱", "🐰", "🦊", "🐻", "🐼", "🦁", "🐯", "🐮", "🐷", "🐸", "🐵"]

  lemma MemoryEmojisDistinct()
    ensures |MemoryEmojis| == 12 && Distinct(MemoryEmojis)
  {
    forall i, j | 0 <= i < j < |MemoryEmojis| ensures MemoryEmojis[i] != MemoryEmojis[j] {
      assert MemoryEmojis[i][0] != MemoryEmojis[j][0];
    }
  }

  /** `numPairs` for the player's age (`NaN` when it was not a number) at `level`:
      `min(2 + level, 4)` up to age 3, `min(3 + level, 6)` up to age 5, otherwise
      `min(4 + level, 8)`. Every comparison with `NaN` is false, so a `NaN` age gets the
      largest deck. */
  function NumPairs(age: Option<int>, level: nat): (n: nat)
    ensures 2 <= n <= 8
    ensures age.None? ==> n == Min(4 + level, 8)
  {
    if age.Some? && age.value <= 3 then Min(2 + level, 4)
    else if age.Some? && age.value <= 5 then Min(3 + level, 6)
    else Min(4 + level, 8)
  }

  /** Older players and higher levels never get fewer pairs. */
  lemma NumPairsMonotone(a1: Option<int>, a2: Option<int>, l1: nat, l2: nat)
    requires a1.Some? && a2.Some? && a1.value <= a2.value && l1 <= l2
    ensures NumPairs(a1, l1) <= NumPairs(a2, l2)
  {
  }

  /** The grid columns for `totalCards` cards: 2 up to 4 cards, 3 up to 9, otherwise 4. */
  function Columns(totalCards: nat): (cols: nat)
    ensures 2 <= cols <= 4
  {
    if totalCards <= 4 then 2 else if totalCards <= 9 then 3 else 4
  }

  /** The grid is the smallest square of 2, 3 or 4 columns that holds every card of a deck of
      at most 8 pairs. */
  lemma ColumnsSquare(totalCards: nat)
    requires totalCards <= 16
    ensures var c := Columns(totalCards);
            totalCards <= c * c && (c > 2 ==> (c - 1) * (c - 1) < totalCards)
  {
  }

  /** The deck `initMemoryGame` deals from `emojis`: `numPairs` emojis picked by
      `getRandomItems` (draws `pickDraws`), written twice and shuffled (draws `deckDraws`). */
  function PairDeck<T>(emojis: seq<T>, numPairs: nat, pickDraws: seq<nat>, deckDraws: seq<nat>): seq<T>
    requires numPairs <= |emojis| && ValidDraws(|emojis|, pickDraws)
    requires ValidDraws(2 * numPairs, deckDraws)
  {
    var selected := RandomItems(emojis, numPairs, pickDraws);
    RandomItemsFromArray(emojis, numPairs, pickDraws);
    Shuffled(selected + selected, deckDraws)
  }

  /** The deck has `2 * numPairs` cards, and every emoji appears on exactly two of them or on
      none; those that appear are among `emojis`. */
  lemma PairDeckHoldsPairs<T>(emojis: seq<T>, numPairs: nat, pickDraws: seq<nat>, deckDraws: seq<nat>)
    requires Distinct(emojis) && numPairs <= |emojis| && ValidDraws(|emojis|, pickDraws)
    requires ValidDraws(2 * numPairs, deckDraws)
    ensures var deck := PairDeck(emojis, numPairs, pickDraws, deckDraws);
            && |deck| == 2 * numPairs
            && (forall x :: multiset(deck)[x] == 0 || multiset(deck)[x] == 2)
            && |Elements(deck)| == numPairs
            && (forall x :: x in deck ==> x in emojis)
  {
    var selected := RandomItems(emojis, numPairs, pickDraws);
    RandomItemsFromArray(emojis, numPairs, pickDraws);
    var deck := PairDeck(emojis, numPairs, pickDraws, deckDraws);
    ShuffledPermutes(selected + selected, deckDraws);
    assert multiset(deck) == multiset(selected) + multiset(selected);
    DistinctIffSingleCounts(selected);
    forall x ensures multiset(deck)[x] == 0 || multiset(deck)[x] == 2 {
      assert multiset(deck)[x] == 2 * multiset(selected)[x];
    }
    forall x ensures x in deck <==> x in selected {
      assert x in deck <==> multiset(deck)[x] > 0;
      assert x in selected <==> multiset(selected)[x] > 0;
    }
    assert Elements(deck) == Elements(selected);
    DistinctCard(selected);
  }

  /** `initMemoryGame`'s dealing: `getRandomItems(emojis, numPairs)` and
      `shuffleArray([...selectedEmojis, ...selectedEmojis])`. */
  method DealPairs<T>(emojis: seq<T>, numPairs: nat, pickDraws: seq<nat>, deckDraws: seq<nat>)
    returns (cards: seq<T>)
    requires numPairs <= |emojis| && ValidDraws(|emojis|, pickDraws)
    requires ValidDraws(2 * numPairs, deckDraws)
    ensures cards == PairDeck(emojis, numPairs, pickDraws, deckDraws)
  {
    var selected := GetRandomItems(emojis, numPairs, pickDraws);
    RandomItemsFromArray(emojis, numPairs, pickDraws);
    cards := ShuffleArray(selected + selected, deckDraws);
  }

  /** The deck of `initMemoryGame` for a player of `age` at `level`. */
  function MemoryDeck(age: Option<int>, level: nat, pickDraws: seq<nat>, deckDraws: seq<nat>): seq<string>
    requires ValidDraws(|MemoryEmojis|, pickDraws)
    requires ValidDraws(2 * NumPairs(age, level), deckDraws)
  {
    PairDeck(MemoryEmojis, NumPairs(age, level), pickDraws, deckDraws)
  }

  /** `initMemoryGame`'s dealing for a player of `age` at `level`. */
  method NewDeck(age: Option<int>, level: nat, pickDraws: seq<nat>, deckDraws: seq<nat>)
    returns (cards: seq<string>)
    requires ValidDraws(|MemoryEmojis|, pickDraws)
    requires ValidDraws(2 * NumPairs(age, level), deckDraws)
    ensures cards == MemoryDeck(age, level, pickDraws, deckDraws)
    ensures |cards| == 2 * NumPairs(age, level)
  {
    var numPairs := NumPairs(age, level);
    MemoryEmojisDistinct();
    cards := DealPairs(MemoryEmojis, numPairs, pickDraws, deckDraws);
    PairDeckHoldsPairs(MemoryEmojis, numPairs, pickDraws, deckDraws);
  }

  /** What turning a card over did. */
  datatype Flip =
    | Ignored                 // the board is locked, or the card is up, matched, or two are up
    | FirstUp                 // the first card of a move is up
    | Matched(victory: bool)  // the second card matches the first; `victory` when it was the last pair
    | Mismatched              // the second card differs: the board locks until `HideMismatch`

  /** `memoryGameState`, together with the `flipped` and `matched` classes of the cards. */
  class MemoryGame {
    var cards: seq<string>
    /** Which cards show their face (the `flipped` class). */
    var faceUp: seq<bool>
    /** Which cards belong to a found pair (the `matched` class). */
    var matchedCard: seq<bool>
    /** The positions of the cards turned up in the current move, in order. */
    var flippedCards: seq<nat>
    var matchedPairs: nat
    var moves: nat
    var isLocked: bool

    /** At most two unmatched cards are up, and exactly those of the current move; the board
        is locked exactly while two different cards are up; every found pair is two matched
        cards. */
    ghost predicate Valid()
      reads this
    {
      && |faceUp| == |cards| && |matchedCard| == |cards| && |cards| % 2 == 0
      && |flippedCards| <= 2
      && (forall k :: 0 <= k < |flippedCards| ==>
            flippedCards[k] < |cards| && faceUp[flippedCards[k]] && !matchedCard[flippedCards[k]])
      && (|flippedCards| == 2 ==> flippedCards[0] != flippedCards[1])
      && (forall i :: 0 <= i < |cards| && matchedCard[i] ==> faceUp[i])
      && (forall i :: 0 <= i < |cards| && faceUp[i] && !matchedCard[i] ==> i in flippedCards)
      && CountTrue(matchedCard) == 2 * matchedPairs
      && (isLocked <==> |flippedCards| == 2)
      && (isLocked ==> cards[flippedCards[0]] != cards[flippedCards[1]])
    }

    constructor ()
      ensures Valid() && cards == [] && !isLocked
      ensures faceUp == [] && matchedCard == [] && flippedCards == [] && matchedPairs == 0 && moves == 0
    {
      cards := [];
      faceUp := [];
      matchedCard := [];
      flippedCards := [];
      matchedPairs := 0;
      moves := 0;
      isLocked := false;
    }

    /** `initMemoryGame` for a player of `age` at `level`: the deck of `PairDeck`, every card
        face down, no pair found, no move made, unlocked. */
    method Init(age: Option<int>, level: nat, pickDraws: seq<nat>, deckDraws: seq<nat>)
      requires ValidDraws(|MemoryEmojis|, pickDraws)
      requires ValidDraws(2 * NumPairs(age, level), deckDraws)
      modifies this
      ensures Valid()
      ensures cards == MemoryDeck(age, level, pickDraws, deckDraws)
      ensures faceUp == AllFalse(|cards|) && matchedCard == AllFalse(|cards|)
      ensures flippedCards == [] && matchedPairs == 0 && moves == 0 && !isLocked
    {
      var deck := NewDeck(age, level, pickDraws, deckDraws);
      cards := deck;
      matchedPairs := 0;
      moves := 0;
      flippedCards := [];
      isLocked := false;
      faceUp := AllFalse(|cards|);
      matchedCard := AllFalse(|cards|);
    }

    /** `flipCard` on card `i`, with `checkMemoryMatch` when it is the second card of a move:
        nothing happens while the board is locked, on a card that is up or matched, or with
        two cards up; otherwise the card turns up; a second card counts a move and either
        matches the first (both become a found pair and the board stays open) or locks the
        board. */
    method FlipCard(i: nat) returns (outcome: Flip)
      requires Valid() && i < |cards|
      modifies this
      ensures Valid()
      ensures cards == old(cards)
      ensures old(isLocked || faceUp[i] || matchedCard[i] || |flippedCards| >= 2) ==>
                outcome == Ignored && unchanged(this)
      ensures !old(isLocked || faceUp[i] || matchedCard[i] || |flippedCards| >= 2) ==>
                faceUp == old(faceUp)[i := true]
      ensures !old(isLocked || faceUp[i] || matchedCard[i] || |flippedCards| >= 2) && old(flippedCards) == [] ==>
                && outcome == FirstUp && flippedCards == [i]
                && matchedCard == old(matchedCard) && matchedPairs == old(matchedPairs)
                && moves == old(moves) && !isLocked
      ensures !old(isLocked || faceUp[i] || matchedCard[i] || |flippedCards| >= 2) && |old(flippedCards)| == 1 ==>
                var j := old(flippedCards)[0];
                && moves == old(moves) + 1
                && (cards[j] == cards[i] ==>
                      && outcome == Matched(matchedPairs == |cards| / 2)
                      && matchedCard == old(matchedCard)[j := true][i := true]
                      && matchedPairs == old(matchedPairs) + 1
                      && flippedCards == [] && !isLocked)
                && (cards[j] != cards[i] ==>
                      && outcome == Mismatched
                      && matchedCard == old(matchedCard) && matchedPairs == old(matchedPairs)
                      && flippedCards == [j, i] && isLocked)
    {
      if isLocked || faceUp[i] || matchedCard[i] || |flippedCards| >= 2 {
        return Ignored;
      }
      faceUp := faceUp[i := true];
      flippedCards := flippedCards + [i];
      if |flippedCards| == 2 {
        moves := moves + 1;
        outcome := CheckMatch();
      } else {
        outcome := FirstUp;
      }
    }

    /** `checkMemoryMatch`, once the second card of a move is up. */
    method CheckMatch() returns (outcome: Flip)
      requires |faceUp| == |cards| && |matchedCard| == |cards| && |cards| % 2 == 0
      requires |flippedCards| == 2 && flippedCards[0] != flippedCards[1]
      requires forall k :: 0 <= k < 2 ==>
                 flippedCards[k] < |cards| && faceUp[flippedCards[k]] && !matchedCard[flippedCards[k]]
      requires forall i :: 0 <= i < |cards| && matchedCard[i] ==> faceUp[i]
      requires forall i :: 0 <= i < |cards| && faceUp[i] && !matchedCard[i] ==> i in flippedCards
      requires CountTrue(matchedCard) == 2 * matchedPairs
      modifies this
      ensures Valid()
      ensures cards == old(cards) && faceUp == old(faceUp) && moves == old(moves)
      ensures var j, i := old(flippedCards)[0], old(flippedCards)[1];
              && (cards[j] == cards[i] ==>
                    && outcome == Matched(matchedPairs == |cards| / 2)
                    && matchedCard == old(matchedCard)[j := true][i := true]
                    && matchedPairs == old(matchedPairs) + 1
                    && flippedCards == [] && !isLocked)
              && (cards[j] != cards[i] ==>
                    && outcome == Mismatched
                    && matchedCard == old(matchedCard) && matchedPairs == old(matchedPairs)
                    && flippedCards == old(flippedCards) && isLocked)
    {
      var card1, card2 := flippedCards[0], flippedCards[1];
      isLocked := true;
      if cards[card1] == cards[card2] {
        CountTrueSet(matchedCard, card1);
        matchedCard := matchedCard[card1 := true];
        CountTrueSet(matchedCard, card2);
        matchedCard := matchedCard[card2 := true];
        matchedPairs := matchedPairs + 1;
        flippedCards := [];
        isLocked := false;
        outcome := Matched(matchedPairs == |cards| / 2);
      } else {
        outcome := Mismatched;
      }
    }

    /** The timer set by a mismatch: both cards turn face down again and the board unlocks. */
    method HideMismatch()
      requires Valid() && isLocked
      modifies this
      ensures Valid() && !isLocked && flippedCards == []
      ensures var j, i := old(flippedCards)[0], old(flippedCards)[1];
              faceUp == old(faceUp)[j := false][i := false]
      ensures cards == old(cards) && matchedCard == old(matchedCard)
      ensures matchedPairs == old(matchedPairs) && moves == old(moves)
    {
      var card1, card2 := flippedCards[0], flippedCards[1];
      faceUp := faceUp[card1 := false][card2 := false];
      flippedCards := [];
      isLocked := false;
    }
  }

  /** When every pair has been found, every card is matched and face up: victory is announced
      exactly when the board is cleared. */
  lemma VictoryClearsBoard(g: MemoryGame)
    requires g.Valid()
    ensures g.matchedPairs == |g.cards| / 2 <==>
              forall i :: 0 <= i < |g.cards| ==> g.matchedCard[i] && g.faceUp[i]
  {
    CountTrueAll(g.matchedCard);
  }

  /** While the board is open no two unmatched cards are up, so a move in progress shows at
      most one card. */
  lemma OpenBoardShowsOneCard(g: MemoryGame, i: nat, j: nat)
    requires g.Valid() && !g.isLocked
    requires i < |g.cards| && j < |g.cards|
    requires g.faceUp[i] && !g.matchedCard[i] && g.faceUp[j] && !g.matchedCard[j]
    ensures i == j
  {
  }
}
