/** The shapes game of js/games.js: shape pieces are dragged onto targets showing the same
    shape. A level picks the targets and some distractor pieces from the shapes its level
    makes available; a drop fills every open target under the drop point that shows the
    piece's shape and costs a star for every open target under it that shows another shape. */
module Shapes {
  import opened Common
  import opened Scoring
  import opened Shuffle

  datatype ShapeItem = ShapeItem(shape: string, name: string)

  /** `allShapes`, from the easiest to the hardest. */
  const AllShapes: seq<ShapeItem> := [
    ShapeItem("🔵", "círculo"),
    ShapeItem("🟥", "quadrado"),
    ShapeItem("🔺", "triângulo"),
    ShapeItem("⭐", "estrela"),
    ShapeItem("💜", "coração"),
    ShapeItem("🔷", "losango"),
    ShapeItem("⬛", "retângulo"),
    ShapeItem("⬡", "hexágono"),
    ShapeItem("🔶", "laranja"),
    ShapeItem("💠", "diamante"),
    ShapeItem("🔻", "triângulo invertido"),
    ShapeItem("⭕", "anel")
  ]

  /** `TOTAL_SHAPE_LEVELS`. */
  const TotalShapeLevels: nat := 10

  /** No two items show the same shape. */
  predicate DistinctShapes(items: seq<ShapeItem>) {
    forall i, j :: 0 <= i < j < |items| ==> items[i].shape != items[j].shape
  }

  lemma AllShapesDistinct()
    ensures DistinctShapes(AllShapes) && Distinct(AllShapes)
  {
    forall i, j | 0 <= i < j < |AllShapes| ensures AllShapes[i].shape != AllShapes[j].shape {
      assert AllShapes[i].shape[0] != AllShapes[j].shape[0];
    }
  }

  /** Items with distinct shapes are distinct, and so are the items of any part of them. */
  lemma DistinctShapesSub(items: seq<ShapeItem>, sub: seq<ShapeItem>)
    requires DistinctShapes(items) && Distinct(sub)
    requires forall x :: x in sub ==> x in items
    ensures DistinctShapes(sub)
  {
    forall i, j | 0 <= i < j < |sub| ensures sub[i].shape != sub[j].shape {
      assert sub[i] in items && sub[j] in items;
      var a :| 0 <= a < |items| && items[a] == sub[i];
      var b :| 0 <= b < |items| && items[b] == sub[j];
      assert a != b;
    }
  }

  /** `numTargets` and `numOptions` of a level: 2 targets among 3 pieces at levels 1-2, 3 of 4 at
      3-4, 3 of 5 at 5-6, 4 of 6 at 7-8, 4 of 7 from level 9. */
  function Difficulty(level: nat): (d: (nat, nat))
    ensures 2 <= d.0 <= 4 && d.0 < d.1 <= 7
    ensures d.0 == (if level <= 2 then 2 else if level <= 6 then 3 else 4)
    ensures d.1 - d.0 == (if level <= 4 then 1 else if level <= 8 then 2 else 3)
  {
    if level <= 2 then (2, 3)
    else if level <= 4 then (3, 4)
    else if level <= 6 then (3, 5)
    else if level <= 8 then (4, 6)
    else (4, 7)
  }

  /** Higher levels never have fewer targets or fewer pieces. */
  lemma DifficultyMonotone(l1: nat, l2: nat)
    requires l1 <= l2
    ensures Difficulty(l1).0 <= Difficulty(l2).0 && Difficulty(l1).1 <= Difficulty(l2).1
  {
  }

  /** How many shapes a level offers: `Math.min(3 + level, allShapes.length)`. */
  function AvailableCount(level: nat): (n: nat)
    ensures 3 <= n <= 12
    ensures level >= 9 ==> n == 12
  {
    Min(3 + level, |AllShapes|)
  }

  /** `allShapes.slice(0, Math.min(3 + level, allShapes.length))`. */
  function AvailableShapes(level: nat): (a: seq<ShapeItem>)
    ensures |a| == AvailableCount(level)
  {
    AllShapes[..AvailableCount(level)]
  }

  /** A level offers at least as many shapes as it has pieces, so it never runs short of
      targets or of distractors; the shapes it offers are all different. */
  lemma AvailableShapesEnough(level: nat)
    ensures AvailableCount(level) >= Difficulty(level).1
    ensures Distinct(AvailableShapes(level)) && DistinctShapes(AvailableShapes(level))
  {
    AllShapesDistinct();
  }

  /** What a level deals: the targets, the extra (distractor) pieces, and all the pieces in the
      order they are shown. */
  datatype Deal = Deal(targets: seq<ShapeItem>, extras: seq<ShapeItem>, pieces: seq<ShapeItem>)

  /** The deal of `initShapesGame` from the shapes `available`, for the given draws of
      `getRandomItems` (targets, then extras) and of `shuffleArray` (pieces). */
  function DealOf(available: seq<ShapeItem>, numTargets: nat, numOptions: nat,
                  targetDraws: seq<nat>, extraDraws: seq<nat>, pieceDraws: seq<nat>): Deal
    requires Distinct(available) && numTargets <= numOptions <= |available|
    requires ValidDraws(|available|, targetDraws)
    requires ValidDraws(|available| - numTargets, extraDraws)
    requires ValidDraws(numOptions, pieceDraws)
  {
    var targets := RandomItems(available, numTargets, targetDraws);
    RandomItemsFromArray(available, numTargets, targetDraws);
    WithoutCount(available, targets);
    var distractors := Without(available, targets);
    var extras := RandomItems(distractors, Min(numOptions - numTargets, |distractors|), extraDraws);
    RandomItemsFromArray(distractors, Min(numOptions - numTargets, |distractors|), extraDraws);
    Deal(targets, extras, Shuffled(targets + extras, pieceDraws))
  }

  /** The deal of a level. */
  function LevelDeal(level: nat, targetDraws: seq<nat>, extraDraws: seq<nat>, pieceDraws: seq<nat>): Deal
    requires ValidDraws(AvailableCount(level), targetDraws)
    requires ValidDraws(AvailableCount(level) - Difficulty(level).0, extraDraws)
    requires ValidDraws(Difficulty(level).1, pieceDraws)
  {
    AvailableShapesEnough(level);
    DealOf(AvailableShapes(level), Difficulty(level).0, Difficulty(level).1, targetDraws, extraDraws, pieceDraws)
  }

  /** A deal has `numTargets` different targets and `numOptions - numTargets` extras that are
      not targets; its pieces are those, all different, each shown once. */
  lemma DealOfParts(available: seq<ShapeItem>, numTargets: nat, numOptions: nat,
                    targetDraws: seq<nat>, extraDraws: seq<nat>, pieceDraws: seq<nat>)
    requires Distinct(available) && numTargets <= numOptions <= |available|
    requires ValidDraws(|available|, targetDraws)
    requires ValidDraws(|available| - numTargets, extraDraws)
    requires ValidDraws(numOptions, pieceDraws)
    ensures var d := DealOf(available, numTargets, numOptions, targetDraws, extraDraws, pieceDraws);
            && |d.targets| == numTargets && |d.extras| == numOptions - numTargets
            && |d.pieces| == numOptions && Distinct(d.pieces) && Distinct(d.targets)
            && (forall x :: x in d.extras ==> x !in d.targets)
            && (forall x :: x in d.pieces <==> x in d.targets || x in d.extras)
            && (forall x :: x in d.pieces ==> x in available)
  {
    var d := DealOf(available, numTargets, numOptions, targetDraws, extraDraws, pieceDraws);
    RandomItemsFromArray(available, numTargets, targetDraws);
    WithoutCount(available, d.targets);
    var distractors := Without(available, d.targets);
    WithoutDistinct(available, d.targets);
    RandomItemsFromArray(distractors, Min(numOptions - numTargets, |distractors|), extraDraws);
    ShapeOptions(available, d.targets, distractors, d.extras);
    ShuffledSameElements(d.targets + d.extras, pieceDraws);
  }

  /** A level deals `numTargets` targets showing different shapes and `numOptions` different
      pieces, among them every target, all from the shapes the level offers. */
  lemma LevelDealParts(level: nat, targetDraws: seq<nat>, extraDraws: seq<nat>, pieceDraws: seq<nat>)
    requires ValidDraws(AvailableCount(level), targetDraws)
    requires ValidDraws(AvailableCount(level) - Difficulty(level).0, extraDraws)
    requires ValidDraws(Difficulty(level).1, pieceDraws)
    ensures var d := LevelDeal(level, targetDraws, extraDraws, pieceDraws);
            && |d.targets| == Difficulty(level).0 && DistinctShapes(d.targets)
            && |d.pieces| == Difficulty(level).1 && Distinct(d.pieces)
            && (forall t :: 0 <= t < |d.targets| ==> d.targets[t] in d.pieces)
            && (forall x :: x in d.pieces ==> x in AvailableShapes(level))
  {
    var available := AvailableShapes(level);
    AvailableShapesEnough(level);
    var (numTargets, numOptions) := Difficulty(level);
    DealOfParts(available, numTargets, numOptions, targetDraws, extraDraws, pieceDraws);
    var d := LevelDeal(level, targetDraws, extraDraws, pieceDraws);
    DistinctShapesSub(available, d.targets);
    forall t | 0 <= t < |d.targets| ensures d.targets[t] in d.pieces {
      assert d.targets[t] in d.targets;
    }
  }

  /** Removing `k` distinct values that all occur in a repetition-free list leaves `|s| - k`
      entries. */
  lemma WithoutCount<T(!new)>(s: seq<T>, excluded: seq<T>)
    requires Distinct(s) && Distinct(excluded)
    requires forall x :: x in excluded ==> x in s
    ensures |Without(s, excluded)| == |s| - |excluded|
  {
    var w := Without(s, excluded);
    WithoutDistinct(s, excluded);
    DistinctCard(s);
    DistinctCard(excluded);
    DistinctCard(w);
    assert Elements(s) == Elements(w) + Elements(excluded);
    assert Elements(w) * Elements(excluded) == {};
  }

  /** Whether the open target `t` is under the drop point and shows another shape. */
  predicate WrongHit(filled: seq<bool>, targets: seq<ShapeItem>, hits: seq<bool>, shape: string, t: nat)
    requires t < |filled| == |targets| == |hits|
  {
    !filled[t] && hits[t] && targets[t].shape != shape
  }

  /** The number of wrong hits among the first `n` targets. */
  function WrongHits(filled: seq<bool>, targets: seq<ShapeItem>, hits: seq<bool>, shape: string, n: nat): (k: nat)
    requires n <= |filled| == |targets| == |hits|
    ensures k <= n
    ensures k == 0 <==> forall t :: 0 <= t < n ==> !WrongHit(filled, targets, hits, shape, t)
  {
    if n == 0 then 0
    else WrongHits(filled, targets, hits, shape, n - 1) + (if WrongHit(filled, targets, hits, shape, n - 1) then 1 else 0)
  }

  /** The targets that are filled after dropping a piece showing `shape`: those filled before
      and the open ones under the drop point that show the same shape. */
  function DropFills(filled: seq<bool>, targets: seq<ShapeItem>, hits: seq<bool>, shape: string): (r: seq<bool>)
    requires |filled| == |targets| == |hits|
    ensures |r| == |filled|
  {
    seq(|filled|, t requires 0 <= t < |filled| => filled[t] || (hits[t] && targets[t].shape == shape))
  }

  /** A drop never empties a target, fills only targets showing the dropped shape, and, the
      targets showing distinct shapes, fills at most one. */
  lemma DropFillsAtMostOne(filled: seq<bool>, targets: seq<ShapeItem>, hits: seq<bool>, shape: string)
    requires |filled| == |targets| == |hits| && DistinctShapes(targets)
    ensures var r := DropFills(filled, targets, hits, shape);
            && (forall t :: 0 <= t < |filled| && filled[t] ==> r[t])
            && (forall t :: 0 <= t < |filled| && r[t] && !filled[t] ==> targets[t].shape == shape)
            && (forall t, u ::
                  0 <= t < |filled| && 0 <= u < |filled| && r[t] && !filled[t] && r[u] && !filled[u]
                  ==> t == u)
            && CountTrue(filled) <= CountTrue(r) <= CountTrue(filled) + 1
  {
    var r := DropFills(filled, targets, hits, shape);
    if r != filled {
      var t :| 0 <= t < |filled| && r[t] != filled[t];
      assert r == filled[t := true];
      CountTrueSet(filled, t);
    }
  }

  /** The loop over the open targets when a piece showing `shape` is dropped over the
      targets marked in `hits`, on the state `filled`, `matched`, `errors`, `stars`: it fills
      the matching targets, counts the wrong ones, and reports whether the piece was `placed`
      and whether this drop announced the `victory`. */
  method DropOnTargets(targets: seq<ShapeItem>, filled: seq<bool>, matched: nat, errors: nat, stars: int,
                       hits: seq<bool>, shape: string)
    returns (newFilled: seq<bool>, newMatched: nat, newErrors: nat, newStars: int, placed: bool, victory: bool)
    requires |filled| == |targets| == |hits|
    requires matched == CountTrue(filled) && stars == Penalty(errors)
    ensures newFilled == DropFills(filled, targets, hits, shape)
    ensures newMatched == CountTrue(newFilled) && newStars == Penalty(newErrors)
    ensures newErrors == errors + WrongHits(filled, targets, hits, shape, |targets|)
    ensures placed <==> newFilled != filled
    ensures victory <==> placed && newMatched == |targets|
  {
    newFilled, newMatched, newErrors, newStars := filled, matched, errors, stars;
    placed, victory := false, false;
    var t := 0;
    while t < |targets|
      invariant 0 <= t <= |targets| && |newFilled| == |targets|
      invariant forall k :: 0 <= k < t ==> newFilled[k] == DropFills(filled, targets, hits, shape)[k]
      invariant forall k :: t <= k < |targets| ==> newFilled[k] == filled[k]
      invariant newMatched == CountTrue(newFilled) && newStars == Penalty(newErrors)
      invariant newErrors == errors + WrongHits(filled, targets, hits, shape, t)
      invariant placed <==> newFilled != filled
      invariant victory <==> placed && newMatched == |targets|
    {
      if !newFilled[t] && hits[t] {
        if targets[t].shape == shape {
          CountTrueSet(newFilled, t);
          newFilled := newFilled[t := true];
          assert newFilled[t] != filled[t];
          placed := true;
          newMatched := newMatched + 1;
          if newMatched == |targets| {
            victory := true;
          }
        } else {
          newErrors := newErrors + 1;
          newStars := Max(1, 3 - newErrors);
        }
      }
      t := t + 1;
    }
    assert newFilled == DropFills(filled, targets, hits, shape);
  }

  /** `shapesGameState` together with the pieces on the page. */
  class ShapesGame {
    var targets: seq<ShapeItem>
    /** Which targets are filled (the `filled` class). */
    var filled: seq<bool>
    var pieces: seq<ShapeItem>
    /** Which pieces have been placed (the `matched` class); they can no longer be dragged. */
    var pieceMatched: seq<bool>
    var matched: nat
    var errors: nat
    var stars: int

    ghost predicate Valid()
      reads this
    {
      && |filled| == |targets| && |pieceMatched| == |pieces|
      && matched == CountTrue(filled)
      && stars == Penalty(errors)
      && DistinctShapes(targets)
    }

    constructor ()
      ensures Valid() && targets == [] && pieces == []
      ensures filled == [] && pieceMatched == [] && matched == 0 && errors == 0 && stars == 3
    {
      targets := [];
      filled := [];
      pieces := [];
      pieceMatched := [];
      matched := 0;
      errors := 0;
      stars := 3;
    }

    /** `initShapesGame` at `level`: `complete` past the last level (and nothing changes);
        otherwise `numTargets` targets, their pieces and `numOptions - numTargets` distractor
        pieces, shuffled, with no target filled and 3 stars. */
    method Init(level: nat, targetDraws: seq<nat>, extraDraws: seq<nat>, pieceDraws: seq<nat>)
      returns (complete: bool)
      requires Valid()
      requires ValidDraws(AvailableCount(level), targetDraws)
      requires ValidDraws(AvailableCount(level) - Difficulty(level).0, extraDraws)
      requires ValidDraws(Difficulty(level).1, pieceDraws)
      modifies this
      ensures Valid()
      ensures complete <==> level > TotalShapeLevels
      ensures complete ==> unchanged(this)
      ensures !complete ==>
                var d := LevelDeal(level, targetDraws, extraDraws, pieceDraws);
                && targets == d.targets && pieces == d.pieces
                && filled == AllFalse(|targets|) && pieceMatched == AllFalse(|pieces|)
                && matched == 0 && errors == 0 && stars == 3
    {
      if level > TotalShapeLevels {
        return true;
      }
      targets, pieces := DealLevel(level, targetDraws, extraDraws, pieceDraws);
      matched := 0;
      errors := 0;
      stars := 3;
      filled := AllFalse(|targets|);
      pieceMatched := AllFalse(|pieces|);
      complete := false;
    }

    /** Dropping piece `p` at a point over the targets marked in `hits` (the drop handler of
        `handleShapeTouchEnd` and `handleShapeMouseDown`): a placed piece cannot be dragged and
        changes nothing; otherwise every open target under the point that shows the piece's
        shape is filled and the piece is placed, and every other open target under the point
        counts an error. `victory` is announced by the drop that fills the last target. */
    method Drop(p: nat, hits: seq<bool>) returns (victory: bool)
      requires Valid() && p < |pieces| && |hits| == |targets|
      modifies this
      ensures Valid()
      ensures targets == old(targets) && pieces == old(pieces)
      ensures old(pieceMatched)[p] ==> unchanged(this) && !victory
      ensures !old(pieceMatched)[p] ==>
                var shape := pieces[p].shape;
                && filled == DropFills(old(filled), targets, hits, shape)
                && errors == old(errors) + WrongHits(old(filled), targets, hits, shape, |targets|)
                && pieceMatched == old(pieceMatched)[p := filled != old(filled)]
                && (victory <==> filled != old(filled) && matched == |targets|)
    {
      if pieceMatched[p] {
        return false;
      }
      var placed;
      filled, matched, errors, stars, placed, victory :=
        DropOnTargets(targets, filled, matched, errors, stars, hits, pieces[p].shape);
      pieceMatched := pieceMatched[p := placed];
    }
  }

  /** The dealing part of `initShapesGame` on the shapes `available` at a level: the targets
      (`getRandomItems(availableShapes, numTargets)`), the extras taken from the available
      shapes that are not targets, and the shuffled pieces. */
  method DealShapes(available: seq<ShapeItem>, numTargets: nat, numOptions: nat,
                    targetDraws: seq<nat>, extraDraws: seq<nat>, pieceDraws: seq<nat>)
    returns (targets: seq<ShapeItem>, extras: seq<ShapeItem>, pieces: seq<ShapeItem>)
    requires Distinct(available) && numTargets <= numOptions <= |available|
    requires ValidDraws(|available|, targetDraws)
    requires ValidDraws(|available| - numTargets, extraDraws)
    requires ValidDraws(numOptions, pieceDraws)
    ensures Deal(targets, extras, pieces)
              == DealOf(available, numTargets, numOptions, targetDraws, extraDraws, pieceDraws)
  {
    targets := GetRandomItems(available, numTargets, targetDraws);
    RandomItemsFromArray(available, numTargets, targetDraws);
    WithoutCount(available, targets);
    var distractors := Without(available, targets);
    var extraCount := numOptions - numTargets;
    extras := GetRandomItems(distractors, Min(extraCount, |distractors|), extraDraws);
    RandomItemsFromArray(distractors, Min(extraCount, |distractors|), extraDraws);
    pieces := ShuffleArray(targets + extras, pieceDraws);
  }

  /** The targets and the pieces `initShapesGame` deals at `level`. */
  method DealLevel(level: nat, targetDraws: seq<nat>, extraDraws: seq<nat>, pieceDraws: seq<nat>)
    returns (targets: seq<ShapeItem>, pieces: seq<ShapeItem>)
    requires ValidDraws(AvailableCount(level), targetDraws)
    requires ValidDraws(AvailableCount(level) - Difficulty(level).0, extraDraws)
    requires ValidDraws(Difficulty(level).1, pieceDraws)
    ensures var d := LevelDeal(level, targetDraws, extraDraws, pieceDraws);
            targets == d.targets && pieces == d.pieces && DistinctShapes(targets)
  {
    var (numTargets, numOptions) := Difficulty(level);
    var available := AvailableShapes(level);
    AvailableShapesEnough(level);
    var extras;
    targets, extras, pieces :=
      DealShapes(available, numTargets, numOptions, targetDraws, extraDraws, pieceDraws);
    LevelDealParts(level, targetDraws, extraDraws, pieceDraws);
  }

  /** The targets followed by the extras are distinct available shapes. */
  lemma ShapeOptions(available: seq<ShapeItem>, targets: seq<ShapeItem>, distractors: seq<ShapeItem>,
                     extras: seq<ShapeItem>)
    requires Distinct(targets) && Distinct(extras)
    requires forall x :: x in targets ==> x in available
    requires distractors == Without(available, targets)
    requires multiset(extras) <= multiset(distractors)
    ensures Distinct(targets + extras)
    ensures forall x :: x in targets + extras ==> x in available
  {
    forall x | x in extras ensures x in distractors {
      assert multiset(extras)[x] > 0;
    }
    var all := targets + extras;
    forall i, j | 0 <= i < j < |all| ensures all[i] != all[j] {
      if j < |targets| {
        assert all[i] == targets[i] && all[j] == targets[j];
      } else if i < |targets| {
        var e := extras[j - |targets|];
        assert all[i] == targets[i] && all[j] == e;
        assert e in extras;
        assert e in distractors && e !in targets;
      } else {
        assert all[i] == extras[i - |targets|] && all[j] == extras[j - |targets|];
      }
    }
  }
}
