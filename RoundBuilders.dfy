/** How `nextColorRound`, `nextNumberRound`, `nextAnimalRound` and `nextPatternRound` of
    js/games.js choose the options of a round. Every `Math.random()` choice is a parameter: an
    index below the length it scales, or the draws of `shuffleArray`. */
module RoundBuilders {
  import opened Common
  import opened Shuffle
  import opened Rounds

  // ----- the options loop shared by the numbers and pattern games -----

  /** The options the loop `while (options.length < 3) { ... if (!options.includes(rand))
      options.push(rand); }` ends with when the random values drawn are `candidates`, in order. */
  function Grow<T(==)>(options: seq<T>, candidates: seq<T>): seq<T>
    decreases |candidates|
  {
    if |options| >= 3 || candidates == [] then options
    else Grow(if candidates[0] in options then options else options + [candidates[0]], candidates[1..])
  }

  /** The loop keeps its first options, never repeats a value and takes values only from the
      candidates. */
  lemma {:induction false} GrowKeeps<T>(options: seq<T>, candidates: seq<T>)
    requires Distinct(options)
    ensures var r := Grow(options, candidates);
            && Distinct(r)
            && |options| <= |r| && r[..|options|] == options
            && Elements(r) <= Elements(options) + Elements(candidates)
    decreases |candidates|
  {
    if |options| < 3 && candidates != [] {
      var c := candidates[0];
      var next := if c in options then options else options + [c];
      assert Elements(next) + Elements(candidates[1..]) <= Elements(options) + Elements(candidates);
      GrowKeeps(next, candidates[1..]);
      var r := Grow(next, candidates[1..]);
      assert r[..|options|] == next[..|options|];
    }
  }

  /** The loop stops at three options, or earlier only when the candidates hold no further new
      value. */
  lemma {:induction false} GrowLength<T>(options: seq<T>, candidates: seq<T>)
    requires Distinct(options) && |options| <= 3
    ensures |Grow(options, candidates)| == Min(3, |Elements(options) + Elements(candidates)|)
    decreases |candidates|
  {
    var all := Elements(options) + Elements(candidates);
    DistinctCard(options);
    if |options| >= 3 {
      assert all == Elements(options) + (all - Elements(options));
    } else if candidates == [] {
      assert all == Elements(options);
    } else {
      var c := candidates[0];
      var next := if c in options then options else options + [c];
      assert candidates == [c] + candidates[1..];
      assert Elements(next) + Elements(candidates[1..]) == all;
      assert Distinct(next);
      GrowLength(next, candidates[1..]);
    }
  }

  /** The options loop of `nextNumberRound` and `nextPatternRound`, starting from `[first]`.
      Draws repeat at random, so the loop ends only once three different values have come up:
      the candidates must hold them. */
  method GrowDistinct<T(==)>(first: T, candidates: seq<T>) returns (options: seq<T>)
    requires |Elements([first]) + Elements(candidates)| >= 3
    ensures options == Grow([first], candidates)
    ensures |options| == 3 && Distinct(options) && options[0] == first
    ensures forall x :: x in options ==> x == first || x in candidates
  {
    GrowLength([first], candidates);
    GrowKeeps([first], candidates);
    options := [first];
    var k := 0;
    while |options| < 3
      invariant 0 <= k <= |candidates|
      invariant Distinct(options) && |options| <= 3
      invariant Grow(options, candidates[k..]) == Grow([first], candidates)
      decreases |candidates| - k
    {
      var rand := candidates[k];
      assert candidates[k..] == [rand] + candidates[k + 1..];
      if rand !in options {
        options := options + [rand];
      }
      k := k + 1;
    }
    assert options[..1] == [first];
    forall x | x in options ensures x == first || x in candidates {
      assert x in Elements(options);
    }
  }

  // ----- the order the options are shown in -----

  /** `shuffleArray(options)` before the options are put on the page: the same options, still
      all different, still with exactly one accepted answer. */
  method ShowOptions<T(==)>(options: seq<T>, accepted: set<T>, draws: seq<nat>) returns (shown: seq<T>)
    requires Distinct(options) && OneAccepted(options, accepted) && ValidDraws(|options|, draws)
    ensures shown == Shuffled(options, draws)
    ensures multiset(shown) == multiset(options)
    ensures Distinct(shown) && OneAccepted(shown, accepted)
  {
    shown := ShuffleArray(options, draws);
    ShuffledPermutes(options, draws);
    ShuffledKeepsOneAccepted(options, accepted, draws);
  }

  /** Shuffling a list of different options keeps exactly one of them accepted. */
  lemma ShuffledKeepsOneAccepted<T>(options: seq<T>, accepted: set<T>, draws: seq<nat>)
    requires Distinct(options) && OneAccepted(options, accepted) && ValidDraws(|options|, draws)
    ensures Distinct(Shuffled(options, draws)) && OneAccepted(Shuffled(options, draws), accepted)
  {
    var shown := Shuffled(options, draws);
    ShuffledSameElements(options, draws);
    var a :| 0 <= a < |options| && options[a] in accepted;
    assert options[a] in shown;
    var i :| 0 <= i < |shown| && shown[i] == options[a];
    forall i, j | 0 <= i < |shown| && 0 <= j < |shown| && shown[i] in accepted && shown[j] in accepted
      ensures i == j
    {
      assert shown[i] in options && shown[j] in options;
      var a :| 0 <= a < |options| && options[a] == shown[i];
      var b :| 0 <= b < |options| && options[b] == shown[j];
    }
  }

  // ----- colours -----

  datatype ColorItem = ColorItem(color: string, name: string)

  /** `colorsData`. */
  const ColorsData: seq<ColorItem> := [
    ColorItem("#FF0000", "vermelho"),
    ColorItem("#00CC00", "verde"),
    ColorItem("#0066FF", "azul"),
    ColorItem("#FFDD00", "amarelo"),
    ColorItem("#FF00FF", "rosa"),
    ColorItem("#FF8800", "laranja")
  ]

  lemma ColorsDataDistinct()
    ensures Distinct(ColorsData)
  {
    forall i, j | 0 <= i < j < |ColorsData| ensures ColorsData[i] != ColorsData[j] {
      assert ColorsData[i].color[3] != ColorsData[j].color[3] || ColorsData[i].color[5] != ColorsData[j].color[5];
    }
  }

  /** A colour round: three different colours (`getRandomItems(colorsData, 3)`) and the one at
      index `pick` as the target. */
  method ColorRound(draws: seq<nat>, pick: nat) returns (options: seq<ColorItem>, target: ColorItem)
    requires ValidDraws(|ColorsData|, draws) && pick < 3
    ensures |options| == 3 && options == RandomItems(ColorsData, 3, draws) && target == options[pick]
    ensures Distinct(options) && OneAccepted(options, {target})
    ensures forall o :: o in options ==> o in ColorsData
  {
    options := GetRandomItems(ColorsData, 3, draws);
    RandomItemsFromArray(ColorsData, 3, draws);
    ColorsDataDistinct();
    assert forall o :: o in options ==> o in ColorsData by {
      forall o | o in options ensures o in ColorsData {
        assert multiset(options)[o] > 0;
      }
    }
    target := options[pick];
  }

  // ----- numbers -----

  /** The largest number asked for: 5 up to age 4, 7 up to age 6, else 9 (also for a `NaN`
      age, which no comparison accepts). */
  function MaxNum(age: Option<int>): (m: int)
    ensures m in {5, 7, 9}
    ensures age.None? ==> m == 9
    ensures age.Some? ==> (m == 5 <==> age.value <= 4) && (m == 9 <==> age.value > 6)
  {
    match age
    case None => 9
    case Some(a) => if a <= 4 then 5 else if a <= 6 then 7 else 9
  }

  /** A number round: the target is `targetDraw + 1`, the other options are drawn as
      `draw + 1`, each draw below `maxNum`. */
  method NumberRound(age: Option<int>, targetDraw: nat, draws: seq<nat>)
    returns (options: seq<int>, target: int)
    requires targetDraw < MaxNum(age)
    requires forall i :: 0 <= i < |draws| ==> draws[i] < MaxNum(age)
    requires |Elements([targetDraw + 1]) + Elements(NumberCandidates(MaxNum(age), draws))| >= 3
    ensures target == targetDraw + 1
    ensures options == Grow([target], NumberCandidates(MaxNum(age), draws))
    ensures |options| == 3 && Distinct(options) && options[0] == target
    ensures OneAccepted(options, {target})
    ensures forall x :: x in options ==> 1 <= x <= MaxNum(age)
  {
    target := targetDraw + 1;
    options := GrowDistinct(target, NumberCandidates(MaxNum(age), draws));
  }

  /** The values `Math.floor(Math.random() * maxNum) + 1` for the given draws, each draw below
      `maxNum`: every candidate lies between 1 and `maxNum`. */
  function NumberCandidates(maxNum: nat, draws: seq<nat>): (c: seq<int>)
    requires forall i :: 0 <= i < |draws| ==> draws[i] < maxNum
    ensures |c| == |draws| && forall i :: 0 <= i < |draws| ==> c[i] == draws[i] + 1
    ensures forall x :: x in c ==> 1 <= x <= maxNum
  {
    seq(|draws|, i requires 0 <= i < |draws| => draws[i] + 1)
  }

  // ----- animals -----

  datatype Habitat = Habitat(habitat: string, name: string, animals: seq<string>)

  /** `habitatsData`. */
  const Habitats: seq<Habitat> := [
    Habitat("🏠", "Casa", ["🐶", "🐱", "🐹", "🐰"]),
    Habitat("🌾", "Fazenda", ["🐮", "🐷", "🐔", "🐴"]),
    Habitat("🌳", "Floresta", ["🦁", "🐘", "🦒", "🐵"]),
    Habitat("💧", "Água", ["🐟", "🐸", "🦆", "🐳"])
  ]

  /** `allAnimals`. */
  const AllAnimals: seq<string> :=
    ["🐶", "🐱", "🐹", "🐰", "🐮", "🐷", "🐔", "🐴", "🦁", "🐘", "🦒", "🐵", "🐟", "🐸", "🦆", "🐳"]

  lemma AllAnimalsDistinct()
    ensures Distinct(AllAnimals)
  {
    forall i, j | 0 <= i < j < |AllAnimals| ensures AllAnimals[i] != AllAnimals[j] {
      assert AllAnimals[i][0] != AllAnimals[j][0];
    }
  }

  /** `allAnimals.filter(a => !habitat.animals.includes(a))`. */
  function WrongAnimals(h: Habitat): (w: seq<string>)
    ensures forall a :: a in w <==> a in AllAnimals && a !in h.animals
    ensures Distinct(w)
  {
    AllAnimalsDistinct();
    WithoutDistinct(AllAnimals, h.animals);
    Without(AllAnimals, h.animals)
  }

  /** The habitats list their animals in the order of `allAnimals`, four each. */
  lemma HabitatAnimals(hp: nat)
    requires hp < |Habitats|
    ensures Habitats[hp].animals == AllAnimals[4 * hp..4 * hp + 4]
  {
    if hp == 0 {
      assert Habitats[0].animals == AllAnimals[0..4];
    } else if hp == 1 {
      assert Habitats[1].animals == AllAnimals[4..8];
    } else if hp == 2 {
      assert Habitats[2].animals == AllAnimals[8..12];
    } else {
      assert Habitats[3].animals == AllAnimals[12..16];
    }
  }

  /** Leaving out a block of four entries of a list of distinct values keeps the two entries
      at `i0` and `i1` outside the block. */
  lemma BlockLeavesTwo<T(!new)>(all: seq<T>, block: seq<T>, lo: nat, i0: nat, i1: nat)
    requires Distinct(all) && lo + 4 <= |all| && block == all[lo..lo + 4]
    requires i0 < |all| && i1 < |all| && i0 != i1
    requires !(lo <= i0 < lo + 4) && !(lo <= i1 < lo + 4)
    ensures |Without(all, block)| >= 2
  {
    forall t | 0 <= t < 4 ensures block[t] != all[i0] && block[t] != all[i1] {
      assert block[t] == all[lo + t];
    }
    TwoMembers(Without(all, block), all[i0], all[i1]);
  }

  /** Every habitat leaves at least two animals of other habitats to offer as wrong answers. */
  lemma WrongAnimalsEnough(hp: nat)
    requires hp < |Habitats|
    ensures |WrongAnimals(Habitats[hp])| >= 2
  {
    AllAnimalsDistinct();
    HabitatAnimals(hp);
    var o := if hp == 3 then 0 else hp + 1;
    BlockLeavesTwo(AllAnimals, Habitats[hp].animals, 4 * hp, 4 * o, 4 * o + 1);
  }

  /** `[first, ...shuffleArray(others).slice(0, 2)]`: one given option and two others picked
      at random. */
  method FirstAndTwoOthers<T(==)>(first: T, group: seq<T>, others: seq<T>, draws: seq<nat>)
    returns (options: seq<T>)
    requires first in group && Distinct(others) && |others| >= 2
    requires forall x :: x in others ==> x !in group
    requires ValidDraws(|others|, draws)
    ensures |Shuffled(others, draws)| == |others|
    ensures options == [first] + Shuffled(others, draws)[..2]
    ensures |options| == 3 && Distinct(options) && options[0] == first
    ensures options[1] in others && options[2] in others
    ensures OneAccepted(options, Elements(group))
  {
    var shuffled := ShuffleArray(others, draws);
    ShuffledPermutes(others, draws);
    var picked := shuffled[..2];
    assert shuffled == picked + shuffled[2..];
    assert multiset(picked) <= multiset(others);
    SubMultisetDistinct(picked, others);
    assert multiset(picked)[picked[0]] > 0 && multiset(picked)[picked[1]] > 0;
    options := [first] + picked;
    OneAcceptedFirst(options, Elements(group));
  }

  /** An animal round in the habitat `h` (one of `habitatsData`): the accepted answers are the
      habitat's animals; the options are its animal at index `ap` followed by the first two
      wrong animals of `shuffleArray(wrongAnimals)`. */
  method AnimalRound(h: Habitat, ap: nat, draws: seq<nat>)
    returns (options: seq<string>, accepted: set<string>)
    requires h in Habitats && ap < |h.animals|
    requires ValidDraws(|WrongAnimals(h)|, draws)
    ensures |Shuffled(WrongAnimals(h), draws)| >= 2
    ensures accepted == Elements(h.animals)
    ensures options == [h.animals[ap]] + Shuffled(WrongAnimals(h), draws)[..2]
    ensures |options| == 3 && Distinct(options) && OneAccepted(options, accepted)
  {
    ghost var hp :| 0 <= hp < |Habitats| && Habitats[hp] == h;
    WrongAnimalsEnough(hp);
    var correctAnimal := h.animals[ap];
    accepted := Elements(h.animals);
    var wrong := WrongAnimals(h);
    options := FirstAndTwoOthers(correctAnimal, h.animals, wrong, draws);
  }

  // ----- patterns -----

  /** `patternSets`. */
  const PatternSets: seq<seq<string>> := [
    ["🍎", "🍊", "🍎", "🍊"],
    ["🔵", "🔴", "🔵", "🔴"],
    ["⭐", "🌙", "⭐", "🌙"],
    ["🐶", "🐱", "🐶", "🐱"],
    ["🌸", "🌺", "🌸", "🌺"],
    ["🚗", "🚌", "🚗", "🚌"],
    ["🍎", "🍎", "🍊", "🍊"],
    ["🔵", "🔵", "🔴", "🔵"],
    ["⭐", "⭐", "🌙", "⭐"],
    ["🍎", "🍊", "🍋", "🍎"],
    ["🔴", "🟡", "🔵", "🔴"],
    ["🐶", "🐱", "🐰", "🐶"]
  ]

  /** `otherEmojis`: the values offered besides the answer. */
  const OtherEmojis: seq<string> :=
    ["🍎", "🍊", "🍋", "🔵", "🔴", "🟡", "⭐", "🌙", "🐶", "🐱", "🐰", "🌸", "🌺", "🚗", "🚌"]

  /** `Math.min(3 + Math.floor(level / 2), 5)`: from 3 shown items at level 1 to 5 from level 4. */
  function PatternLength(level: nat): (n: nat)
    ensures 3 <= n <= 5
    ensures level >= 4 ==> n == 5
    ensures level < 4 ==> n == 3 + level / 2
  {
    Min(3 + level / 2, 5)
  }

  /** Longer sequences at higher levels. */
  lemma PatternLengthMonotone(l1: nat, l2: nat)
    requires l1 <= l2
    ensures PatternLength(l1) <= PatternLength(l2)
  {
  }

  /** The shown sequence: `for (i = 0; i < patternLength; i++) sequence.push(pattern[i % pattern.length])`. */
  method PatternSequence(pattern: seq<string>, length: nat) returns (sequence: seq<string>)
    requires |pattern| > 0
    ensures |sequence| == length
    ensures forall i :: 0 <= i < length ==> sequence[i] == pattern[i % |pattern|]
  {
    sequence := [];
    for i := 0 to length
      invariant |sequence| == i
      invariant forall k :: 0 <= k < i ==> sequence[k] == pattern[k % |pattern|]
    {
      sequence := sequence + [pattern[i % |pattern|]];
    }
  }

  /** The answer continues the sequence: the shown items followed by the answer repeat the
      pattern. */
  lemma AnswerContinuesSequence(pattern: seq<string>, sequence: seq<string>, answer: string)
    requires |pattern| > 0
    requires forall i :: 0 <= i < |sequence| ==> sequence[i] == pattern[i % |pattern|]
    requires answer == pattern[|sequence| % |pattern|]
    ensures forall i :: 0 <= i <= |sequence| ==> (sequence + [answer])[i] == pattern[i % |pattern|]
  {
  }

  /** `otherEmojis.filter(e => e !== correctAnswer)`. */
  function AvailableOptions(answer: string): (a: seq<string>)
    ensures forall e :: e in a <==> e in OtherEmojis && e != answer
  {
    Without(OtherEmojis, [answer])
  }

  /** The values `availableOptions[Math.floor(Math.random() * availableOptions.length)]` for the
      given draws: every candidate is an emoji of `otherEmojis` other than the answer. */
  function PatternCandidates(answer: string, draws: seq<nat>): (c: seq<string>)
    requires forall i :: 0 <= i < |draws| ==> draws[i] < |AvailableOptions(answer)|
    ensures |c| == |draws| && forall i :: 0 <= i < |draws| ==> c[i] == AvailableOptions(answer)[draws[i]]
    ensures forall x :: x in c ==> x in OtherEmojis && x != answer
  {
    seq(|draws|, i requires 0 <= i < |draws| => AvailableOptions(answer)[draws[i]])
  }

  /** A pattern round with `pattern` (one of `patternSets`) at `level`: the shown sequence, the
      answer `pattern[patternLength % pattern.length]`, and three different options, the first
      being the answer. */
  method PatternRound(pattern: seq<string>, level: nat, draws: seq<nat>)
    returns (sequence: seq<string>, answer: string, options: seq<string>)
    requires pattern in PatternSets
    requires |pattern| > 0 && var a := pattern[PatternLength(level) % |pattern|];
             && (forall i :: 0 <= i < |draws| ==> draws[i] < |AvailableOptions(a)|)
             && |Elements([a]) + Elements(PatternCandidates(a, draws))| >= 3
    ensures |sequence| == PatternLength(level)
    ensures forall i :: 0 <= i < |sequence| ==> sequence[i] == pattern[i % |pattern|]
    ensures answer == pattern[|sequence| % |pattern|]
    ensures options == Grow([answer], PatternCandidates(answer, draws))
    ensures |options| == 3 && Distinct(options) && options[0] == answer
    ensures OneAccepted(options, {answer})
    ensures forall x :: x in options && x != answer ==> x in OtherEmojis
  {
    var patternLength := PatternLength(level);
    sequence := PatternSequence(pattern, patternLength);
    answer := pattern[patternLength % |pattern|];
    options := GrowDistinct(answer, PatternCandidates(answer, draws));
  }
}
