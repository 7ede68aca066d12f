# Jogos para crianças — a verified model

This project is a Dafny model of a small web app of mini-games for young children, together with its offline service worker. It proves properties of that model.

- **The games (js/games.js).** A shapes drag-and-drop game, a colours game, a memory card game, a numbers game, an animals and habitats game and a pattern puzzle. Each keeps a module-level state object that its handlers update in place.
- **The shell (js/app.js).** The global `state`, the games menu with its age gate, and the colour darkening used for menu gradients. Also `shuffleArray` and `getRandomItems`, screen switching, the level counter, the sound switch, and the settings kept in `localStorage`.
- **The service worker (sw.js).** A cache-first fetch handler over the browser's cache storage. Install fills the bucket `CACHE_NAME`, activate deletes every other bucket, fetch has an offline fallback, and a message handler reacts to `SKIP_WAITING`.

The model keeps the source's form:

- The game state objects and the app `state` become classes whose methods update their fields. These are `Rounds.RoundGame`, `Shapes.ShapesGame`, `Memory.MemoryGame`, `App.AppState` and `ServiceWorker.Worker`.
- The option-building loops, the Fisher–Yates swap loop, the loop over the targets in a drop and the loop of `activate` become methods with loop invariants. Each is proved against a specification function.
- The level and age tables, `adjustColor` and the menu lock rule are functions.
- JavaScript built-ins are written out where the program depends on them:
  - `parseInt`, whose `NaN` result is `None`, and `Number.prototype.toString`;
  - `padStart`, `substr`, and `replace`, which removes only the first match;
  - `slice`, which also takes a negative count;
  - comparisons with `NaN`, which are always false.
- Every `Math.random()` choice is a parameter.
  - For `shuffleArray`, it is the sequence of swap indices `draws[i] <= i`.
  - For the rejection loops of the numbers and pattern games, it is the finite list of values drawn.

Modules, one per file:

- `Common`: options, lists without repetition, counting.
- `JsNumber`: `parseInt` and number-to-string conversion.
- `Shuffle`: `shuffleArray` and `getRandomItems`.
- `ColorAdjust`: `adjustColor`.
- `Scoring`: the star rules.
- `Rounds`: the round state machine shared by the colours, numbers, animals and pattern games.
- `RoundBuilders`: how each of those games builds a round.
- `Shapes`, `Memory`: the two games with their own state.
- `App`: the shell.
- `ServiceWorker`: the cache protocol.

## Model

| member | source | states |
|---|---|---|
| Shuffle.ShuffleArray | js/app.js:313-320 | the swap loop on a copy returns `Shuffled(array, draws)`; the caller's list is a value and stays as it was |
| Shuffle.ShuffledPermutes | js/app.js:313-320 | `shuffleArray` returns a permutation of its input: same length, same multiset |
| Shuffle.ShuffledSameElements | js/app.js:313-320 | the shuffled list holds exactly the values of the input, and holds no value twice if the input had none twice |
| Shuffle.SwapPermutes | js/app.js:317 | one destructuring swap only reorders the list |
| Shuffle.ShuffleFromPermutes | js/app.js:315-318 | every suffix of the swap loop only reorders the list |
| Shuffle.SliceEndKeeps | js/app.js:324 | `slice(0, count)` keeps exactly the positions below `count`, or, for a negative count, those more than `-count` positions from the end |
| Shuffle.GetRandomItems | js/app.js:322-325 | `getRandomItems` returns `RandomItems(array, count, draws)`, the first `SliceEnd` items of the shuffled copy |
| Shuffle.RandomItemsFromArray | js/app.js:322-325 | the result has `min(count, n)` items, each from its own position of the array: a sub-multiset of the array, and without repetition when the array has none |
| JsNumber.ParseIntOfNumberToString | js/app.js:100-116 | `parseInt(String(x))` gives back `x` for `NaN` and for every integer of magnitude below `1e21` (which `String` writes in plain digits): the round trip the stored age goes through |
| JsNumber.ParseIntOfNatToString | js/app.js:180-184 | parsing the digits `toString(10)` or `toString(16)` writes gives the number back |
| JsNumber.DigitsValueOfNatToString | js/app.js:184 | the digits `toString` writes have the value of the number |
| JsNumber.NatToStringDigits | js/app.js:184 | `toString` writes lower-case digits of the base with no leading zero |
| JsNumber.TrimStartSuffix | js/app.js:105 | `parseInt` skips exactly the leading white space: the rest is a suffix that does not start with a space |
| JsNumber.DigitRunLongest | js/app.js:181-183 | `parseInt` reads the longest run of digits of its base |
| JsNumber.ReadDigitsWhole | js/app.js:181-183 | a string made only of digits is read whole |
| JsNumber.PadStart | js/app.js:184 | `padStart(len, fill)` keeps the string at the end, fills the front with `fill`, and has length `max(|s|, len)` |
| JsNumber.ParseNaN | js/app.js:105 | `parseInt("NaN")` is `NaN` |
| JsNumber.ParseMinus | js/app.js:105 | a leading minus negates the parsed digits |
| JsNumber.RoundTripNegative | js/app.js:105 | a stored negative age above `-1e21` is parsed back to itself |
| JsNumber.RoundTripNonNegative | js/app.js:105 | a stored non-negative age below `1e21` is parsed back to itself |
| ColorAdjust.AdjustColorOfHexColor | js/app.js:179-185 | for a `#RRGGBB` colour, `adjustColor` returns `#` and six lower-case hex digits, and each channel is that of the input plus `amount`, clamped to 0..255 |
| ColorAdjust.AdjustColorByZero | js/app.js:179-185 | `adjustColor(c, 0)` of a `#RRGGBB` colour is `c` in lower case |
| ColorAdjust.AdjustColorBytes | js/app.js:180-184 | on a `#RRGGBB` colour, the result is `#` followed by each adjusted channel as two hex digits |
| ColorAdjust.ChannelOfHexColor | js/app.js:181-183 | the channel `k` of `adjustColor` is the value of the hex pair at `1 + 2k`, shifted and clamped |
| ColorAdjust.ChannelOfPair | js/app.js:181-183 | `Math.max(0, Math.min(255, parseInt(pair, 16) + amount))` of two hex digits is their value shifted and clamped |
| ColorAdjust.PairOfHexColor | js/app.js:180-183 | `replace('#', '')` then `substr(2k, 2)` takes the characters at `1 + 2k` and `2 + 2k` of the colour |
| ColorAdjust.RemoveFirst | js/app.js:180 | `replace` with a one-character pattern removes at most one character, and none when it is absent |
| ColorAdjust.RemoveHash | js/app.js:180 | on a `#RRGGBB` colour, `replace('#', '')` leaves the six digits |
| ColorAdjust.Substr | js/app.js:181-183 | `substr(start, length)` has `min(length, n - start)` characters, or none past the end |
| ColorAdjust.Clamp | js/app.js:181-183 | the result is in 0..255 and equals the value inside that range |
| ColorAdjust.Channel | js/app.js:181-183 | a parsed channel is in 0..255 |
| ColorAdjust.HexByte | js/app.js:184 | `toString(16).padStart(2, '0')` of a byte is two lower-case hex digits |
| ColorAdjust.HexByteValue | js/app.js:184 | those two digits have the value of the byte |
| ColorAdjust.ParseHexPair | js/app.js:181-183 | `parseInt` of two hex digits in radix 16 is their value |
| ColorAdjust.HexBytesColor | js/app.js:184 | three bytes written as hex pairs make a lower-case `#rrggbb` colour whose pairs read back as the bytes |
| ColorAdjust.SameChannelsLower | js/app.js:184 | a lower-case colour with the channels of `color` is `color` in lower case |
| App.MenuCardAt | js/app.js:157-168 | card `k` belongs to game `k`; it is locked exactly when the game is flagged `locked`, the age is `NaN`, or the age is outside `minAge..maxAge`; only unlocked cards start their game; the gradient goes from the colour to `adjustColor(color, -20)` |
| App.Menu | js/app.js:157 | one card per game, in order |
| App.MenuGradients | js/app.js:164 | every colour of `gamesData` is `#RRGGBB`, so each gradient ends in its colour darkened by 20 per channel |
| App.UnlockedGames | js/app.js:12-64 | with this `gamesData`, the unlocked games are shapes at ages 2-7, colours at 2-5 and memory at 3-7, and each has a screen in `startGame` |
| App.GameScreen | js/app.js:194-207 | `startGame` knows exactly shapes, colours and memory |
| App.SavedSettings | js/app.js:113-116 | `saveSettings` sets both keys and keeps every other key |
| App.SettingsRoundTrip | js/app.js:100-116 | loading what was saved gives back the age (`NaN`, or a number of magnitude below `1e21`) and the sound flag, whatever the state was before |
| App.LoadDefaults | js/app.js:100-111 | a missing key leaves the current value; a present sound key gives `true` exactly for `"true"` |
| App.AppState.constructor | js/app.js:2-9 | the initial `state`: age 5, loading screen, no game, level 1, sound and music on |
| App.AppState.LoadSettings | js/app.js:100-111 | the age is `parseInt` of a present, non-empty stored string, else it is unchanged; the sound flag is the stored flag when present; nothing else changes |
| App.AppState.SaveSettings | js/app.js:113-116 | the store becomes `SavedSettings` of the current age and sound flag; nothing else changes |
| App.AppState.ShowScreen | js/app.js:119-131 | the current screen changes only when the page has the target screen |
| App.AppState.SelectAge | js/app.js:134-138 | the age is set and saved |
| App.AppState.ShowMenu | js/app.js:146-149 | the timer of `selectAge` builds the menu for the current age and shows the menu screen |
| App.AppState.StartGame | js/app.js:188-208 | the game becomes current and the level is reset to 1; a known game's screen is shown, and `launched` is true exactly when the source calls the game's init |
| App.AppState.ExitGame | js/app.js:210-213 | no current game, and the menu screen |
| App.AppState.NextLevel | js/app.js:215-232 | the level goes up by exactly 1; the current game's screen is shown again, and `launched` is true exactly when the source calls the game's init, when `startGame` knows the game |
| App.AppState.Launch | js/app.js:194-207 | the shared `switch`: only the three known games show a screen, and `launched` is true exactly for them |
| App.AppState.ToggleSound | js/app.js:269-272 | the sound flag is negated and saved |
| Scoring.Penalty | js/games.js:199-200 | `max(1, 3 - errors)` is in 1..3: 3 minus the errors below two, 1 from two errors on |
| Scoring.PenaltyNonIncreasing | js/games.js:519 | stars never rise while errors grow within a round |
| Scoring.FinalStars | js/games.js:339-343 | the end-of-game grade is in 1..3 |
| Scoring.FinalStarsByAverage | js/games.js:339-343 | grade 3 exactly when the stars earned are at least 80% of `3 * totalRounds`, at least 2 exactly when they are at least 50% |
| Scoring.FinalStarsMonotone | js/games.js:754-758 | more stars over the same rounds never give a lower grade |
| Scoring.FinalStarsExtremes | js/games.js:1137-1141 | three stars every round gives grade 3; one star every round gives grade 1 |
| Scoring.MemoryStars | js/games.js:652-653 | the memory grade is in 1..3 |
| Scoring.MemoryStarsMonotone | js/games.js:652-653 | more moves never give more stars; the fewest possible moves give 3 |
| Rounds.TotalRounds | js/games.js:331 | `3 + level` rounds for every game but the pattern game, and `4 + level` exactly for the pattern game |
| Rounds.RoundGame.constructor | js/games.js:313-322 | a fresh state object: three stars, no errors, round 0 of 5, no stars earned, no options |
| Rounds.RoundGame.Init | js/games.js:324-336 | a new game of `TotalRounds` rounds with no stars, then its first round |
| Rounds.RoundGame.BeginRound | js/games.js:347-350 | a round starts with 3 stars, no error and no option disabled |
| Rounds.RoundGame.NextRound | js/games.js:338-349 | once every round is played, the grade is `FinalStars` and nothing changes; otherwise the next round begins |
| Rounds.RoundGame.Answer | js/games.js:502-1249 | the four check handlers (`checkColorMatch` 502-530, `checkNumberMatch` 928-956, `checkAnimalAnswer` 1052-1092, `checkPatternAnswer` 1202-1249): a right answer adds the round's stars and ends the round (round + 1); a wrong one adds an error, sets stars to `Penalty(errors)` and disables the option; in the click games the second wrong answer also ends the round, counting its stars once and disabling every option; a disabled or unknown option is ignored |
| Rounds.RoundCountsOnce | js/games.js:1239-1244 | once a round is over its accepted option is disabled, so a round earns stars at most once |
| Rounds.RoundCanBeWon | js/games.js:502-530 | while a round is open its accepted option can still be picked |
| Rounds.OneAcceptedFirst | js/games.js:1175 | options that start with the answer and hold no other accepted value have exactly one accepted answer |
| RoundBuilders.GrowDistinct | js/games.js:788-793 | the options loop returns three different values, the first one given, the others from the values drawn, in the order the loop adds them |
| RoundBuilders.GrowKeeps | js/games.js:788-793 | the loop keeps its first options, never repeats a value and adds only drawn values |
| RoundBuilders.GrowLength | js/games.js:788-793 | the loop stops at three options, or earlier only when the draws hold no other new value |
| RoundBuilders.ShowOptions | js/games.js:794 | `shuffleArray(options)` before display keeps the same options, still different, still with exactly one accepted |
| RoundBuilders.ShuffledKeepsOneAccepted | js/games.js:1186 | shuffling different options keeps exactly one accepted answer |
| RoundBuilders.ColorRound | js/games.js:353-355 | three different colours of `colorsData`, one of them the target |
| RoundBuilders.MaxNum | js/games.js:767 | numbers go up to 5 for ages up to 4, 7 up to 6, else 9, and 9 for a `NaN` age |
| RoundBuilders.NumberRound | js/games.js:768-793 | three different numbers in `1..maxNum`, the first the target, exactly one accepted |
| RoundBuilders.NumberCandidates | js/games.js:791 | every value `Math.floor(Math.random() * maxNum) + 1` can draw lies between 1 and `maxNum` |
| RoundBuilders.WrongAnimals | js/games.js:1034 | exactly the animals not in the habitat, without repetition |
| RoundBuilders.WrongAnimalsEnough | js/games.js:969-976 | every habitat leaves at least two wrong animals |
| RoundBuilders.HabitatAnimals | js/games.js:969-976 | the habitats list their animals as consecutive blocks of four of `allAnimals` |
| RoundBuilders.FirstAndTwoOthers | js/games.js:1033-1035 | the correct animal and the first two of the shuffled wrong ones: three different options with exactly one accepted |
| RoundBuilders.AnimalRound | js/games.js:1015-1036 | the accepted answers are the habitat's animals, and the three options hold exactly one of them |
| RoundBuilders.PatternLength | js/games.js:1151 | `min(3 + floor(level / 2), 5)` is 3..5 |
| RoundBuilders.PatternLengthMonotone | js/games.js:1151 | sequences never get shorter at higher levels |
| RoundBuilders.PatternSequence | js/games.js:1154-1157 | `sequence[i] == pattern[i % |pattern|]` for each of the `length` items |
| RoundBuilders.AnswerContinuesSequence | js/games.js:1160 | the answer `pattern[patternLength % |pattern|]` continues the shown sequence |
| RoundBuilders.AvailableOptions | js/games.js:1178-1179 | `otherEmojis` without the answer |
| RoundBuilders.PatternCandidates | js/games.js:1179-1182 | every drawn distractor is an emoji of `otherEmojis` other than the answer |
| RoundBuilders.PatternRound | js/games.js:1150-1184 | the sequence, the answer continuing it, and three different options, the answer among them and exactly one accepted |
| RoundBuilders.ColorsDataDistinct | js/games.js:304-311 | the six colours are all different |
| RoundBuilders.AllAnimalsDistinct | js/games.js:976 | `allAnimals` has no repetition |
| Shapes.Difficulty | js/games.js:50-66 | 2 targets at levels 1-2, 3 up to 6, 4 afterwards; 1 extra piece up to level 4, 2 up to 8, 3 afterwards |
| Shapes.DifficultyMonotone | js/games.js:50-66 | higher levels never have fewer targets or fewer pieces |
| Shapes.AvailableCount | js/games.js:69 | `min(3 + level, 12)` shapes, all 12 from level 9 |
| Shapes.AvailableShapes | js/games.js:69 | the first `AvailableCount` shapes |
| Shapes.AvailableShapesEnough | js/games.js:69-78 | a level offers enough shapes for its pieces, all different |
| Shapes.AllShapesDistinct | js/games.js:3-16 | no two shapes of `allShapes` look the same |
| Shapes.DealOfParts | js/games.js:72-78 | the targets are different, the extras are not targets, and the pieces are exactly the targets and the extras, each once, all available |
| Shapes.LevelDealParts | js/games.js:69-101 | a level deals `numTargets` targets with different shapes and `numOptions` different pieces, including every target |
| Shapes.DealShapes | js/games.js:72-101 | the dealing steps compute `DealOf` of the available shapes |
| Shapes.DealLevel | js/games.js:50-101 | the targets and pieces of `LevelDeal`, with targets of different shapes |
| Shapes.WithoutCount | js/games.js:76 | filtering the targets out of the available shapes leaves `|available| - numTargets` distractors |
| Shapes.WrongHits | js/games.js:197-201 | counts the open targets under the drop point that show another shape; none exactly when there is no such target |
| Shapes.DropFills | js/games.js:186-190 | a drop fills the open targets under the point that show the piece's shape |
| Shapes.DropFillsAtMostOne | js/games.js:186-190 | a drop never empties a target and fills only targets of the dropped shape; with distinct target shapes it fills at most one |
| Shapes.DropOnTargets | js/games.js:180-205 | the loop over the open targets fills as `DropFills`, adds `WrongHits` errors, keeps `matched` equal to the filled count and stars at `Penalty(errors)`, and announces victory on the drop that fills the last target |
| Shapes.ShapesGame.constructor | js/games.js:21-30 | the initial state object: no targets, nothing matched, no errors, three stars |
| Shapes.ShapesGame.Init | js/games.js:32-121 | past level 10 the game is complete and nothing changes; otherwise the deal of `LevelDeal`, nothing filled, no error, 3 stars |
| Shapes.ShapesGame.Drop | js/games.js:253-284 | a placed piece cannot be dragged; otherwise the drop fills, counts errors and marks the piece placed exactly when it filled a target |
| Shapes.ShapeOptions | js/games.js:75-78 | the targets followed by the extras are different available shapes |
| Memory.NumPairs | js/games.js:570-577 | 2..8 pairs; a `NaN` age gets `min(4 + level, 8)` |
| Memory.NumPairsMonotone | js/games.js:570-577 | older players and higher levels never get fewer pairs |
| Memory.Columns | js/games.js:587-595 | 2 to 4 columns |
| Memory.ColumnsSquare | js/games.js:587-595 | the grid is the smallest square of 2, 3 or 4 columns that holds the deck |
| Memory.PairDeckHoldsPairs | js/games.js:579-581 | the deck has `2 * numPairs` cards; each emoji is on exactly two cards or on none; `numPairs` emojis appear, all from the list |
| Memory.DealPairs | js/games.js:579-581 | the dealing steps compute `PairDeck` |
| Memory.NewDeck | js/games.js:570-581 | the deck for the age and level, with `2 * NumPairs` cards |
| Memory.MemoryEmojisDistinct | js/games.js:550 | twelve different emojis |
| Memory.MemoryGame.constructor | js/games.js:552-558 | the initial state object: no cards, no flipped cards, no pairs found, no moves, unlocked |
| Memory.MemoryGame.Init | js/games.js:560-612 | a new deck, every card face down, no pair, no move, unlocked |
| Memory.MemoryGame.FlipCard | js/games.js:617-632 | ignored when locked, on a card that is up or matched, or with two cards up; otherwise the card turns up; a second card adds exactly one move and either makes a pair (unlocked, flipped list cleared) or locks the board |
| Memory.MemoryGame.CheckMatch | js/games.js:634-667 | a match marks both cards, adds a pair, clears the flipped list and unlocks, announcing victory when every pair is found; a mismatch keeps the board locked |
| Memory.MemoryGame.HideMismatch | js/games.js:661-666 | the mismatch timer turns both cards down and unlocks, changing nothing else |
| Memory.VictoryClearsBoard | js/games.js:650 | all pairs are found exactly when every card is matched and face up |
| Memory.OpenBoardShowsOneCard | js/games.js:617-632 | while unlocked, at most one unmatched card is face up |
| ServiceWorker.MatchAll | sw.js:45 | `caches.match` finds a response exactly when some bucket stores one for the URL, and returns the one of the first such bucket in creation order |
| ServiceWorker.Worker.constructor | sw.js:1-12 | a waiting worker over the existing cache storage |
| ServiceWorker.Worker.Open | sw.js:17 | `caches.open` creates the bucket, empty and last, only when it is missing |
| ServiceWorker.Worker.Install | sw.js:15-24 | `addAll` stores every asset in `CACHE_NAME` when every response is ok and nothing otherwise; `skipWaiting` only on success |
| ServiceWorker.InstalledAssetsMatch | sw.js:15-24 | in the state a successful install leaves (`CACHE_NAME` opened, every asset added), `caches.match` finds every asset |
| ServiceWorker.DeleteOldCaches | sw.js:29-37 | the loop leaves only the name `CACHE_NAME` and exactly its bucket, with its entries |
| ServiceWorker.DeleteStep | sw.js:31-35 | one step of the loop removes the visited name unless it is `CACHE_NAME` |
| ServiceWorker.PrunedStep | sw.js:32-34 | one step of the loop deletes the visited bucket unless it is `CACHE_NAME` |
| ServiceWorker.PrunedAll | sw.js:29-37 | after visiting every name only `CACHE_NAME` is left |
| ServiceWorker.KeepOnly | sw.js:32 | exactly the names equal to `CACHE_NAME` remain |
| ServiceWorker.ActivatedBuckets | sw.js:27-40 | only `CACHE_NAME` remains, with its entries |
| ServiceWorker.Worker.Activate | sw.js:27-40 | every bucket but `CACHE_NAME` is deleted; `CACHE_NAME` keeps its entries |
| ServiceWorker.ActivateIdempotent | sw.js:29-37 | activating twice leaves the same buckets as activating once |
| ServiceWorker.KeepOnlyOfKept | sw.js:29-37 | filtering the names twice is filtering them once |
| ServiceWorker.ActivatedMatch | sw.js:45 | after activate, `caches.match` answers from `CACHE_NAME` only |
| ServiceWorker.Worker.Fetch | sw.js:43-77 | a cache hit is returned and nothing is fetched or written; a missing, non-200 or non-basic response is returned unstored; a cacheable one is stored in `CACHE_NAME` only and returned, `CACHE_NAME` being created last in order when it did not exist; a network failure gives a page load the stored `./index.html` and any other request nothing; no bucket is ever deleted |
| ServiceWorker.Worker.Message | sw.js:80-84 | only `SKIP_WAITING` ends the waiting; the caches do not change |
| Common.WithoutDistinct | js/games.js:76 | filtering a list without repetition keeps it without repetition |
| Common.Without | js/games.js:1034 | `filter(x => !excluded.includes(x))` keeps exactly the elements not excluded |
| Common.CountTrueAll | js/games.js:650 | every card is marked exactly when the count of marks is the number of cards |

## Left out

- js/audio.js is not part of this model. It synthesises Web Audio oscillators with float frequencies and gain ramps, and nothing in it can be stated with integers. `playSound`, `playBackgroundMusic` and `stopBackgroundMusic` are left out for the same reason.
- The DOM is left out: `innerHTML` building, styles, feedback and confetti animations, stars display. So are the drag mechanics (touch and mouse listeners, `getBoundingClientRect`, `isOverlapping`). A drop is an input that says which targets the drop point is over (`hits`), or which option was picked.
- Shapes.ShapesGame.Drop: the drag-start handlers are not modelled; a piece being dragged is any piece index.
- Timers are separate methods that the caller runs when the timer fires: `ShowMenu`, `NextRound` and `HideMismatch`. The delay is not modelled. Neither is a stale timer firing after a new game started, nor the delayed victory screen.
- `Math.random` is a parameter. The random draws of the rejection loops in the numbers and pattern games are a finite list that must hold three different values (`requires` on `GrowDistinct`). The source loops terminate only with probability one.
- Rounds.RoundGame.Answer: the emoji and the count of objects shown in the numbers game are display only and not modelled.
- Scoring.FinalStars: the float percentage `totalStars / maxStars * 100 >= 80` is stated with integers as `100 * totalStars >= 80 * maxStars`. This is exact for these ratios. The division by zero of an empty game is modelled as JavaScript evaluates it.
- Scoring.MemoryStars: `moves <= cards * 1.5` is stated as `2 * moves <= 3 * cards`.
- `localStorage` is a map from keys to strings; its I/O and quota errors are left out.
- JsNumber.NumberToString: `String(x)` is modelled only for `NaN` and integers of magnitude below `1e21`, which it writes in plain digits. From `1e21` on JavaScript writes exponent notation (`"1e+21"`), and beyond about `1.8e308` the number is `Infinity` (`"Infinity"`). Only a tampered stored age can put such a value in `playerAge`: a run of 22 or more digits gives `1e21` or more, and a run of about 309 or more digits (say 400) gives `Infinity`. A string such as `"1e30"` does not, since `parseInt` stops at the `e` and reads 1.
- JsNumber.ParseInt: returns the exact value of the digits. JavaScript rounds a value beyond `2^53` to the nearest double and gives `Infinity` beyond about `1.8e308`; neither is modelled.
- JsNumber.ParseIntOfNumberToString: requires `PlainDecimal(x)`, a magnitude below `1e21`. For larger ages `parseInt` of the exponent form reads only the leading digit, and `"Infinity"` parses to `NaN`, so the round trip does not hold there.
- JsNumber.RoundTripNegative: holds only above `-1e21`, for the reason given for `ParseIntOfNumberToString`.
- JsNumber.RoundTripNonNegative: holds only below `1e21`, for the reason given for `ParseIntOfNumberToString`.
- App.SettingsRoundTrip: the saved age comes back only when it is `NaN` or of magnitude below `1e21`, for the reason given for `ParseIntOfNumberToString`.
- App.AppState.StartGame: `launched` only reports that the source calls `initShapesGame`, `initColorsGame` or `initMemoryGame`. The caller runs the game's `Init` (Shapes.ShapesGame.Init, Rounds.RoundGame.Init, Memory.MemoryGame.Init) with `currentLevel` and `playerAge`; that wiring is not modelled.
- App.AppState.NextLevel: likewise, the restart of the game at the new level is reported by `launched` only. That the game's `Init` then runs with `currentLevel + 1` is not modelled.
- App.AppState.ShowMenu: `loadGamesMenu` returns the list of cards instead of writing them to the page.
- Service worker registration is left out, and so are the promise scheduling of sw.js, `waitUntil`, `respondWith`, `clients.claim` and `console.log`.
  - Each handler runs as one sequential step.
  - The write of `cache.put`, which the source does not wait for, happens before the handler returns.
  - `addAll` is all-or-nothing; the model does not show how the browser achieves that.
- ServiceWorker.Worker.Fetch: requests are identified by their URL, and the HTTP method and `Vary` headers that `caches.match` would also compare are left out. A rejected `caches.match` falls into the same fallback as a failed network fetch in the source; the model only has the network failure.
- ServiceWorker.Worker.Install: a failed `addAll` rejects the install in the browser; the model reports it as `ok == false` and leaves the worker waiting.
