/** The shell of js/app.js: the global `state`, the games menu and its age gate, screen
    switching, the level counter, the sound switch, and the settings kept in `localStorage`
    (a map from keys to strings). The player's age is a number read by `parseInt`, so it may be
    `NaN` (`None`). */
module App {
  import opened Common
  import opened JsNumber
  import opened ColorAdjust

  /** An entry of `gamesData`; `locked` is `true` where the entry sets it and `false` where it
      is absent. */
  datatype GameInfo = GameInfo(id: string, title: string, icon: string, color: string,
                               minAge: int, maxAge: int, locked: bool)

  /** `Object.values(gamesData)`, in insertion order. */
  const GamesData: seq<GameInfo> := [
    GameInfo("shapes", "Formas", "🔷", "#6C63FF", 2, 7, false),
    GameInfo("colors", "Cores", "🎨", "#FF6B6B", 2, 5, false),
    GameInfo("memory", "Memória", "🧠", "#4ECDC4", 3, 7, false),
    GameInfo("numbers", "Números", "🔢", "#45B7D1", 3, 7, true),
    GameInfo("animals", "Animais", "🦁", "#96CEB4", 2, 6, true),
    GameInfo("puzzle", "Quebra-cabeça", "🧩", "#DDA0DD", 4, 7, true)
  ]

  /** The screen `startGame` and `nextLevel` show for a game, for the games they know. */
  function GameScreen(gameId: string): (screen: Option<string>)
    ensures screen.Some? <==> gameId in {"shapes", "colors", "memory"}
  {
    if gameId == "shapes" then Some("game-shapes")
    else if gameId == "colors" then Some("game-colors")
    else if gameId == "memory" then Some("game-memory")
    else None
  }

  /** The gate of `loadGamesMenu`: a card is locked when its entry says so or the age is not
      within `minAge..maxAge`; every comparison with a `NaN` age is false. */
  predicate IsLocked(game: GameInfo, age: Option<int>) {
    var isAppropriate := age.Some? && age.value >= game.minAge && age.value <= game.maxAge;
    game.locked || !isAppropriate
  }

  /** A card of the games menu: what it shows, whether it is locked, the game its click starts
      (none when locked), and the two colours of its gradient. */
  datatype MenuCard = MenuCard(icon: string, title: string, locked: bool,
                               onClick: Option<string>, from: string, to: string)

  /** The card `loadGamesMenu` builds for `game`; the gradient ends in the colour darkened by
      20. */
  function CardOf(game: GameInfo, age: Option<int>): MenuCard {
    var locked := IsLocked(game, age);
    MenuCard(game.icon, game.title, locked, if locked then None else Some(game.id),
             game.color, AdjustColor(game.color, -20))
  }

  /** The cards of `loadGamesMenu`, one per game in order. */
  function Menu(games: seq<GameInfo>, age: Option<int>): (cards: seq<MenuCard>)
    ensures |cards| == |games|
  {
    if games == [] then [] else [CardOf(games[0], age)] + Menu(games[1..], age)
  }

  /** Card `k` of the menu belongs to game `k`; it is clickable exactly when it is not locked,
      and then it starts that game; it is locked exactly when the game is flagged `locked`,
      the age is `NaN`, or the age is outside the game's range. */
  lemma {:induction false} MenuCardAt(games: seq<GameInfo>, age: Option<int>, k: nat)
    requires k < |games|
    ensures var c := Menu(games, age)[k];
            && c.icon == games[k].icon && c.title == games[k].title
            && (c.onClick.Some? <==> !c.locked)
            && (c.onClick.Some? ==> c.onClick.value == games[k].id)
            && (c.locked <==> games[k].locked || age.None?
                              || age.value < games[k].minAge || age.value > games[k].maxAge)
            && c.from == games[k].color && c.to == AdjustColor(games[k].color, -20)
  {
    if k > 0 {
      MenuCardAt(games[1..], age, k - 1);
    }
  }

  /** Every colour of `gamesData` is a `#RRGGBB` colour, so each card's gradient ends in its
      colour with every channel 20 darker (stopping at 0). */
  lemma MenuGradients(age: Option<int>, k: nat)
    requires k < |GamesData|
    ensures var c := Menu(GamesData, age)[k];
            IsHexColor(c.from) && ShiftedColor(c.to, c.from, -20)
  {
    MenuCardAt(GamesData, age, k);
    GamesDataColors();
    AdjustColorOfHexColor(GamesData[k].color, -20);
  }

  lemma GamesDataColors()
    ensures forall k :: 0 <= k < |GamesData| ==> IsHexColor(GamesData[k].color)
  {
    HexColorDigits("#6C63FF");
    HexColorDigits("#FF6B6B");
    HexColorDigits("#4ECDC4");
    HexColorDigits("#45B7D1");
    HexColorDigits("#96CEB4");
    HexColorDigits("#DDA0DD");
  }

  /** A `#` followed by six hex digits. */
  lemma HexColorDigits(s: string)
    requires |s| == 7 && s[0] == '#'
    requires IsDigit(s[1], 16) && IsDigit(s[2], 16) && IsDigit(s[3], 16)
    requires IsDigit(s[4], 16) && IsDigit(s[5], 16) && IsDigit(s[6], 16)
    ensures IsHexColor(s)
  {
    forall i | 1 <= i < 7 ensures IsDigit(s[i], 16) {
      assert i == 1 || i == 2 || i == 3 || i == 4 || i == 5 || i == 6;
    }
  }

  /** Only shapes, colours and memory can be unlocked, and those are the games `startGame`
      knows: a card that can be clicked always opens a game screen. The games open to an age
      are shapes and colours at 2; shapes, colours and memory at 3 to 5; shapes and memory at
      6 and 7; none otherwise or for a `NaN` age. */
  lemma UnlockedGames(age: Option<int>, k: nat)
    requires k < |GamesData|
    ensures var g := GamesData[k];
            && (!IsLocked(g, age) ==> GameScreen(g.id).Some?)
            && (!IsLocked(g, age) <==>
                  && age.Some?
                  && ((g.id == "shapes" && 2 <= age.value <= 7)
                      || (g.id == "colors" && 2 <= age.value <= 5)
                      || (g.id == "memory" && 3 <= age.value <= 7)))
  {
    assert k == 0 || k == 1 || k == 2 || k == 3 || k == 4 || k == 5;
  }

  /** The `localStorage` keys of the settings. */
  const AgeKey := "playerAge"
  const SoundKey := "soundEnabled"

  /** `String(b)` for a boolean. */
  function BoolString(b: bool): string {
    if b then "true" else "false"
  }

  /** The store after `saveSettings`: the age as `String(playerAge)` and the sound flag as
      `"true"` or `"false"`; other keys are kept. */
  function SavedSettings(store: map<string, string>, age: Option<int>, sound: bool): (r: map<string, string>)
    ensures AgeKey in r && SoundKey in r
    ensures forall k :: k in store && k != AgeKey && k != SoundKey ==> k in r && r[k] == store[k]
  {
    store[AgeKey := NumberToString(age)][SoundKey := BoolString(sound)]
  }

  /** The age after `loadSettings`: `parseInt` of the stored string when it is present and not
      empty, otherwise the current age. */
  function LoadedAge(store: map<string, string>, age: Option<int>): Option<int> {
    if AgeKey in store && store[AgeKey] != "" then ParseInt(store[AgeKey], Decimal) else age
  }

  /** The sound flag after `loadSettings`: whether the stored string is `"true"` when it is
      present, otherwise the current flag. */
  function LoadedSound(store: map<string, string>, sound: bool): bool {
    if SoundKey in store then store[SoundKey] == "true" else sound
  }

  /** Loading what was saved gives back the saved age (`NaN`, or a number `String` writes in
      plain digits) and sound flag, whatever the state before loading. */
  lemma SettingsRoundTrip(store: map<string, string>, age: Option<int>, sound: bool,
                          before: Option<int>, soundBefore: bool)
    requires PlainDecimal(age)
    ensures var saved := SavedSettings(store, age, sound);
            LoadedAge(saved, before) == age && LoadedSound(saved, soundBefore) == sound
  {
    var saved := SavedSettings(store, age, sound);
    assert saved[AgeKey] == NumberToString(age);
    ParseIntOfNumberToString(age);
  }

  /** Missing keys leave the defaults; a present sound key gives `true` exactly for `"true"`. */
  lemma LoadDefaults(store: map<string, string>, age: Option<int>, sound: bool)
    ensures AgeKey !in store ==> LoadedAge(store, age) == age
    ensures SoundKey !in store ==> LoadedSound(store, sound) == sound
    ensures SoundKey in store ==> (LoadedSound(store, sound) <==> store[SoundKey] == "true")
  {
  }

  /** The global `state` of js/app.js, with the page's screens and `localStorage`. */
  class AppState {
    /** The ids of the screens the page has. */
    const screens: set<string>
    var playerAge: Option<int>
    var currentScreen: string
    var currentGame: Option<string>
    var currentLevel: nat
    var soundEnabled: bool
    var musicEnabled: bool
    var storage: map<string, string>

    /** The initial `state`, over a page with `screens` and a store holding `storage`. */
    constructor (screens: set<string>, storage: map<string, string>)
      ensures this.screens == screens && this.storage == storage
      ensures playerAge == Some(5) && currentScreen == "loading-screen" && currentGame == None
      ensures currentLevel == 1 && soundEnabled && musicEnabled
    {
      this.screens := screens;
      this.storage := storage;
      playerAge := Some(5);
      currentScreen := "loading-screen";
      currentGame := None;
      currentLevel := 1;
      soundEnabled := true;
      musicEnabled := true;
    }

    /** `loadSettings`. */
    method LoadSettings()
      modifies this
      ensures playerAge == LoadedAge(storage, old(playerAge))
      ensures soundEnabled == LoadedSound(storage, old(soundEnabled))
      ensures storage == old(storage) && currentScreen == old(currentScreen)
      ensures currentGame == old(currentGame) && currentLevel == old(currentLevel)
      ensures musicEnabled == old(musicEnabled)
    {
      if AgeKey in storage && storage[AgeKey] != "" {
        playerAge := ParseInt(storage[AgeKey], Decimal);
      }
      if SoundKey in storage {
        soundEnabled := storage[SoundKey] == "true";
      }
    }

    /** `saveSettings`. */
    method SaveSettings()
      modifies this
      ensures storage == SavedSettings(old(storage), playerAge, soundEnabled)
      ensures playerAge == old(playerAge) && soundEnabled == old(soundEnabled)
      ensures currentScreen == old(currentScreen) && currentGame == old(currentGame)
      ensures currentLevel == old(currentLevel) && musicEnabled == old(musicEnabled)
    {
      storage := storage[AgeKey := NumberToString(playerAge)];
      storage := storage[SoundKey := BoolString(soundEnabled)];
    }

    /** `showScreen(screenId)`: the screen becomes current only when the page has it. */
    method ShowScreen(screenId: string)
      modifies this
      ensures currentScreen == if screenId in screens then screenId else old(currentScreen)
      ensures playerAge == old(playerAge) && currentGame == old(currentGame)
      ensures currentLevel == old(currentLevel) && soundEnabled == old(soundEnabled)
      ensures musicEnabled == old(musicEnabled) && storage == old(storage)
    {
      if screenId in screens {
        currentScreen := screenId;
      }
    }

    /** `selectAge(age)`, up to its timer: the age is set and saved. */
    method SelectAge(age: Option<int>)
      modifies this
      ensures playerAge == age && storage == SavedSettings(old(storage), age, soundEnabled)
      ensures soundEnabled == old(soundEnabled) && currentScreen == old(currentScreen)
      ensures currentGame == old(currentGame) && currentLevel == old(currentLevel)
      ensures musicEnabled == old(musicEnabled)
    {
      playerAge := age;
      SaveSettings();
    }

    /** The timer of `selectAge`: `loadGamesMenu()` for the current age, then the menu
        screen. */
    method ShowMenu() returns (cards: seq<MenuCard>)
      modifies this
      ensures cards == Menu(GamesData, playerAge)
      ensures currentScreen == if "menu-screen" in screens then "menu-screen" else old(currentScreen)
      ensures playerAge == old(playerAge) && currentGame == old(currentGame)
      ensures currentLevel == old(currentLevel) && soundEnabled == old(soundEnabled)
      ensures musicEnabled == old(musicEnabled) && storage == old(storage)
    {
      cards := Menu(GamesData, playerAge);
      ShowScreen("menu-screen");
    }

    /** `startGame(gameId)`: the game becomes current at level 1; for shapes, colours and
        memory its screen is shown and `launched` says that its `init*Game` runs. */
    method StartGame(gameId: string) returns (launched: bool)
      modifies this
      ensures currentGame == Some(gameId) && currentLevel == 1
      ensures launched <==> GameScreen(gameId).Some?
      ensures currentScreen == (if launched && GameScreen(gameId).value in screens
                                then GameScreen(gameId).value else old(currentScreen))
      ensures playerAge == old(playerAge) && soundEnabled == old(soundEnabled)
      ensures musicEnabled == old(musicEnabled) && storage == old(storage)
    {
      currentGame := Some(gameId);
      currentLevel := 1;
      launched := Launch();
    }

    /** `exitGame`: no current game, and the menu screen. */
    method ExitGame()
      modifies this
      ensures currentGame == None
      ensures currentScreen == if "menu-screen" in screens then "menu-screen" else old(currentScreen)
      ensures playerAge == old(playerAge) && currentLevel == old(currentLevel)
      ensures soundEnabled == old(soundEnabled) && musicEnabled == old(musicEnabled)
      ensures storage == old(storage)
    {
      currentGame := None;
      ShowScreen("menu-screen");
    }

    /** `nextLevel`: the level goes up by one, and the current game, if `startGame` knows it,
        is shown and `launched` again. */
    method NextLevel() returns (launched: bool)
      modifies this
      ensures currentLevel == old(currentLevel) + 1 && currentGame == old(currentGame)
      ensures launched <==> currentGame.Some? && GameScreen(currentGame.value).Some?
      ensures currentScreen == (if launched && GameScreen(currentGame.value).value in screens
                                then GameScreen(currentGame.value).value else old(currentScreen))
      ensures playerAge == old(playerAge) && soundEnabled == old(soundEnabled)
      ensures musicEnabled == old(musicEnabled) && storage == old(storage)
    {
      currentLevel := currentLevel + 1;
      launched := Launch();
    }

    /** The `switch` shared by `startGame` and `nextLevel`. */
    method Launch() returns (launched: bool)
      modifies this
      ensures launched <==> currentGame.Some? && GameScreen(currentGame.value).Some?
      ensures currentScreen == (if launched && GameScreen(currentGame.value).value in screens
                                then GameScreen(currentGame.value).value else old(currentScreen))
      ensures playerAge == old(playerAge) && currentGame == old(currentGame)
      ensures currentLevel == old(currentLevel) && soundEnabled == old(soundEnabled)
      ensures musicEnabled == old(musicEnabled) && storage == old(storage)
    {
      launched := false;
      if currentGame.Some? {
        var screen := GameScreen(currentGame.value);
        if screen.Some? {
          ShowScreen(screen.value);
          launched := true;
        }
      }
    }

    /** `toggleSound`: the sound flag flips and the settings are saved. */
    method ToggleSound()
      modifies this
      ensures soundEnabled == !old(soundEnabled)
      ensures storage == SavedSettings(old(storage), playerAge, soundEnabled)
      ensures playerAge == old(playerAge) && currentScreen == old(currentScreen)
      ensures currentGame == old(currentGame) && currentLevel == old(currentLevel)
      ensures musicEnabled == old(musicEnabled)
    {
      soundEnabled := !soundEnabled;
      SaveSettings();
    }
  }
}
