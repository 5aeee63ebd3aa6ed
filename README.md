# Imposter game — a Dafny model

A Dafny model of the "imposter" party game, a React Native app. On the
setup screen the group enters its players, either picks word categories or
switches to its own custom topics, and chooses whether the imposter gets a
clue and how long the discussion lasts. A confirmation dialog sums a
configuration up and starts the round; in the code at hand the setup screen
only builds and logs the configuration, and nothing renders the dialog yet.
Starting a round draws one player as the imposter and one word. Each player holds a flip card to see either the word or, as the
imposter, IMPOSTER and possibly a clue. A discussion countdown follows, then a
vote, then the results screen, which says whether the vote caught the
imposter. "Play again" deals a new round to the same group.

The model is split into modules that follow the app's files:

- `Js` (js.dfy): the JavaScript semantics the screens rely on. It covers
  `undefined`, out-of-range indexing, `%` with the dividend's sign, and
  `trim` over the ECMA-262 white-space set. It also covers `split`, `join`
  and `padStart`, `Number()` on digit strings, and number-to-string.
- `GameCategories` and `GameTime`: the category labels, the catalog-word
  record and the five timer options.
- `Setup` (setup.dfy): the setup screen. It is a class whose fields are the
  screen's state. Every handler is a method, proved against the
  specification functions `AddEntry`, `Without` and `Toggled`. Its invariant
  is that the roster and topics hold trimmed, non-empty, distinct names, and
  that the category selection is never empty and holds Custom only alone.
- `StartGameDialog`: the dialog's summary, `millisecondsToTime`, and the
  submit callbacks.
- `GameStore`: `startGame` and `playAgain` as functions of the setup
  configuration, the word catalog and the `Math.random()` draws.
- `Conversation`: the discussion countdown as a class driven by interval
  ticks and button events. The music player is a ghost log of commands.
- `Voting` and `Results`: the voting screen, as a class, and the verdict.
- `Palette`, `HoldToReveal`, `WordFlashCard` and `SimpleFlashCard`: the
  per-player colours, the hold-to-reveal gesture both cards share, and what
  each card shows.

The model follows the code, including where it behaves differently from
what the game's rules suggest:

- `startGame` looks a clue up in the catalog whenever clues are on, even
  for a custom-topic word. Such a lookup finds nothing, so the clue is
  `undefined`, unless the custom topic is also a catalog word, in which case
  that entry's catalog clue is used.
- `playAgain` keeps clues on only when the previous clue was neither `null`
  nor `undefined`. It stores `null` for a missing or empty catalog clue
  (`|| null`), so a single word without a clue switches clues off for the
  rest of the session (`GameStore.NoClueStaysOff`).
- The results screen compares with `===` on values that may be `undefined`.
  So without a vote, on a round without an imposter (an empty roster), the
  players win (`Results.NoVoteOnEmptyRosterWins`).
- The voting screen's confirm handler closes the dialog and reports the
  pick, but its navigation to the results screen is commented out.
- The results screen's Play Again button routes back to the setup screen;
  it does not call `playAgain`.

`formatTime` on the discussion screen and `millisecondsToTime` in the
dialog are the same computation. Both are modelled once, as
`StartGameDialog.MillisecondsToTime`.

## Model

| member | source | states |
|---|---|---|
| Js.At | app/store/gameStore.tsx:20-25 | Indexing gives an element exactly when the index is in range, and `undefined` otherwise |
| Js.Rem | components/flashcards/word-flash-card.tsx:211 | JavaScript `%`: agrees with the mathematical remainder for a non-negative dividend, and is never positive for a negative one |
| Js.LeadingWhiteSpace | app/index.tsx:49 | The length of the longest all-white-space prefix: every code point before it is white space, and the next one is not |
| Js.TrailingWhiteSpace | app/index.tsx:49 | Where the longest all-white-space suffix begins: every code point from it on is white space, and the one before is not |
| Js.Trim | app/index.tsx:49 | `trim()` gives the infix left after removing only white space at both ends; the result neither starts nor ends with white space, and is empty exactly when the input is all white space |
| Js.TrimmedIsFixed | app/index.tsx:49 | A text is left unchanged by trim exactly when it neither starts nor ends with white space, and trim always gives such a text |
| Js.TrimIdempotent | app/index.tsx:61 | Trimming twice is trimming once |
| Js.JoinAppend | app/results-page.tsx:108 | `join` lists the elements in order: appending an element appends it, behind one separator, to the joined text |
| Js.Split | app/index.tsx:32 | `split` with a one-character separator gives at least one piece, no piece contains the separator, and joining the pieces with it gives back the input |
| Js.SplitWithoutSeparator | app/index.tsx:32 | A text without the separator splits into itself alone |
| Js.SplitAtFirstSeparator | app/index.tsx:32 | Splitting at the first separator takes the separator-free prefix as the first piece |
| Js.SplitTwoPieces | app/index.tsx:32 | `"a:b"` with colon-free `a` and `b` splits into exactly `[a, b]` |
| Js.ToNumber | app/index.tsx:32 | `Number()` gives a number exactly on digit strings, and then their decimal value |
| Js.ZerosValue | components/dialogs/start-game-dialog.tsx:27 | A string of zeros is a digit string of value 0 |
| Js.LeadingZeros | components/dialogs/start-game-dialog.tsx:27 | Prefixing zeros keeps a digit string's value |
| Js.DigitChar | components/dialogs/start-game-dialog.tsx:27 | Converting a digit below 10 gives a digit character of that value |
| Js.NatToString | components/dialogs/start-game-dialog.tsx:27 | `toString()` on a non-negative integer gives non-empty digits without a leading zero, whose value is the number; one digit exactly below 10, at most two below 100 |
| Js.IntToString | components/flashcards/word-flash-card.tsx:33 | A non-negative integer's text reads back as the integer; a negative one's is `-` followed by the text of its magnitude |
| Js.PadStart | components/dialogs/start-game-dialog.tsx:27 | `padStart` keeps the text as a suffix, pads it with the fill character on the left only, and reaches the width when the text was shorter |
| Js.Join | app/results-page.tsx:108 | Array `join`; its properties are stated by `Js.JoinAppend` (elements in order, one separator between neighbours) and by `Js.Split`, whose pieces join back to the split text |
| Js.ZeroPaddedValue | components/dialogs/start-game-dialog.tsx:27 | Zero-padding a number's text keeps its value |
| GameCategories.Position | app/categories-topics/gameCategories.ts:1-16 | Every category stands at a position of the list, and the list holds it there |
| GameCategories.CategoryList | app/categories-topics/gameCategories.ts:1-16 | Eleven categories, Custom first, none twice, and every category is listed |
| GameCategories.LabelsDistinct | app/categories-topics/gameCategories.ts:1-13 | No label is listed twice |
| GameCategories.CategoryLabels | app/categories-topics/gameCategories.ts:1-16 | Each listed category has the label at its position; labels identify categories, and every label names one |
| GameTime.TimerOptions | app/categories-topics/gameTime.ts:1-10 | Five options, each one digit of minutes, a colon and two digits of seconds (00 or 30) |
| Setup.FromClockPieces | app/index.tsx:31-34 | Two numeric pieces convert to (minutes * 60 + seconds) * 1000 |
| Setup.ClockPieces | app/index.tsx:32 | The first two colon-separated pieces through `Number()`, a missing piece being NaN; `Setup.ClockPiecesOfMinutesSeconds` states that `"M:SS"` gives the numbers of M and SS |
| Setup.TimeToMilliseconds | app/index.tsx:31-34 | timeToMilliseconds; its contract is `Setup.MinutesSecondsToMilliseconds` (`"M:SS"` gives (M * 60 + SS) * 1000), `Setup.TimerOptionsInMilliseconds` (the values of the five options) and `StartGameDialog.MillisecondsToTimeReadsBack` (it inverts millisecondsToTime up to whole seconds) |
| Setup.DigitsHaveNoColon | app/index.tsx:32 | A digit string contains no colon |
| Setup.ClockPiecesOfMinutesSeconds | app/index.tsx:32 | `"M:SS"` with digit pieces splits into the numbers of M and SS |
| Setup.MinutesSecondsToMilliseconds | app/index.tsx:31-34 | `"M:SS"` converts to (M * 60 + SS) * 1000 milliseconds |
| Setup.TimerOptionsInMilliseconds | app/index.tsx:31-34 | The options convert to 60000, 90000, 120000, 150000 and 180000 ms, in order; the default is the first option |
| Setup.ClockOption | app/index.tsx:31-34 | A one-digit-minute, two-digit-second text converts to its duration |
| Setup.TimerConverts | app/index.tsx:105 | Every selectable timer converts to a number |
| Setup.AddEntry | app/index.tsx:48-66 | addPlayer/addTopic append the trimmed input exactly when it is non-empty and not yet listed, and keep the list otherwise; the list stays duplicate-free and clean |
| Setup.AppendKeepsNoDuplicates | app/index.tsx:62-63 | Appending an unlisted entry keeps the list duplicate-free |
| Setup.AppendKeepsClean | app/index.tsx:61-63 | Appending a trimmed non-empty entry keeps the list clean |
| Setup.Without | app/index.tsx:56-58 | `filter(y => y !== x)` removes every occurrence of `x`, keeps every other entry and adds none, and changes nothing when `x` is absent |
| Setup.WithoutRemovesOne | app/index.tsx:68-70 | On a duplicate-free roster, removing a listed player deletes exactly that position and keeps the order of the rest |
| Setup.WithoutKeepsClean | app/index.tsx:68-70 | Removing an entry keeps the list clean |
| Setup.InitialSelection | app/index.tsx:40-42 | The screen starts with every category selected except Custom |
| Setup.Toggled | app/index.tsx:72-85 | toggleCategory never removes the sole selection; Custom is selected alone and deselected alone; another category drops Custom and flips only that category; the selection invariant is kept |
| Setup.SetupForm.constructor | app/index.tsx:40-46 | The initial state: the initial selection, empty lists and fields, no clue, the default timer |
| Setup.SetupForm.SetCurrentPlayer | app/index.tsx:147 | Typing sets the player field |
| Setup.SetupForm.AddPlayer | app/index.tsx:60-66 | The roster becomes `AddEntry` of roster and field; the field clears only when the name was added; the invariant is kept |
| Setup.SetupForm.RemovePlayer | app/index.tsx:68-70 | The roster becomes `Without` the player; the invariant is kept |
| Setup.SetupForm.SetCurrentTopic | app/index.tsx:229 | Typing sets the topic field |
| Setup.SetupForm.AddTopic | app/index.tsx:48-54 | The custom topics become `AddEntry` of topics and field; the field clears only when the topic was added |
| Setup.SetupForm.RemoveTopic | app/index.tsx:56-58 | The topics become `Without` the topic |
| Setup.SetupForm.ToggleCategory | app/index.tsx:72-85 | The selection becomes `Toggled`; the invariant is kept |
| Setup.SetupForm.OnClickClueToggle | app/index.tsx:273-289 | The clue choice changes only while the radio group is enabled (Custom not selected) |
| Setup.SetupForm.ApplyClueEffect | app/index.tsx:91-95 | After the effect, Custom implies no clue; otherwise the clue is unchanged |
| Setup.SetupForm.SelectTimer | app/index.tsx:311-320 | Choosing an option sets the timer |
| Setup.SetupForm.HandleSubmit | app/index.tsx:100-114 | The configuration carries the selection, roster, clue and converted timer; custom topics only with Custom; never a clue with custom topics once settled; with the start button enabled, at least three players and, with Custom, three topics |
| Setup.SetupForm.StartEnabled | app/index.tsx:331-335 | The start button's enable condition; `Setup.SetupForm.HandleSubmit` states that an enabled button submits at least three players and, with Custom, at least three topics |
| StartGameDialog.MillisecondsToTimeReadsBack | components/dialogs/start-game-dialog.tsx:24-29 | Read back by timeToMilliseconds, the shown time is the duration rounded down to whole seconds |
| StartGameDialog.MillisecondsToTimeShape | components/dialogs/start-game-dialog.tsx:24-29 | The shown time is the minutes' digits, a colon and two digits of the seconds within the minute |
| StartGameDialog.MillisecondsToTime | components/dialogs/start-game-dialog.tsx:24-29 | millisecondsToTime, and the identical formatTime of app/conversation-page.tsx:110-115; its contract is `StartGameDialog.MillisecondsToTimeReadsBack` (read back, the duration rounded down to seconds), `StartGameDialog.MillisecondsToTimeShape` (minutes, colon, two seconds digits) and `StartGameDialog.TimerOptionsShown` (each option shows as itself) |
| StartGameDialog.ClockString | components/dialogs/start-game-dialog.tsx:27-28 | Minutes, a colon and zero-padded seconds; `StartGameDialog.ClockText` states that it converts back to its duration and `StartGameDialog.ClockShape` that it can be taken apart again |
| StartGameDialog.ClockText | components/dialogs/start-game-dialog.tsx:24-29 | A clock text with seconds below 60 converts back to its duration |
| StartGameDialog.ClockShape | components/dialogs/start-game-dialog.tsx:27-28 | Minutes, a colon and two seconds digits can be taken apart again |
| StartGameDialog.OneMinuteClock | components/dialogs/start-game-dialog.tsx:24-29 | One minute shows as `1:00` |
| StartGameDialog.OneAndAHalfMinutesClock | components/dialogs/start-game-dialog.tsx:24-29 | Ninety seconds show as `1:30` |
| StartGameDialog.TwoMinutesClock | components/dialogs/start-game-dialog.tsx:24-29 | Two minutes show as `2:00` |
| StartGameDialog.TwoAndAHalfMinutesClock | components/dialogs/start-game-dialog.tsx:24-29 | 150 seconds show as `2:30` |
| StartGameDialog.ThreeMinutesClock | components/dialogs/start-game-dialog.tsx:24-29 | Three minutes show as `3:00` |
| StartGameDialog.TimerOptionsShown | components/dialogs/start-game-dialog.tsx:85 | Each timer option, converted to milliseconds, is shown as that same option |
| StartGameDialog.TimerText | components/dialogs/start-game-dialog.tsx:24-29 | The shown time depends only on whole minutes and seconds |
| StartGameDialog.Labels | components/dialogs/start-game-dialog.tsx:59 | The categories' labels, one per category, in order |
| StartGameDialog.Render | components/dialogs/start-game-dialog.tsx:33-85 | Nothing without a configuration; otherwise labels, players joined by ", ", custom topics only when present and non-empty, the player count, Yes/No for the clue, and the formatted time |
| StartGameDialog.HandleSubmit | components/dialogs/start-game-dialog.tsx:40-43 | The dialog first asks to close, then starts the round with exactly the configuration shown |
| GameStore.RandomIndex | app/store/gameStore.tsx:20 | `Math.floor(Math.random() * n)` is an index below `n` (0 when n is 0) |
| GameStore.EveryIndexReachable | app/store/gameStore.tsx:20 | Every index below `n` is drawn by some value of Math.random() |
| GameStore.RandomElement | app/store/gameStore.tsx:20-25 | A random pick is defined exactly on a non-empty array, and is one of its elements |
| GameStore.EveryElementReachable | app/store/gameStore.tsx:20-25 | Every element can be the one picked |
| GameStore.CatalogWords | app/store/gameStore.tsx:23-24 | The pool holds exactly the catalog words of the chosen categories |
| GameStore.WordPool | app/store/gameStore.tsx:21-25 | The custom topics when present and non-empty, else the catalog words of the chosen categories; `GameStore.RandomWordSource` states where a drawn word comes from |
| GameStore.FindClue | app/store/gameStore.tsx:28-30 | `find(...)?.clue` is defined exactly when the word is in the catalog, and is the clue of its first entry |
| GameStore.FirstEntryClue | app/store/gameStore.tsx:28 | The entry `find` stops at is the first with the word, so a later entry for the same word never supplies the clue |
| GameStore.RandomWordSource | app/store/gameStore.tsx:21-25 | The word comes from the custom topics when there are some, else from a catalog entry of a chosen category, and exists exactly when such an entry does |
| GameStore.StartGame | app/store/gameStore.tsx:19-42 | The round keeps the configuration; the imposter is one of the players (exists iff the roster is non-empty); the word comes from the right pool; the clue is null with clues off, `undefined` exactly when the word has no catalog entry, else the clue of the word's first catalog entry, as `find` gives it |
| GameStore.CatalogWordHasClue | app/store/gameStore.tsx:26-31 | With clues on and no custom topics, a drawn word always has a clue text |
| GameStore.EveryChoiceReachable | app/store/gameStore.tsx:19-42 | Any player can be made the imposter together with any word of the pool |
| GameStore.HadClue | app/store/gameStore.tsx:60 | The previous clue is neither `null` nor `undefined`; `GameStore.PlayAgain` and `GameStore.NoClueStaysOff` state its effect on the next rounds |
| GameStore.PlayAgain | app/store/gameStore.tsx:43-75 | Same players, categories, topics and timer; a fresh imposter and word drawn as startGame does; a clue text exactly when the previous round had one and the word's first catalog entry has a non-empty clue, and then that entry's clue; never `undefined` |
| GameStore.PlayAgainDrawsLikeStartGame | app/store/gameStore.tsx:45-56 | Playing again draws the imposter and word a fresh start with the same draws would |
| GameStore.NoClueStaysOff | app/store/gameStore.tsx:58-62 | Once a round has no clue text, no later round of the session has one |
| Conversation.NextRemaining | app/conversation-page.tsx:86-93 | A tick takes one second off and stops at zero; it reaches zero exactly when at most a second was left |
| Conversation.CountdownValue | app/conversation-page.tsx:83-100 | After n ticks the remaining time is n seconds less, but never below zero |
| Conversation.CountdownEnds | app/conversation-page.tsx:83-100 | The countdown reaches zero after as many ticks as it has started seconds, and not before |
| Conversation.DiscussionTimer.ShownControls | app/conversation-page.tsx:161-201 | The start button before the start; pause/resume and skip while time is left, labelled Resume while paused; the voting button once time is up |
| Conversation.DiscussionTimer.Running | app/conversation-page.tsx:84 | The interval runs while started, not paused and with time left; `Conversation.DiscussionTimer.Tick`, `HandleStart`, `HandlePause` and `HandleSkipConfirm` state how each event leaves it |
| Conversation.DiscussionTimer.View | app/conversation-page.tsx:102-155 | The fallback without a round; otherwise the formatted time, the paused banner iff paused, and the controls |
| Conversation.DiscussionTimer.constructor | app/conversation-page.tsx:28-36 | Not started, not paused, the dialog closed, and the round's timer as the remaining time |
| Conversation.DiscussionTimer.Tick | app/conversation-page.tsx:83-100 | While running, one second goes and the music stops when it reaches zero; otherwise nothing changes |
| Conversation.DiscussionTimer.HandleStart | app/conversation-page.tsx:117-120 | The timer starts and the music plays |
| Conversation.DiscussionTimer.HandlePause | app/conversation-page.tsx:122-129 | Toggles pause, pausing or playing the music; the remaining time is untouched |
| Conversation.DiscussionTimer.OpenSkipDialog | app/conversation-page.tsx:184 | The skip button opens the dialog |
| Conversation.DiscussionTimer.OnSkipDialogOpenChange | app/conversation-page.tsx:205 | The dialog follows its open-change callback |
| Conversation.DiscussionTimer.HandleSkipConfirm | app/conversation-page.tsx:131-136 | The dialog closes, no time is left and the music stops; the timer never runs again and the voting button shows |
| Conversation.DiscussionTimer.HandleMoveToVoting | app/conversation-page.tsx:138-142 | The round is handed to the voting screen unchanged |
| Conversation.DiscussionTimer.PauseThenResume | app/conversation-page.tsx:122-129 | Pausing then resuming leaves the remaining time where it was and logs Pause then Play |
| Voting.Tiles | app/voting-page.tsx:99-107 | One tile per player, in roster order, coloured by its index modulo 8, marked exactly when the player is the pick |
| Voting.TileColorIsPlayerColor | app/voting-page.tsx:101-102 | Tile `i` has player number `i + 1`'s card colour |
| Voting.AtMostOneSelectedTile | app/voting-page.tsx:100 | On a roster without repeats, at most one tile is marked |
| Voting.VotingScreen.View | app/voting-page.tsx:61-162 | The fallback without a round; otherwise the tiles, the proceed button when the pick is a non-empty name, the dialog and its nominee |
| Voting.VotingScreen.ProceedShown | app/voting-page.tsx:135 | `selectedPlayer && …`: the Proceed button is there iff the pick is a non-empty name; `Voting.VotingScreen.View` shows it and `HandleProceedToResults` is only reachable through it |
| Voting.VotingScreen.constructor | app/voting-page.tsx:22-23 | No pick and the dialog closed |
| Voting.VotingScreen.HandlePlayerSelect | app/voting-page.tsx:69-71 | The pick becomes the chosen player, whose tile is then marked |
| Voting.VotingScreen.HandleProceedToResults | app/voting-page.tsx:73-75 | Proceed opens the dialog |
| Voting.VotingScreen.OnDialogOpenChange | app/voting-page.tsx:149 | The dialog follows its open-change callback |
| Voting.VotingScreen.GoBack | app/voting-page.tsx:162 | Go Back closes the dialog and keeps the pick |
| Voting.VotingScreen.HandleConfirmVote | app/voting-page.tsx:77-82 | Confirming closes the dialog and reports the pick, which is one of the round's players |
| Results.ShownClue | app/results-page.tsx:93 | The clue section appears exactly for a non-empty clue text |
| Results.PlayersWinVote | app/results-page.tsx:24-25 | `votedPlayer === gamePayload.imposter` with either side possibly `undefined`; `Results.ExactlyOneWinningName`, `Results.ExactlyOneWinningVote` and `Results.NoVoteOnEmptyRosterWins` state which votes win |
| Results.ResultsPage | app/results-page.tsx:13-190 | The fallback without a round; otherwise the players win exactly when the vote equals the imposter, the imposter is revealed only when they lose, and the vote, word, clue and joined players are shown |
| Results.ExactlyOneWinningName | app/results-page.tsx:24-25 | When the imposter is one of the distinct players, exactly one player's name wins the vote |
| Results.ExactlyOneWinningVote | app/results-page.tsx:24-25 | In a round dealt by startGame to distinct players, exactly one player's name wins the vote |
| Results.NoVoteOnEmptyRosterWins | app/results-page.tsx:24-25 | Without a vote, a round from an empty roster counts as a players' win |
| Palette.PlayerColor | components/flashcards/word-flash-card.tsx:211 | Player `n >= 1` gets entry `(n - 1) % length`; for `n < 1` the JavaScript index is defined only when it is 0 |
| Palette.PlayerColorPeriodic | components/flashcards/word-flash-card.tsx:211 | Colours repeat every eight players |
| Palette.CardColorsDistinct | components/flashcards/word-flash-card.tsx:101-110 | The eight card colours are distinct |
| Palette.FrontColorsDistinct | components/flashcards/simple-word-flash-card.tsx:62 | The eight front colours are distinct |
| Palette.DistinctWithinPalette | components/flashcards/simple-word-flash-card.tsx:62-63 | Any eight consecutive players get pairwise different colours |
| HoldToReveal.HoldTimer.constructor | components/flashcards/word-flash-card.tsx:190-191 | Face down, no handle, no timer pending |
| HoldToReveal.HoldTimer.PressIn | components/flashcards/word-flash-card.tsx:193-198 | A new timer is scheduled and its handle kept; the card does not flip yet |
| HoldToReveal.HoldTimer.TimerFires | components/flashcards/word-flash-card.tsx:195-197 | A pending timer fires once and flips the card |
| HoldToReveal.HoldTimer.PressOut | components/flashcards/word-flash-card.tsx:200-208 | The timer the handle names is cleared, the handle reset, and the cover always shown again |
| HoldToReveal.HoldTimer.TapWithoutHolding | components/flashcards/simple-word-flash-card.tsx:31-59 | A press released before its timer fires never shows the secret and leaves no timer behind |
| HoldToReveal.HoldTimer.HoldAndRelease | components/flashcards/simple-word-flash-card.tsx:31-59 | A press held until the timer fires shows the secret, and releasing shows the cover again |
| WordFlashCard.CardColor | components/flashcards/word-flash-card.tsx:211 | The given colour when it is a non-empty string, else the player's palette colour |
| WordFlashCard.Truthy | components/flashcards/word-flash-card.tsx:49 | A string that may be `undefined` as a condition: truthy iff defined and non-empty; used by `WordFlashCard.CardColor`, `WordFlashCard.RevealedFace` and `SimpleFlashCard.ShownClue` |
| WordFlashCard.Counter | components/flashcards/word-flash-card.tsx:32-34 | `{currentNumber} / {totalPlayers}`; `Js.IntToString` states that each number's text reads back as the number |
| WordFlashCard.ContentColor | components/flashcards/word-flash-card.tsx:20 | The card colour, or the content's default when it is `undefined` |
| WordFlashCard.CoverFace | components/flashcards/word-flash-card.tsx:20-38 | The cover shows the name and counter on the card colour |
| WordFlashCard.RevealedFace | components/flashcards/word-flash-card.tsx:40-70 | The imposter sees IMPOSTER on grey with the clue only when truthy; anyone else sees the word on the card colour |
| WordFlashCard.RestingFace | components/flashcards/word-flash-card.tsx:189-211 | The secret side exactly while flipped, the cover otherwise, with the counter on both |
| WordFlashCard.FirstEightCardsDiffer | components/flashcards/word-flash-card.tsx:211 | Without given colours, the first eight players' cards differ in colour |
| SimpleFlashCard.FrontColor | components/flashcards/simple-word-flash-card.tsx:62-63 | The front colour is the player's front-palette entry, whatever colour the card data carries |
| SimpleFlashCard.ShownClue | components/flashcards/simple-word-flash-card.tsx:134 | The clue when truthy, else the placeholder; never empty |
| SimpleFlashCard.ShownSide | components/flashcards/simple-word-flash-card.tsx:88-151 | The front exactly when not flipped, with name and front colour; the black back shows the imposter the banner and clue text, anyone else the word; the counter on both |
| SimpleFlashCard.BannerMisencoded | components/flashcards/simple-word-flash-card.tsx:127 | The banner as spelled carries four stray characters instead of the mask emoji |

## Left out

- Layout, styling, fonts, flip animations, the theme toggle, safe areas and
  the loading of the app's fonts are out. Only the texts and colours that
  carry game information are modelled.
- The music hook (hooks/audioHook.ts) is a ghost log of Play, Pause and Stop
  commands. Audio loading and playback are out.
- Navigation, JSON serialisation of the payloads between screens,
  `console.log` and alert popups are out. The payload each screen passes on
  is modelled as a value. A payload that fails to parse is out; a missing
  payload is the `None` case.
- The reveal screen (app/view-word.tsx) only renders placeholder cards. Its
  order of players is not part of this model, and no reveal cursor is
  invented.
- The `beforeRemove` navigation guards are out.
- The word catalog is a parameter, not the app's data file.
- `Math.random()` is a parameter drawn from [0, 1).
- `setInterval`, `setTimeout` and `clearTimeout` are modelled as events and
  a set of pending timers, not as real time.
- The setup screen's own `handleSubmit` (app/index.tsx:100-114) only builds
  the configuration and logs it. No file of the app renders the start-game
  dialog, so in the code at hand neither the dialog nor `startGame` is
  reached from the setup screen. The model keeps the configuration setup
  builds, and models the dialog and `startGame` on their own.
- Setup.TimeToMilliseconds: `Number()` is modelled only on digit strings.
  Texts with signs, decimals, exponents or surrounding white space are NaN in
  the model. This does not matter for the five timer options the screen offers.
- Setup.TimeToMilliseconds: only the read-back properties are proved (in
  the lemmas beside it), not a contract on the function itself.
- StartGameDialog.MillisecondsToTime: the contract is the two lemmas
  beside it, not an `ensures` on the function.
- The unused `cardColors` array of the simple card is not modelled; that
  card always uses its front colours.
- Repeated presses without a release leave earlier timers running, because
  only the latest handle is kept. The model captures this through the set
  of pending timers; it does not model reordering of timer firings.

## Findings

| source | as written | input that shows it | evidently intended | confidence | as-written member | corrected member |
|---|---|---|---|---|---|---|
| components/flashcards/simple-word-flash-card.tsx:127 | The imposter banner is the text `ðŸŽ­ IMPOSTER`: the UTF-8 bytes of the mask emoji decoded as Windows-1252 | Any imposter's card held until it flips | The mask emoji followed by ` IMPOSTER` | not executed | SimpleFlashCard.BannerMisencoded | SimpleFlashCard.ShownSide |
