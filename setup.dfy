/** The setup screen: the roster, the custom topics, the category selection,
    the clue and timer settings, and the configuration it submits. */
module Setup {
  import opened Js
  import opened GameCategories
  import opened GameTime

  /** The configuration the setup screen submits. `customTopics` is present
      only when Custom is selected. */
  datatype GamePayload = GamePayload(
    categories: seq<GameCategory>,
    customTopics: Option<seq<string>>,
    players: seq<string>,
    clue: bool,
    timeInMs: nat)

  /** The clue radio group's value. */
  datatype ClueChoice = Yes | No

  // ---------------------------------------------------------------------------
  // timeToMilliseconds

  /** The first two colon-separated pieces of a time text, converted with
      Number(); a missing piece is `undefined`, which converts to NaN (None). */
  function ClockPieces(time: string): (r: (Option<nat>, Option<nat>))
  {
    var parts := Split(time, ':');
    (ToNumber(parts[0]), if |parts| >= 2 then ToNumber(parts[1]) else None)
  }

  /** timeToMilliseconds: (minutes * 60 + seconds) * 1000 for the first two
      colon-separated pieces of the text; NaN (None) when a piece is missing
      or is not a number. */
  function TimeToMilliseconds(time: string): (ms: Option<nat>)
  {
    var (minutes, seconds) := ClockPieces(time);
    if minutes.Some? && seconds.Some? then Some((minutes.value * 60 + seconds.value) * 1000)
    else None
  }

  lemma FromClockPieces(time: string, minutes: nat, seconds: nat)
    requires ClockPieces(time) == (Some(minutes), Some(seconds))
    ensures TimeToMilliseconds(time) == Some((minutes * 60 + seconds) * 1000)
  {
  }

  lemma DigitsHaveNoColon(s: string)
    requires AllDigits(s)
    ensures ':' !in s
  {
  }

  lemma ClockPiecesOfMinutesSeconds(m: string, s: string)
    requires AllDigits(m) && AllDigits(s)
    ensures ClockPieces(m + ":" + s) == (ToNumber(m), ToNumber(s))
  {
    DigitsHaveNoColon(m);
    DigitsHaveNoColon(s);
    assert m + ":" + s == m + [':'] + s;
    SplitTwoPieces(m, ':', s);
  }

  /** "M:SS" converts to (M * 60 + SS) * 1000 milliseconds. */
  lemma MinutesSecondsToMilliseconds(m: string, s: string, minutes: nat, seconds: nat)
    requires ToNumber(m) == Some(minutes) && ToNumber(s) == Some(seconds)
    ensures TimeToMilliseconds(m + ":" + s) == Some((minutes * 60 + seconds) * 1000)
  {
    ClockPiecesOfMinutesSeconds(m, s);
    FromClockPieces(m + ":" + s, minutes, seconds);
  }

  /** Converted, the timer options are 60000 to 180000 ms in steps of 30000 ms,
      so they strictly increase; the default option is among them. */
  lemma TimerOptionsInMilliseconds()
    ensures |GameTimers| == 5
    ensures forall i :: 0 <= i < |GameTimers| ==>
      TimeToMilliseconds(GameTimers[i]) == Some(60000 + 30000 * i)
    ensures DefaultTimer == GameTimers[0]
  {
    forall i | 0 <= i < |GameTimers|
      ensures TimeToMilliseconds(GameTimers[i]) == Some(60000 + 30000 * i)
    {
      var m, s := ["1", "1", "2", "2", "3"][i], ["00", "30", "00", "30", "00"][i];
      assert GameTimers[i] == m + ":" + s;
      ClockOption(m, s, [1, 1, 2, 2, 3][i], [0, 30, 0, 30, 0][i]);
    }
  }

  lemma ClockOption(m: string, s: string, minutes: nat, seconds: nat)
    requires |m| == 1 && |s| == 2 && AllDigits(m) && AllDigits(s)
    requires minutes == m[0] as int - '0' as int
    requires seconds == (s[0] as int - '0' as int) * 10 + (s[1] as int - '0' as int)
    ensures TimeToMilliseconds(m + ":" + s) == Some((minutes * 60 + seconds) * 1000)
  {
    assert m[..0] == [] && s[..1] == [s[0]] && s[..1][..0] == [];
    assert DigitsValue(m) == DigitsValue(m[..0]) * 10 + (m[0] as int - '0' as int);
    assert DigitsValue(s[..1]) == DigitsValue(s[..1][..0]) * 10 + (s[0] as int - '0' as int);
    assert DigitsValue(s) == DigitsValue(s[..1]) * 10 + (s[1] as int - '0' as int);
    MinutesSecondsToMilliseconds(m, s, minutes, seconds);
  }

  /** Every timer option converts to a number of milliseconds. */
  lemma TimerConverts(t: GameTimer)
    ensures TimeToMilliseconds(t).Some?
  {
    TimerOptionsInMilliseconds();
    var i :| 0 <= i < |GameTimers| && GameTimers[i] == t;
  }

  // ---------------------------------------------------------------------------
  // adding and removing players and topics

  /** Every entry is non-empty and already trimmed. */
  predicate Clean(list: seq<string>) {
    forall i :: 0 <= i < |list| ==> list[i] != "" && Trimmed(list[i])
  }

  /** addPlayer / addTopic accept the input when its trimmed text is non-empty
      and not yet listed. */
  predicate Accepts(list: seq<string>, input: string) {
    Trim(input) != "" && Trim(input) !in list
  }

  /** The list after addPlayer / addTopic: the trimmed input appended when it
      is accepted, the list unchanged otherwise. */
  function AddEntry(list: seq<string>, input: string): (r: seq<string>)
    ensures |list| <= |r| <= |list| + 1 && r[..|list|] == list
    ensures |r| == |list| + 1 <==> Accepts(list, input)
    ensures |r| == |list| + 1 ==> r[|list|] == Trim(input)
    ensures NoDuplicates(list) ==> NoDuplicates(r)
    ensures Clean(list) ==> Clean(r)
  {
    if Accepts(list, input) then
      var x := Trim(input);
      AppendKeepsNoDuplicates(list, x);
      assert Clean(list) ==> Clean(list + [x]) by {
        if Clean(list) { TrimmedIsFixed(input); AppendKeepsClean(list, x); }
      }
      list + [x]
    else list
  }

  lemma AppendKeepsNoDuplicates<T>(list: seq<T>, x: T)
    requires x !in list
    ensures NoDuplicates(list) ==> NoDuplicates(list + [x])
  {
  }

  lemma AppendKeepsClean(list: seq<string>, x: string)
    requires Clean(list) && x != "" && Trimmed(x)
    ensures Clean(list + [x])
  {
  }

  /** `list.filter(y => y !== x)`. */
  function Without<T(==)>(list: seq<T>, x: T): (r: seq<T>)
    ensures x !in r
    ensures forall y :: y in list && y != x ==> y in r
    ensures forall y :: y in r ==> y in list
    ensures |r| <= |list|
    ensures x !in list ==> r == list
    ensures NoDuplicates(list) ==> NoDuplicates(r)
  {
    if list == [] then []
    else
      var rest := Without(list[1..], x);
      assert list == [list[0]] + list[1..];
      if list[0] == x then rest
      else
        assert NoDuplicates(list) ==> list[0] !in list[1..] && NoDuplicates(list[1..]);
        [list[0]] + rest
  }

  /** On a duplicate-free list, removing an entry deletes exactly its one
      position and keeps the order of the rest. */
  lemma {:induction false} WithoutRemovesOne<T>(list: seq<T>, i: nat)
    requires NoDuplicates(list) && i < |list|
    ensures Without(list, list[i]) == list[..i] + list[i + 1..]
  {
    if i == 0 {
      assert list[0] !in list[1..];
      assert list == [list[0]] + list[1..];
    } else {
      var tail := list[1..];
      assert NoDuplicates(tail);
      assert tail[i - 1] == list[i];
      WithoutRemovesOne(tail, i - 1);
      assert list[0] != list[i];
      assert list[..i] == [list[0]] + tail[..i - 1];
      assert list[i + 1..] == tail[i..];
    }
  }

  lemma WithoutKeepsClean(list: seq<string>, x: string)
    requires Clean(list)
    ensures Clean(Without(list, x))
  {
    var r := Without(list, x);
    forall i | 0 <= i < |r| ensures r[i] != "" && Trimmed(r[i]) {
      assert r[i] in list;
    }
  }

  // ---------------------------------------------------------------------------
  // the category selection

  /** The selection is never empty, holds no category twice, and Custom is
      only ever selected alone. */
  predicate SelectionInvariant(sel: seq<GameCategory>) {
    sel != [] && NoDuplicates(sel) && (Custom in sel ==> sel == [Custom])
  }

  /** The selection the screen starts with: every category but Custom. */
  function InitialSelection(): (sel: seq<GameCategory>)
    ensures SelectionInvariant(sel) && Custom !in sel
    ensures forall c: GameCategory :: c != Custom ==> c in sel
  {
    CategoryList();
    var sel := Without(GameCategoryList, Custom);
    assert GameCategoryList[1] in sel;
    sel
  }

  /** toggleCategory. The sole selected category is never removed; choosing
      Custom selects it alone; choosing another category drops Custom and then
      flips that category, leaving every other one as it was. */
  function Toggled(prev: seq<GameCategory>, c: GameCategory): (r: seq<GameCategory>)
    ensures SelectionInvariant(prev) ==> SelectionInvariant(r)
    ensures prev == [c] ==> r == prev
    ensures prev != [c] && c == Custom ==> r == if Custom in prev then [] else [Custom]
    ensures prev != [c] && c != Custom ==>
      Custom !in r && (c in r <==> c !in prev)
      && (forall d :: d in prev && d != c && d != Custom ==> d in r)
      && (forall d :: d in r && d != c ==> d in prev)
  {
    if |prev| == 1 && c in prev then
      assert prev == [c];
      prev
    else if c == Custom then
      if c in prev then [] else [c]
    else
      var withoutCustom := Without(prev, Custom);
      if c in withoutCustom then
        var r := Without(withoutCustom, c);
        assert SelectionInvariant(prev) ==> r != [] by {
          if SelectionInvariant(prev) {
            assert Custom !in prev;
            assert |prev| >= 2;
            var d := if prev[0] == c then prev[1] else prev[0];
            assert d in prev && d != c;
            assert d in r;
          }
        }
        r
      else
        assert NoDuplicates(withoutCustom + [c]) <== NoDuplicates(withoutCustom);
        withoutCustom + [c]
  }

  // ---------------------------------------------------------------------------
  // the screen

  class SetupForm {
    var selectedCategories: seq<GameCategory>
    var customTopics: seq<string>
    var currentTopic: string
    var players: seq<string>
    var currentPlayer: string
    var clues: ClueChoice
    var selectedTimer: GameTimer

    /** The lists stay duplicate-free and hold only trimmed, non-empty names,
        and the category selection keeps its invariant. */
    ghost predicate Valid()
      reads this
    {
      && SelectionInvariant(selectedCategories)
      && NoDuplicates(players) && Clean(players)
      && NoDuplicates(customTopics) && Clean(customTopics)
    }

    predicate CustomSelected()
      reads this
    {
      Custom in selectedCategories
    }

    /** The state once the clue effect has run: Custom forces the clue off. */
    predicate Settled()
      reads this
    {
      CustomSelected() ==> clues == No
    }

    /** The clue radio group is disabled while Custom is selected. */
    predicate ClueRadioDisabled()
      reads this
    {
      CustomSelected()
    }

    /** The start button's enable condition. */
    predicate StartEnabled()
      reads this
    {
      !((CustomSelected() && |customTopics| < 3) || |players| < 3)
    }

    constructor ()
      ensures Valid() && Settled()
      ensures selectedCategories == InitialSelection()
      ensures players == [] && currentPlayer == "" && customTopics == [] && currentTopic == ""
      ensures clues == No && selectedTimer == DefaultTimer
    {
      selectedCategories := InitialSelection();
      customTopics, currentTopic := [], "";
      players, currentPlayer := [], "";
      clues := No;
      selectedTimer := DefaultTimer;
    }

    /** Typing in the player field. */
    method SetCurrentPlayer(text: string)
      modifies this`currentPlayer
      ensures currentPlayer == text
    {
      currentPlayer := text;
    }

    /** addPlayer: the accepted, trimmed name is appended, and the field is
        cleared only when a player was added. */
    method AddPlayer()
      requires Valid()
      modifies this`players, this`currentPlayer
      ensures Valid()
      ensures players == AddEntry(old(players), old(currentPlayer))
      ensures currentPlayer == if Accepts(old(players), old(currentPlayer)) then "" else old(currentPlayer)
    {
      var updated := AddEntry(players, currentPlayer);
      if |updated| > |players| {
        currentPlayer := "";
      }
      players := updated;
    }

    /** removePlayer. */
    method RemovePlayer(player: string)
      requires Valid()
      modifies this`players
      ensures Valid()
      ensures players == Without(old(players), player)
    {
      WithoutKeepsClean(players, player);
      players := Without(players, player);
    }

    /** Typing in the topic field. */
    method SetCurrentTopic(text: string)
      modifies this`currentTopic
      ensures currentTopic == text
    {
      currentTopic := text;
    }

    /** addTopic: the same rule as addPlayer, on the custom topics. */
    method AddTopic()
      requires Valid()
      modifies this`customTopics, this`currentTopic
      ensures Valid()
      ensures customTopics == AddEntry(old(customTopics), old(currentTopic))
      ensures currentTopic == if Accepts(old(customTopics), old(currentTopic)) then "" else old(currentTopic)
    {
      var updated := AddEntry(customTopics, currentTopic);
      if |updated| > |customTopics| {
        currentTopic := "";
      }
      customTopics := updated;
    }

    /** removeTopic. */
    method RemoveTopic(topic: string)
      requires Valid()
      modifies this`customTopics
      ensures Valid()
      ensures customTopics == Without(old(customTopics), topic)
    {
      WithoutKeepsClean(customTopics, topic);
      customTopics := Without(customTopics, topic);
    }

    /** toggleCategory. */
    method ToggleCategory(category: GameCategory)
      requires Valid()
      modifies this`selectedCategories
      ensures Valid()
      ensures selectedCategories == Toggled(old(selectedCategories), category)
    {
      selectedCategories := Toggled(selectedCategories, category);
    }

    /** onClickClueToggle, reached through the radio group, which delivers no
        choice while it is disabled. */
    method OnClickClueToggle(value: ClueChoice)
      modifies this`clues
      ensures clues == if ClueRadioDisabled() then old(clues) else value
    {
      if !ClueRadioDisabled() {
        clues := value;
      }
    }

    /** The effect that runs after every change of the selection: Custom
        forces the clue setting to 'no'. */
    method ApplyClueEffect()
      modifies this`clues
      ensures Settled()
      ensures clues == if CustomSelected() then No else old(clues)
    {
      if CustomSelected() {
        clues := No;
      }
    }

    /** Choosing a timer option. */
    method SelectTimer(timer: GameTimer)
      modifies this`selectedTimer
      ensures selectedTimer == timer
    {
      selectedTimer := timer;
    }

    /** handleSubmit: the configuration built from the screen's state. The
        custom topics go along only when Custom is selected; once the clue
        effect has run no configuration asks for a clue with custom topics;
        and whenever the start button is enabled the configuration has at
        least three players and, with Custom, at least three topics. */
    method HandleSubmit() returns (payload: GamePayload)
      ensures payload.categories == selectedCategories && payload.players == players
      ensures payload.clue <==> clues == Yes
      ensures TimeToMilliseconds(selectedTimer) == Some(payload.timeInMs)
      ensures payload.customTopics == if CustomSelected() then Some(customTopics) else None
      ensures Settled() ==> !(payload.clue && payload.customTopics.Some?)
      ensures StartEnabled() ==>
        |payload.players| >= 3 && (payload.customTopics.Some? ==> |payload.customTopics.value| >= 3)
    {
      TimerConverts(selectedTimer);
      payload := GamePayload(selectedCategories, None, players, clues == Yes,
                             TimeToMilliseconds(selectedTimer).value);
      if CustomSelected() {
        payload := payload.(customTopics := Some(customTopics));
      }
    }
  }
}
