/** The game store: starting a round from the setup configuration and
    starting another round with the same players. Math.random() is an
    argument in [0, 1); the word catalog is an argument. */
module GameStore {
  import opened Js
  import opened GameCategories
  import opened Setup

  /** A round's clue: JSON `null`, `undefined` (no catalog entry was found),
      or a text. */
  datatype Clue = NullClue | Undefined | Text(text: string)

  /** The configuration of one round, as it is handed from screen to screen.
      An absent word or imposter is `undefined`. */
  datatype FinalGamePayload = FinalGamePayload(
    players: seq<string>,
    categories: seq<GameCategory>,
    word: Option<string>,
    clue: Clue,
    timer: nat,
    imposter: Option<string>,
    customTopics: Option<seq<string>>)

  // ---------------------------------------------------------------------------
  // random choices

  /** What `Math.floor(Math.random() * n)` can be: an index below `n`, or 0
      when there is nothing to choose from. */
  predicate ValidPick(i: nat, n: nat) {
    if n == 0 then i == 0 else i < n
  }

  /** `Math.floor(r * n)` for a draw `r` of Math.random(). */
  function RandomIndex(r: real, n: nat): (i: nat)
    requires 0.0 <= r < 1.0
    ensures ValidPick(i, n)
  {
    var x := r * n as real;
    assert 0.0 <= x && (n > 0 ==> x < n as real);
    x.Floor
  }

  /** Every index can come out of the draw. */
  lemma EveryIndexReachable(i: nat, n: nat)
    requires i < n
    ensures 0.0 <= i as real / n as real < 1.0
    ensures RandomIndex(i as real / n as real, n) == i
  {
    var r := i as real / n as real;
    assert r * n as real == i as real;
  }

  /** `xs[Math.floor(Math.random() * xs.length)]`: one of the elements, or
      `undefined` when there is none. */
  function RandomElement<T>(xs: seq<T>, r: real): (x: Option<T>)
    requires 0.0 <= r < 1.0
    ensures x.Some? <==> xs != []
    ensures x.Some? ==> x.value in xs
  {
    At(xs, RandomIndex(r, |xs|))
  }

  /** Every element can be the one drawn. */
  lemma EveryElementReachable<T>(xs: seq<T>, i: nat)
    requires i < |xs|
    ensures 0.0 <= i as real / |xs| as real < 1.0
    ensures RandomElement(xs, i as real / |xs| as real) == Some(xs[i])
  {
    EveryIndexReachable(i, |xs|);
  }

  // ---------------------------------------------------------------------------
  // the word pool

  /** The catalog words of the chosen categories, in catalog order. */
  function CatalogWords(catalog: seq<GameWord>, categories: seq<GameCategory>): (pool: seq<string>)
    ensures |pool| <= |catalog|
    ensures forall w :: w in pool ==>
      exists k :: 0 <= k < |catalog| && catalog[k].word == w && catalog[k].category in categories
    ensures forall k :: 0 <= k < |catalog| && catalog[k].category in categories ==> catalog[k].word in pool
  {
    if catalog == [] then []
    else
      var rest := CatalogWords(catalog[1..], categories);
      assert forall k :: 1 <= k < |catalog| ==> catalog[k] == catalog[1..][k - 1];
      if catalog[0].category in categories then [catalog[0].word] + rest else rest
  }

  /** The custom topics are used when they are present and not empty. */
  predicate UsesCustomTopics(customTopics: Option<seq<string>>) {
    customTopics.Some? && |customTopics.value| > 0
  }

  /** The words a round draws from. */
  function WordPool(customTopics: Option<seq<string>>, categories: seq<GameCategory>,
                    catalog: seq<GameWord>): seq<string>
  {
    if UsesCustomTopics(customTopics) then customTopics.value else CatalogWords(catalog, categories)
  }

  /** `gameWords.find(gw => gw.word === word)?.clue`: the clue of the first
      catalog entry for the word; `undefined` when the word is absent or no
      entry has it. */
  function FindClue(catalog: seq<GameWord>, word: Option<string>): (clue: Option<string>)
    ensures clue.Some? <==> word.Some? && exists k :: 0 <= k < |catalog| && catalog[k].word == word.value
    ensures clue.Some? ==>
      exists k :: 0 <= k < |catalog| && catalog[k].word == word.value
        && catalog[k].clue == clue.value && forall j :: 0 <= j < k ==> catalog[j].word != word.value
  {
    if word.None? || catalog == [] then None
    else if catalog[0].word == word.value then Some(catalog[0].clue)
    else
      var rest := FindClue(catalog[1..], word);
      assert forall k :: 1 <= k < |catalog| ==> catalog[k] == catalog[1..][k - 1];
      if rest.Some? then
        var k :| 0 <= k < |catalog[1..]| && catalog[1..][k].word == word.value
          && catalog[1..][k].clue == rest.value && forall j :: 0 <= j < k ==> catalog[1..][j].word != word.value;
        assert catalog[k + 1].word == word.value && catalog[k + 1].clue == rest.value;
        assert forall j :: 0 <= j < k + 1 ==> catalog[j].word != word.value by {
          forall j | 0 <= j < k + 1 ensures catalog[j].word != word.value {
            if j > 0 { assert catalog[j] == catalog[1..][j - 1]; }
          }
        }
        rest
      else
        assert forall k :: 0 <= k < |catalog| ==> catalog[k].word != word.value by {
          forall k | 0 <= k < |catalog| ensures catalog[k].word != word.value {
            if k > 0 { assert catalog[k] == catalog[1..][k - 1]; }
          }
        }
        rest
  }

  /** The entry `find` stops at is the first one with the word. */
  lemma FirstEntryClue(catalog: seq<GameWord>, word: string, k: nat)
    requires k < |catalog| && catalog[k].word == word
    requires forall j :: 0 <= j < k ==> catalog[j].word != word
    ensures FindClue(catalog, Some(word)) == Some(catalog[k].clue)
  {
    var c := FindClue(catalog, Some(word));
    var k' :| 0 <= k' < |catalog| && catalog[k'].word == word
      && catalog[k'].clue == c.value && forall j :: 0 <= j < k' ==> catalog[j].word != word;
    assert k' == k;
  }

  // ---------------------------------------------------------------------------
  // startGame

  /** The word a round gets: drawn from the custom topics when there are any,
      otherwise from the catalog words of the chosen categories. */
  lemma RandomWordSource(customTopics: Option<seq<string>>, categories: seq<GameCategory>,
                         catalog: seq<GameWord>, r: real)
    requires 0.0 <= r < 1.0
    ensures var w := RandomElement(WordPool(customTopics, categories, catalog), r);
      && (UsesCustomTopics(customTopics) ==> w.Some? && w.value in customTopics.value)
      && (!UsesCustomTopics(customTopics) ==>
            (w.Some? <==> exists k :: 0 <= k < |catalog| && catalog[k].category in categories)
            && (w.Some? ==> exists k :: 0 <= k < |catalog| && catalog[k].word == w.value
                                          && catalog[k].category in categories))
  {
    var pool := WordPool(customTopics, categories, catalog);
    if !UsesCustomTopics(customTopics) {
      if exists k :: 0 <= k < |catalog| && catalog[k].category in categories {
        var k :| 0 <= k < |catalog| && catalog[k].category in categories;
        assert catalog[k].word in pool;
      }
    }
  }

  /** startGame: an imposter drawn from the players, a word drawn from the
      word pool, and, only when clues are on, the catalog clue of that word.
      `imposterDraw` and `wordDraw` are the two results of Math.random(). */
  function StartGame(game: GamePayload, catalog: seq<GameWord>, imposterDraw: real, wordDraw: real)
    : (round: FinalGamePayload)
    requires 0.0 <= imposterDraw < 1.0 && 0.0 <= wordDraw < 1.0
    ensures round.players == game.players && round.categories == game.categories
    ensures round.customTopics == game.customTopics && round.timer == game.timeInMs
    ensures round.imposter.Some? <==> game.players != []
    ensures round.imposter.Some? ==> round.imposter.value in game.players
    ensures UsesCustomTopics(game.customTopics) ==> round.word.Some? && round.word.value in game.customTopics.value
    ensures !UsesCustomTopics(game.customTopics) ==>
      (round.word.Some? <==> exists k :: 0 <= k < |catalog| && catalog[k].category in game.categories)
    ensures !UsesCustomTopics(game.customTopics) && round.word.Some? ==>
      exists k :: 0 <= k < |catalog| && catalog[k].word == round.word.value && catalog[k].category in game.categories
    ensures !game.clue ==> round.clue == NullClue
    ensures game.clue ==> !round.clue.NullClue?
    ensures game.clue ==> (round.clue.Undefined? <==>
      round.word.None? || forall k :: 0 <= k < |catalog| ==> catalog[k].word != round.word.value)
    ensures round.clue.Text? ==>
      exists k :: 0 <= k < |catalog| && catalog[k].word == round.word.value && catalog[k].clue == round.clue.text
        && forall j :: 0 <= j < k ==> catalog[j].word != round.word.value
  {
    var imposter := RandomElement(game.players, imposterDraw);
    var word := RandomElement(WordPool(game.customTopics, game.categories, catalog), wordDraw);
    RandomWordSource(game.customTopics, game.categories, catalog, wordDraw);
    var clue :=
      if game.clue then
        match FindClue(catalog, word)
        case Some(c) => Text(c)
        case None => Undefined
      else NullClue;
    FinalGamePayload(game.players, game.categories, word, clue, game.timeInMs, imposter, game.customTopics)
  }

  /** With clues on and no custom topics, a drawn word always has a clue:
      it came from the catalog. */
  lemma CatalogWordHasClue(game: GamePayload, catalog: seq<GameWord>, imposterDraw: real, wordDraw: real)
    requires 0.0 <= imposterDraw < 1.0 && 0.0 <= wordDraw < 1.0
    requires game.clue && !UsesCustomTopics(game.customTopics)
    ensures var round := StartGame(game, catalog, imposterDraw, wordDraw);
      round.word.Some? ==> round.clue.Text?
  {
    var round := StartGame(game, catalog, imposterDraw, wordDraw);
    if round.word.Some? {
      var k :| 0 <= k < |catalog| && catalog[k].word == round.word.value && catalog[k].category in game.categories;
    }
  }

  /** Any player can be made the imposter, and any word of the pool can be
      drawn. */
  lemma EveryChoiceReachable(game: GamePayload, catalog: seq<GameWord>, i: nat, j: nat)
    requires i < |game.players| && j < |WordPool(game.customTopics, game.categories, catalog)|
    ensures var pool := WordPool(game.customTopics, game.categories, catalog);
      var round := StartGame(game, catalog, i as real / |game.players| as real, j as real / |pool| as real);
      round.imposter == Some(game.players[i]) && round.word == Some(pool[j])
  {
    EveryElementReachable(game.players, i);
    EveryElementReachable(WordPool(game.customTopics, game.categories, catalog), j);
  }

  // ---------------------------------------------------------------------------
  // playAgain

  /** Whether the previous round had clues on, judged by its clue being
      neither `null` nor `undefined`. */
  predicate HadClue(clue: Clue) {
    clue.Text?
  }

  /** playAgain: the same players, categories, custom topics and timer; a
      fresh imposter and word drawn as startGame draws them; a clue only when
      the previous round had one, and then the word's catalog clue unless it
      is missing or empty (`|| null`). */
  function PlayAgain(previous: FinalGamePayload, catalog: seq<GameWord>, imposterDraw: real, wordDraw: real)
    : (round: FinalGamePayload)
    requires 0.0 <= imposterDraw < 1.0 && 0.0 <= wordDraw < 1.0
    ensures round.players == previous.players && round.categories == previous.categories
    ensures round.customTopics == previous.customTopics && round.timer == previous.timer
    ensures round.imposter.Some? <==> previous.players != []
    ensures round.imposter.Some? ==> round.imposter.value in previous.players
    ensures round.word == RandomElement(WordPool(previous.customTopics, previous.categories, catalog), wordDraw)
    ensures !round.clue.Undefined?
    ensures round.clue.Text? <==>
      (HadClue(previous.clue) && round.word.Some? &&
       exists k :: 0 <= k < |catalog| && catalog[k].word == round.word.value && catalog[k].clue != ""
         && forall j :: 0 <= j < k ==> catalog[j].word != round.word.value)
    ensures round.clue.Text? ==> round.clue.text != ""
    ensures round.clue.Text? ==>
      exists k :: 0 <= k < |catalog| && catalog[k].word == round.word.value && catalog[k].clue == round.clue.text
        && forall j :: 0 <= j < k ==> catalog[j].word != round.word.value
  {
    var imposter := RandomElement(previous.players, imposterDraw);
    var word := RandomElement(WordPool(previous.customTopics, previous.categories, catalog), wordDraw);
    var clue :=
      if HadClue(previous.clue) then
        match FindClue(catalog, word)
        case Some(c) => if c != "" then Text(c) else NullClue
        case None => NullClue
      else NullClue;
    assert clue.Text? <== HadClue(previous.clue) && word.Some? &&
      exists k :: 0 <= k < |catalog| && catalog[k].word == word.value && catalog[k].clue != ""
        && forall j :: 0 <= j < k ==> catalog[j].word != word.value
    by {
      if HadClue(previous.clue) && word.Some? &&
        exists k :: 0 <= k < |catalog| && catalog[k].word == word.value && catalog[k].clue != ""
          && forall j :: 0 <= j < k ==> catalog[j].word != word.value
      {
        var k :| 0 <= k < |catalog| && catalog[k].word == word.value && catalog[k].clue != ""
          && forall j :: 0 <= j < k ==> catalog[j].word != word.value;
        FirstEntryClue(catalog, word.value, k);
      }
    }
    FinalGamePayload(previous.players, previous.categories, word, clue, previous.timer, imposter, previous.customTopics)
  }

  /** Another round draws its imposter and word exactly as a fresh start with
      the same configuration would. */
  lemma PlayAgainDrawsLikeStartGame(game: GamePayload, catalog: seq<GameWord>,
                                    a: real, b: real, c: real, d: real)
    requires 0.0 <= a < 1.0 && 0.0 <= b < 1.0 && 0.0 <= c < 1.0 && 0.0 <= d < 1.0
    ensures var again := PlayAgain(StartGame(game, catalog, a, b), catalog, c, d);
      var restart := StartGame(game, catalog, c, d);
      again.imposter == restart.imposter && again.word == restart.word
      && again.players == restart.players && again.categories == restart.categories
      && again.customTopics == restart.customTopics && again.timer == restart.timer
  {
  }

  /** Once a round has no clue text, every later round has none either: a
      word without an entry, or with an empty clue, switches clues off for the
      rest of the session. */
  lemma {:induction false} NoClueStaysOff(previous: FinalGamePayload, catalog: seq<GameWord>,
                                          draws: seq<real>)
    requires !HadClue(previous.clue) && |draws| % 2 == 0
    requires forall i :: 0 <= i < |draws| ==> 0.0 <= draws[i] < 1.0
    ensures !HadClue(Rounds(previous, catalog, draws).clue)
    decreases |draws|
  {
    if draws != [] {
      NoClueStaysOff(PlayAgain(previous, catalog, draws[0], draws[1]), catalog, draws[2..]);
    }
  }

  /** The round reached by playing again once per pair of draws. */
  function Rounds(previous: FinalGamePayload, catalog: seq<GameWord>, draws: seq<real>): FinalGamePayload
    requires |draws| % 2 == 0
    requires forall i :: 0 <= i < |draws| ==> 0.0 <= draws[i] < 1.0
    decreases |draws|
  {
    if draws == [] then previous
    else Rounds(PlayAgain(previous, catalog, draws[0], draws[1]), catalog, draws[2..])
  }
}
