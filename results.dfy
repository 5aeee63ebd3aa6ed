/** The results screen: whether the players caught the imposter, and the
    round's details. */
module Results {
  import opened Js
  import opened GameStore
  import Setup
  import GameCategories

  /** The verdict: the players win, or the imposter wins and is revealed. */
  datatype Outcome = PlayersWin | ImposterWins(realImposter: Option<string>)

  datatype ResultsView =
    | NoGameData
    | GameOver(outcome: Outcome, votedPlayer: Option<string>, word: Option<string>, clue: Option<string>, players: string)

  /** `gamePayload.clue && …`: the clue section appears iff the clue is a
      non-empty text; `null` and `undefined` show nothing. */
  function ShownClue(clue: Clue): (shown: Option<string>)
    ensures shown.Some? <==> clue.Text? && clue.text != ""
    ensures shown.Some? ==> shown.value == clue.text
  {
    if clue.Text? && clue.text != "" then Some(clue.text) else None
  }

  /** `votedPlayer === gamePayload.imposter`, where either side may be
      `undefined`. */
  predicate PlayersWinVote(round: FinalGamePayload, votedPlayer: Option<string>) {
    votedPlayer == round.imposter
  }

  /** The fallback without a round; otherwise the verdict (the real imposter
      is revealed only when the players lose), the vote, the word, the clue
      when truthy, and the players joined by ", " in roster order. */
  function ResultsPage(payload: Option<FinalGamePayload>, votedPlayer: Option<string>): (view: ResultsView)
    ensures view.NoGameData? <==> payload.None?
    ensures view.GameOver? ==>
      var round := payload.value;
      && (view.outcome.PlayersWin? <==> votedPlayer == round.imposter)
      && (view.outcome.ImposterWins? ==> view.outcome.realImposter == round.imposter)
      && view.votedPlayer == votedPlayer && view.word == round.word
      && view.clue == ShownClue(round.clue)
      && view.players == Join(round.players, ", ")
  {
    match payload
    case None => NoGameData
    case Some(round) =>
      var outcome := if PlayersWinVote(round, votedPlayer) then PlayersWin else ImposterWins(round.imposter);
      GameOver(outcome, votedPlayer, round.word, ShownClue(round.clue), Join(round.players, ", "))
  }

  /** When the imposter is one of the players and no name is repeated,
      exactly one player's name wins the vote: the imposter's. */
  lemma ExactlyOneWinningName(round: FinalGamePayload)
    requires round.imposter.Some? && round.imposter.value in round.players
    requires NoDuplicates(round.players)
    ensures
      exists i :: 0 <= i < |round.players| && PlayersWinVote(round, Some(round.players[i]))
        && forall j :: 0 <= j < |round.players| && PlayersWinVote(round, Some(round.players[j])) ==> j == i
  {
    var i :| 0 <= i < |round.players| && round.players[i] == round.imposter.value;
    assert PlayersWinVote(round, Some(round.players[i]));
  }

  /** In a round dealt by startGame to a roster without repeated names,
      exactly one player's name wins the vote. */
  lemma ExactlyOneWinningVote(game: Setup.GamePayload, catalog: seq<GameCategories.GameWord>, imposterDraw: real, wordDraw: real)
    requires 0.0 <= imposterDraw < 1.0 && 0.0 <= wordDraw < 1.0
    requires game.players != [] && NoDuplicates(game.players)
    ensures var round := StartGame(game, catalog, imposterDraw, wordDraw);
      exists i :: 0 <= i < |game.players| && PlayersWinVote(round, Some(game.players[i]))
        && forall j :: 0 <= j < |game.players| && PlayersWinVote(round, Some(game.players[j])) ==> j == i
  {
    ExactlyOneWinningName(StartGame(game, catalog, imposterDraw, wordDraw));
  }

  /** Without a vote, and a round without an imposter (an empty roster),
      `undefined === undefined` makes the players win. */
  lemma NoVoteOnEmptyRosterWins(game: Setup.GamePayload, catalog: seq<GameCategories.GameWord>, imposterDraw: real, wordDraw: real)
    requires 0.0 <= imposterDraw < 1.0 && 0.0 <= wordDraw < 1.0
    requires game.players == []
    ensures ResultsPage(Some(StartGame(game, catalog, imposterDraw, wordDraw)), None).outcome.PlayersWin?
  {
  }
}
