/** The voting screen: the players pick who they think the imposter is,
    then confirm the vote in a dialog. */
module Voting {
  import opened Js
  import opened GameStore
  import opened Palette

  /** One player's tile: the name, its background, and whether it is the
      current pick. */
  datatype Tile = Tile(player: string, color: string, selected: bool)

  /** What the screen shows. */
  datatype Ballot =
    | NoGameData
    | Ballot(tiles: seq<Tile>, proceedShown: bool, dialogOpen: bool, nominee: Option<string>)

  /** A tile per player in roster order, coloured `colors[index % 8]`, marked
      when the player is the pick. */
  function Tiles(players: seq<string>, selected: Option<string>): (tiles: seq<Tile>)
    ensures |tiles| == |players|
    ensures forall i :: 0 <= i < |players| ==>
      tiles[i].player == players[i] && tiles[i].color == CardColors[i % 8]
      && (tiles[i].selected <==> selected == Some(players[i]))
  {
    seq(|players|, i requires 0 <= i < |players| => Tile(players[i], CardColors[i % 8], selected == Some(players[i])))
  }

  /** The tile colours are the reveal cards' colours: tile `i` has player
      number `i + 1`'s colour. */
  lemma TileColorIsPlayerColor(players: seq<string>, selected: Option<string>, i: nat)
    requires i < |players|
    ensures Some(Tiles(players, selected)[i].color) == PlayerColor(CardColors, i + 1)
  {
  }

  /** On a roster without repeated names, at most one tile is marked. */
  lemma AtMostOneSelectedTile(players: seq<string>, selected: Option<string>, i: nat, j: nat)
    requires NoDuplicates(players) && i < |players| && j < |players|
    requires Tiles(players, selected)[i].selected && Tiles(players, selected)[j].selected
    ensures i == j
  {
  }

  class VotingScreen {
    /** The round handed over by the discussion screen, if any. */
    const payload: Option<FinalGamePayload>
    var selectedPlayer: Option<string>
    var showConfirmDialog: bool

    /** A pick is always one of the round's players. */
    ghost predicate Valid()
      reads this
    {
      selectedPlayer.Some? ==> payload.Some? && selectedPlayer.value in payload.value.players
    }

    /** `{selectedPlayer && …}`: the Proceed button is there iff the pick is
        a non-empty name. */
    predicate ProceedShown()
      reads this
    {
      selectedPlayer.Some? && selectedPlayer.value != ""
    }

    /** The fallback without a round; otherwise the tiles, the Proceed
        button, and the dialog naming the pick. */
    function View(): (b: Ballot)
      reads this
      ensures b.NoGameData? <==> payload.None?
      ensures b.Ballot? ==>
        b.tiles == Tiles(payload.value.players, selectedPlayer)
        && b.proceedShown == ProceedShown() && b.dialogOpen == showConfirmDialog
        && b.nominee == selectedPlayer
    {
      if payload.None? then NoGameData
      else Ballot(Tiles(payload.value.players, selectedPlayer), ProceedShown(), showConfirmDialog, selectedPlayer)
    }

    /** No pick and the dialog closed. */
    constructor (payload: Option<FinalGamePayload>)
      ensures this.payload == payload && Valid()
      ensures selectedPlayer == None && !showConfirmDialog
    {
      this.payload := payload;
      selectedPlayer := None;
      showConfirmDialog := false;
    }

    /** handlePlayerSelect, behind the tile of roster entry `i`: the pick
        becomes that player. */
    method HandlePlayerSelect(i: nat)
      requires Valid() && payload.Some? && i < |payload.value.players|
      modifies this`selectedPlayer
      ensures Valid() && selectedPlayer == Some(payload.value.players[i])
      ensures Tiles(payload.value.players, selectedPlayer)[i].selected
    {
      selectedPlayer := Some(payload.value.players[i]);
    }

    /** handleProceedToResults, behind the Proceed button: opens the dialog. */
    method HandleProceedToResults()
      requires Valid() && payload.Some? && ProceedShown()
      modifies this`showConfirmDialog
      ensures Valid() && showConfirmDialog
    {
      showConfirmDialog := true;
    }

    /** The dialog's onOpenChange. */
    method OnDialogOpenChange(open: bool)
      modifies this`showConfirmDialog
      ensures showConfirmDialog == open
    {
      showConfirmDialog := open;
    }

    /** Go Back: closes the dialog; the pick stays. */
    method GoBack()
      requires showConfirmDialog
      modifies this`showConfirmDialog
      ensures !showConfirmDialog
    {
      showConfirmDialog := false;
    }

    /** handleConfirmVote: closes the dialog and reports the pick, which
        stays; the screen does not move on. */
    method HandleConfirmVote() returns (vote: Option<string>)
      requires Valid() && showConfirmDialog
      modifies this`showConfirmDialog
      ensures Valid() && !showConfirmDialog && vote == selectedPlayer
      ensures vote.Some? ==> payload.Some? && vote.value in payload.value.players
    {
      showConfirmDialog := false;
      vote := selectedPlayer;
    }
  }
}
