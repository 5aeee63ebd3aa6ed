/** The flip card that reveals a player's secret: a cover with the player's
    name, and a secret side with the word, or IMPOSTER and a clue. */
module WordFlashCard {
  import opened Js
  import opened Palette

  /** The card's properties. */
  datatype CardData = CardData(
    playerName: string,
    word: string,
    isImposter: bool,
    clue: Option<string>,
    currentNumber: int,
    totalPlayers: int,
    cardColor: Option<string>)

  /** What a JavaScript string value that may be `undefined` is as a
      condition: truthy iff defined and non-empty. */
  predicate Truthy(s: Option<string>) {
    s.Some? && s.value != ""
  }

  /** The colour the content components fall back to when given none. */
  const DefaultCardColor: string := "bg-red-700"

  /** The secret side's background for the imposter. */
  const ImposterBackground: string := "bg-gray-900"

  /** `data.cardColor || cardColors[(currentNumber - 1) % 8]`: the given
      colour when it is a non-empty string, else the player's palette
      entry, which may be `undefined`. */
  function CardColor(data: CardData): (c: Option<string>)
    ensures Truthy(data.cardColor) ==> c == data.cardColor
    ensures !Truthy(data.cardColor) ==> c == PlayerColor(CardColors, data.currentNumber)
    ensures !Truthy(data.cardColor) && data.currentNumber >= 1 ==> c.Some? && c.value in CardColors
  {
    if Truthy(data.cardColor) then data.cardColor else PlayerColor(CardColors, data.currentNumber)
  }

  /** The secret a revealed card shows. */
  datatype Secret = ImposterSecret(clue: Option<string>) | WordSecret(word: string)

  /** The two faces: the cover carries the name; both carry the counter. */
  datatype Face =
    | Cover(background: string, playerName: string, counter: string)
    | Revealed(background: string, secret: Secret, counter: string)

  /** `{currentNumber} / {totalPlayers}`. */
  function Counter(data: CardData): string {
    IntToString(data.currentNumber) + " / " + IntToString(data.totalPlayers)
  }

  /** The colour handed to the content components, with their default for
      an `undefined` one. */
  function ContentColor(data: CardData): (color: string)
    ensures CardColor(data).Some? ==> color == CardColor(data).value
    ensures CardColor(data).None? ==> color == DefaultCardColor
  {
    match CardColor(data)
    case Some(c) => c
    case None => DefaultCardColor
  }

  /** RegularContent: the player's name and the counter on the card colour. */
  function CoverFace(data: CardData): (face: Face)
    ensures face.Cover? && face.playerName == data.playerName
    ensures face.background == ContentColor(data) && face.counter == Counter(data)
  {
    Cover(ContentColor(data), data.playerName, Counter(data))
  }

  /** FlippedContent: the imposter sees IMPOSTER on grey, with the clue only
      when it is truthy; everyone else sees the word on the card colour. */
  function RevealedFace(data: CardData): (face: Face)
    ensures face.Revealed? && face.counter == Counter(data)
    ensures face.secret.ImposterSecret? <==> data.isImposter
    ensures data.isImposter ==> face.background == ImposterBackground
    ensures data.isImposter ==> (face.secret.clue.Some? <==> Truthy(data.clue))
    ensures data.isImposter && face.secret.clue.Some? ==> face.secret.clue == data.clue
    ensures !data.isImposter ==> face.secret == WordSecret(data.word) && face.background == ContentColor(data)
  {
    if data.isImposter then
      Revealed(ImposterBackground, ImposterSecret(if Truthy(data.clue) then data.clue else None), Counter(data))
    else
      Revealed(ContentColor(data), WordSecret(data.word), Counter(data))
  }

  /** The face at rest once the flip animation settles: the secret side
      while the card is flipped, the cover otherwise. */
  function RestingFace(data: CardData, isFlipped: bool): (face: Face)
    ensures face.Revealed? <==> isFlipped
    ensures face.Cover? ==> face.playerName == data.playerName
    ensures face.counter == Counter(data)
  {
    if isFlipped then RevealedFace(data) else CoverFace(data)
  }

  /** Without a given colour, the cards of the first eight players all have
      different colours. */
  lemma FirstEightCardsDiffer(a: CardData, b: CardData)
    requires !Truthy(a.cardColor) && !Truthy(b.cardColor)
    requires 1 <= a.currentNumber < b.currentNumber <= 8
    ensures ContentColor(a) != ContentColor(b)
  {
    CardColorsDistinct();
    DistinctWithinPalette(CardColors, a.currentNumber, b.currentNumber);
  }
}
