/** The simpler reveal card: exactly one of its two sides is rendered, the
    front with the player's name or the black back with the secret. */
module SimpleFlashCard {
  import opened Js
  import opened Palette
  import WordFlashCard

  /** The card's properties (the same shape as the flip card's). */
  type CardData = WordFlashCard.CardData

  const BackColor: string := "#000000"

  /** The text shown instead of a missing clue. */
  const NoCluePlaceholder: string := "No clue provided"

  /** The imposter's banner, the mask emoji and IMPOSTER. */
  const ImposterBanner: string := "\U{1F3AD} IMPOSTER"

  /** The banner as the component's source text spells it: the UTF-8 bytes of
      the mask emoji read as Windows-1252 (U+00F0, U+0178, U+017D and a soft
      hyphen) in place of the emoji. */
  const ImposterBannerAsWritten: string := "\U{00F0}\U{0178}\U{017D}\U{00AD} IMPOSTER"

  /** The as-written banner carries no mask emoji: four stray characters
      stand where the corrected banner has the one emoji, and the rest is the
      same. */
  lemma BannerMisencoded()
    ensures ImposterBannerAsWritten != ImposterBanner
    ensures '\U{1F3AD}' !in ImposterBannerAsWritten && ImposterBanner[0] == '\U{1F3AD}'
    ensures ImposterBannerAsWritten[4..] == ImposterBanner[1..]
  {
    assert ImposterBannerAsWritten[0] != ImposterBanner[0];
  }

  /** The imposter's back: the banner and the clue, or the placeholder when
      the clue is missing or empty. */
  datatype BackContent = ImposterBack(banner: string, clue: string) | WordBack(word: string)

  datatype Side =
    | Front(color: Option<string>, playerName: string, counter: string)
    | Back(background: string, content: BackContent, counter: string)

  /** `frontColors[(currentNumber - 1) % 8]`, which the card uses whatever
      colour its properties carry. */
  function FrontColor(data: CardData): (c: Option<string>)
    ensures data.currentNumber >= 1 ==> c.Some? && c.value in FrontColors
    ensures data.currentNumber >= 1 ==> c == Some(FrontColors[(data.currentNumber - 1) % |FrontColors|])
    ensures data.currentNumber < 1 ==> (c.Some? <==> (1 - data.currentNumber) % |FrontColors| == 0)
  {
    PlayerColor(FrontColors, data.currentNumber)
  }

  /** `data.clue || 'No clue provided'`. */
  function ShownClue(clue: Option<string>): (text: string)
    ensures WordFlashCard.Truthy(clue) ==> text == clue.value
    ensures !WordFlashCard.Truthy(clue) ==> text == NoCluePlaceholder
    ensures text != ""
  {
    if WordFlashCard.Truthy(clue) then clue.value else NoCluePlaceholder
  }

  /** The one side that is rendered: the front iff the card is not flipped.
      Both sides show the counter; only the front shows the name; the back
      is black, and shows the imposter the banner and a clue text, everyone
      else the word. */
  function ShownSide(data: CardData, isFlipped: bool): (side: Side)
    ensures side.Front? <==> !isFlipped
    ensures side.counter == WordFlashCard.Counter(data)
    ensures side.Front? ==> side.playerName == data.playerName && side.color == FrontColor(data)
    ensures side.Back? ==> side.background == BackColor
    ensures side.Back? ==> (side.content.ImposterBack? <==> data.isImposter)
    ensures side.Back? && data.isImposter ==>
      side.content.banner == ImposterBanner && side.content.clue == ShownClue(data.clue)
    ensures side.Back? && !data.isImposter ==> side.content.word == data.word
  {
    var counter := WordFlashCard.Counter(data);
    if !isFlipped then Front(FrontColor(data), data.playerName, counter)
    else if data.isImposter then Back(BackColor, ImposterBack(ImposterBanner, ShownClue(data.clue)), counter)
    else Back(BackColor, WordBack(data.word), counter)
  }
}
