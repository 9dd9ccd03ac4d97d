/** The records the card generator produces and the canvas and the game state consume. */
module GameTypes {

  /** One glyph drawn on a card: its centre in card coordinates, its scale and its rotation in degrees. */
  datatype EmojiInstance = EmojiInstance(emoji: string, x: real, y: real, size: real, rotation: real)

  datatype Card = Card(emojis: seq<EmojiInstance>)

  /** The glyphs of a card, in drawing order (`card.emojis.map(e => e.emoji)`). */
  function Glyphs(c: Card): (gs: seq<string>)
    ensures |gs| == |c.emojis|
    ensures forall i :: 0 <= i < |gs| ==> gs[i] == c.emojis[i].emoji
  {
    seq(|c.emojis|, i requires 0 <= i < |c.emojis| => c.emojis[i].emoji)
  }
}
