/**
 * Hit-testing on the game canvas: where the two cards are drawn, and which glyph a click at
 * canvas coordinates lands on. Drawing itself is not modelled.
 */
module GameCanvas {
  import opened Wrappers
  import opened GameTypes
  import opened RealFacts

  const CARD_WIDTH: real := 350.0
  const CARD_HEIGHT: real := 450.0
  const GAP: real := 20.0
  const CANVAS_WIDTH: real := 800.0
  const CANVAS_HEIGHT: real := 500.0
  /** Hit radius of a glyph at scale 1; it grows with the glyph's scale. */
  const HIT_RADIUS: real := 30.0

  // ---------------------------------------------------------------- layout

  /** Top-left corner of the first card: the pair of cards, with the gap, is centred on the canvas. */
  function Card1Origin(): (o: (real, real))
    ensures o.0 + 2.0 * CARD_WIDTH + GAP + o.0 == CANVAS_WIDTH
    ensures o.1 + CARD_HEIGHT + o.1 == CANVAS_HEIGHT
    ensures o == (40.0, 25.0)
  {
    var totalWidth := CARD_WIDTH * 2.0 + GAP;
    ((CANVAS_WIDTH - totalWidth) / 2.0, (CANVAS_HEIGHT - CARD_HEIGHT) / 2.0)
  }

  /** Top-left corner of the second card: one card width and one gap to the right of the first. */
  function Card2Origin(): (o: (real, real))
    ensures o.0 == Card1Origin().0 + CARD_WIDTH + GAP && o.1 == Card1Origin().1
    ensures o.0 + CARD_WIDTH + Card1Origin().0 == CANVAS_WIDTH
    ensures o == (410.0, 25.0)
  {
    var (x1, y1) := Card1Origin();
    (x1 + CARD_WIDTH + GAP, y1)
  }

  // ---------------------------------------------------------------- checkEmojiClick

  /**
   * The click at (clickX, clickY) lies within the scaled hit radius of glyph `e` of a card drawn
   * at (originX, originY). The comparison is made on squares; `HitsIsWithinRadius` shows it
   * agrees with comparing `Math.sqrt` of the squared distance, which is never negative.
   */
  predicate Hits(e: EmojiInstance, clickX: real, clickY: real, originX: real, originY: real) {
    var dx := clickX - (originX + e.x);
    var dy := clickY - (originY + e.y);
    var radius := HIT_RADIUS * e.size;
    radius >= 0.0 && dx * dx + dy * dy <= radius * radius
  }

  /** For the true distance `d` from the click to the glyph's centre, `Hits` is `d <= 30 * size`. */
  lemma HitsIsWithinRadius(e: EmojiInstance, clickX: real, clickY: real, originX: real, originY: real, d: real)
    requires d >= 0.0
    requires d * d == (clickX - (originX + e.x)) * (clickX - (originX + e.x))
                    + (clickY - (originY + e.y)) * (clickY - (originY + e.y))
    ensures Hits(e, clickX, clickY, originX, originY) <==> d <= HIT_RADIUS * e.size
  {
    var radius := HIT_RADIUS * e.size;
    if radius >= 0.0 {
      if d <= radius {
        SquareAtMost(d, radius);
      } else {
        SquareLess(radius, d);
      }
    }
  }

  /**
   * The highest index below `n` whose glyph the click hits, or -1 when none of the first `n`
   * glyphs is hit. Later glyphs are drawn on top, so the highest index is the visible one.
   */
  function TopmostIndex(emojis: seq<EmojiInstance>, n: nat, clickX: real, clickY: real, originX: real, originY: real): (k: int)
    requires n <= |emojis|
    ensures -1 <= k < n
    ensures k >= 0 ==> Hits(emojis[k], clickX, clickY, originX, originY)
    ensures forall j :: k < j < n ==> !Hits(emojis[j], clickX, clickY, originX, originY)
    decreases n
  {
    if n == 0 then -1
    else if Hits(emojis[n - 1], clickX, clickY, originX, originY) then n - 1
    else TopmostIndex(emojis, n - 1, clickX, clickY, originX, originY)
  }

  /** What `checkEmojiClick` answers: the glyph of the topmost hit instance, or nothing. */
  function EmojiAt(card: Card, clickX: real, clickY: real, originX: real, originY: real): (r: Option<string>)
    ensures r.None? <==> forall j :: 0 <= j < |card.emojis| ==> !Hits(card.emojis[j], clickX, clickY, originX, originY)
    ensures r.Some? ==> exists k :: 0 <= k < |card.emojis| && r.value == card.emojis[k].emoji
  {
    var k := TopmostIndex(card.emojis, |card.emojis|, clickX, clickY, originX, originY);
    if k < 0 then None else Some(card.emojis[k].emoji)
  }

  /**
   * `checkEmojiClick`: scans the card's glyphs from the last drawn to the first and returns the
   * first one hit. Every entry of the array is an instance object, so the `!emoji` guard of the
   * loop never skips one.
   */
  method CheckEmojiClick(clickX: real, clickY: real, card: Card, originX: real, originY: real)
    returns (r: Option<string>)
    ensures r == EmojiAt(card, clickX, clickY, originX, originY)
  {
    var emojis := card.emojis;
    var i := |emojis| - 1;
    while i >= 0
      invariant -1 <= i < |emojis|
      invariant TopmostIndex(emojis, i + 1, clickX, clickY, originX, originY)
             == TopmostIndex(emojis, |emojis|, clickX, clickY, originX, originY)
      decreases i + 1
    {
      var emoji := emojis[i];
      if Hits(emoji, clickX, clickY, originX, originY) {
        return Some(emoji.emoji);
      }
      i := i - 1;
    }
    return None;
  }

  // ---------------------------------------------------------------- getClickedEmoji

  /** JavaScript truthiness of a string: only the empty string is falsy. */
  predicate Truthy(s: string) {
    s != ""
  }

  /**
   * What `getClickedEmoji` answers: a truthy hit on the first card wins, then a truthy hit on the
   * second card, else nothing.
   */
  function ClickedEmoji(clickX: real, clickY: real, c1: Card, c2: Card): (r: Option<string>)
    ensures r.Some? ==> Truthy(r.value) && (r.value in Glyphs(c1) || r.value in Glyphs(c2))
    ensures var first := EmojiAt(c1, clickX, clickY, Card1Origin().0, Card1Origin().1);
      first.Some? && Truthy(first.value) ==> r == first
  {
    var (x1, y1) := Card1Origin();
    var (x2, y2) := Card2Origin();
    var first := EmojiAt(c1, clickX, clickY, x1, y1);
    if first.Some? && Truthy(first.value) then first
    else
      var second := EmojiAt(c2, clickX, clickY, x2, y2);
      if second.Some? && Truthy(second.value) then second
      else None
  }

  /** `getClickedEmoji`: asks the first card, then the second, keeping only a truthy answer. */
  method GetClickedEmoji(clickX: real, clickY: real, c1: Card, c2: Card) returns (r: Option<string>)
    ensures r == ClickedEmoji(clickX, clickY, c1, c2)
  {
    var (x1, y1) := Card1Origin();
    var (x2, y2) := Card2Origin();
    var emoji1 := CheckEmojiClick(clickX, clickY, c1, x1, y1);
    if emoji1.Some? && Truthy(emoji1.value) {
      return emoji1;
    }
    var emoji2 := CheckEmojiClick(clickX, clickY, c2, x2, y2);
    if emoji2.Some? && Truthy(emoji2.value) {
      return emoji2;
    }
    return None;
  }

  /** A click that hits no glyph of either card selects nothing. */
  lemma MissSelectsNothing(clickX: real, clickY: real, c1: Card, c2: Card)
    requires forall j :: 0 <= j < |c1.emojis| ==> !Hits(c1.emojis[j], clickX, clickY, 40.0, 25.0)
    requires forall j :: 0 <= j < |c2.emojis| ==> !Hits(c2.emojis[j], clickX, clickY, 410.0, 25.0)
    ensures ClickedEmoji(clickX, clickY, c1, c2) == None
  {
  }

  /** A click on a glyph of a card whose glyphs are all non-empty always selects something. */
  lemma HitSelectsSomething(clickX: real, clickY: real, c1: Card, c2: Card, j: nat, onFirst: bool)
    requires forall e :: e in c1.emojis ==> e.emoji != ""
    requires forall e :: e in c2.emojis ==> e.emoji != ""
    requires onFirst ==> j < |c1.emojis| && Hits(c1.emojis[j], clickX, clickY, 40.0, 25.0)
    requires !onFirst ==> j < |c2.emojis| && Hits(c2.emojis[j], clickX, clickY, 410.0, 25.0)
    ensures ClickedEmoji(clickX, clickY, c1, c2).Some?
  {
  }
}
