/** The glyph pool the cards are drawn from. */
module Emojis {
  import opened Shuffling

  /** The code points of the 30 glyphs, in the pool's order. */
  const GLYPH_CODES: seq<char> := [
    '\U{1F600}', '\U{1F60E}', '\U{1F973}', '\U{1F60D}', '\U{1F929}',
    '\U{1F61C}', '\U{1F92A}', '\U{1F607}', '\U{1F970}', '\U{1F917}',
    '\U{1F389}', '\U{1F388}', '\U{1F381}', '\U{1F3AE}', '\U{1F3AF}',
    '\U{1F3A8}', '\U{1F3AD}', '\U{1F3AA}', '\U{1F3B8}', '\U{1F3BA}',
    '\U{26BD}', '\U{1F3C0}', '\U{1F3BE}', '\U{1F3B3}', '\U{1F3B2}',
    '\U{1F0CF}', '\U{1F3B0}', '\U{1F680}', '\U{2B50}', '\U{1F31F}'
  ]

  /** The 30 glyphs, in the pool's order; each is the one-code-point string of its code. */
  const EMOJI_POOL: seq<string> := seq(|GLYPH_CODES|, i requires 0 <= i < |GLYPH_CODES| => [GLYPH_CODES[i]])

  /** The pool holds 30 glyphs. */
  lemma PoolSize()
    ensures |EMOJI_POOL| == 30
  {
  }

  /** The position of a code in the pool, or -1: the inverse of indexing `GLYPH_CODES`. */
  function CodePosition(c: char): int {
    match c
    case '\U{1F600}' => 0
    case '\U{1F60E}' => 1
    case '\U{1F973}' => 2
    case '\U{1F60D}' => 3
    case '\U{1F929}' => 4
    case '\U{1F61C}' => 5
    case '\U{1F92A}' => 6
    case '\U{1F607}' => 7
    case '\U{1F970}' => 8
    case '\U{1F917}' => 9
    case '\U{1F389}' => 10
    case '\U{1F388}' => 11
    case '\U{1F381}' => 12
    case '\U{1F3AE}' => 13
    case '\U{1F3AF}' => 14
    case '\U{1F3A8}' => 15
    case '\U{1F3AD}' => 16
    case '\U{1F3AA}' => 17
    case '\U{1F3B8}' => 18
    case '\U{1F3BA}' => 19
    case '\U{26BD}' => 20
    case '\U{1F3C0}' => 21
    case '\U{1F3BE}' => 22
    case '\U{1F3B3}' => 23
    case '\U{1F3B2}' => 24
    case '\U{1F0CF}' => 25
    case '\U{1F3B0}' => 26
    case '\U{1F680}' => 27
    case '\U{2B50}' => 28
    case '\U{1F31F}' => 29
    case _ => -1
  }

  /** No glyph occurs twice in the pool, so a filtered pool is a set of distinct glyphs. */
  lemma PoolDistinct()
    ensures Distinct(EMOJI_POOL)
  {
    forall k | 0 <= k < |GLYPH_CODES| ensures CodePosition(GLYPH_CODES[k]) == k {
    }
    forall i, j | 0 <= i < j < |EMOJI_POOL| ensures EMOJI_POOL[i] != EMOJI_POOL[j] {
      assert EMOJI_POOL[i][0] == GLYPH_CODES[i] && EMOJI_POOL[j][0] == GLYPH_CODES[j];
    }
  }
}
