/**
 * The game-state hook: a record of the screen, score, timer, combo and click statistics, and the
 * updaters that build the next record from the previous one. A freshly generated card pair and the
 * clock are parameters. The local fallback leaderboard written when the server save fails closes
 * the module.
 */
module GameStateHook {
  import opened Wrappers
  import opened GameTypes
  import opened CardGenerator
  import opened Ranking

  datatype Screen = Menu | Game | GameOver | Leaderboard

  datatype GameStats = GameStats(totalClicks: int, correctClicks: int, highestCombo: int, startTime: int)

  datatype GameState = GameState(
    screen: Screen,
    score: int,
    timer: int,
    combo: int,
    roundsCompleted: int,
    currentCards: Option<(Card, Card)>,
    matchingEmoji: Option<string>,
    isGameActive: bool,
    stats: GameStats)

  const START_TIMER: int := 30
  const BASE_POINTS: int := 25
  const COMBO_STEP: int := 10
  const WRONG_PENALTY: int := 2
  const BASE_TIME_BONUS: int := 3

  function Max(a: int, b: int): int {
    if a >= b then a else b
  }

  /** A pair the generator may hand out: the verifier finds exactly its matching glyph in common. */
  predicate ValidPair(pair: CardPair) {
    VerifyCardPair(pair.cards.0, pair.cards.1) == Verification(true, [pair.matchingEmoji])
  }

  /**
   * What every reachable state satisfies: the counters agree with one another, the timer is never
   * negative, and a running game shows a valid pair whose matching glyph is the one expected.
   */
  predicate Consistent(s: GameState) {
    0 <= s.stats.correctClicks <= s.stats.totalClicks &&
    0 <= s.combo <= s.stats.highestCombo <= s.stats.correctClicks &&
    s.roundsCompleted == s.stats.correctClicks &&
    s.score >= BASE_POINTS * s.roundsCompleted &&
    s.timer >= 0 &&
    (s.isGameActive ==>
      s.screen == Game && s.currentCards.Some? && s.matchingEmoji.Some? &&
      ValidPair(CardPair(s.currentCards.value, s.matchingEmoji.value)))
  }

  /** The state the hook starts in, before any game. */
  function InitialState(): (s: GameState)
    ensures Consistent(s) && s.screen == Menu && !s.isGameActive && s.timer == 150
  {
    GameState(Menu, 0, 150, 0, 0, None, None, false, GameStats(0, 0, 0, 0))
  }

  /** `startGame`: a new game on the pair just generated, started at time `now`. */
  function StartGame(pair: CardPair, now: int): (s: GameState)
    ensures s.screen == Game && s.isGameActive
    ensures s.score == 0 && s.timer == START_TIMER && s.combo == 0 && s.roundsCompleted == 0
    ensures s.stats == GameStats(0, 0, 0, now)
    ensures s.currentCards == Some(pair.cards) && s.matchingEmoji == Some(pair.matchingEmoji)
    ensures ValidPair(pair) ==> Consistent(s)
  {
    GameState(Game, 0, START_TIMER, 0, 0, Some(pair.cards), Some(pair.matchingEmoji), true,
      GameStats(0, 0, 0, now))
  }

  /** `calculatePoints`: 25 for the first match of a combo, 10 more for each further one. */
  function CalculatePoints(combo: int): (p: int)
    ensures p >= BASE_POINTS
    ensures combo <= 1 ==> p == BASE_POINTS
  {
    BASE_POINTS + (if combo > 0 then (combo - 1) * COMBO_STEP else 0)
  }

  /** Each step of a running combo is worth 10 points more than the one before. */
  lemma PointsStep(combo: int)
    requires combo >= 1
    ensures CalculatePoints(combo + 1) == CalculatePoints(combo) + COMBO_STEP
  {
  }

  /** A longer combo never earns fewer points. */
  lemma PointsMonotonic(c1: int, c2: int)
    requires c1 <= c2
    ensures CalculatePoints(c1) <= CalculatePoints(c2)
  {
  }

  /** `handleCorrectMatch`: the next pair is shown and the combo, score, timer and counters advance. */
  function HandleCorrectMatch(prev: GameState, next: CardPair): (s: GameState)
    ensures s.combo == prev.combo + 1
    ensures s.score == prev.score + CalculatePoints(prev.combo + 1)
    ensures s.timer == prev.timer + BASE_TIME_BONUS + (prev.combo + 1)
    ensures s.roundsCompleted == prev.roundsCompleted + 1
    ensures s.stats == prev.stats.(correctClicks := prev.stats.correctClicks + 1,
                                   totalClicks := prev.stats.totalClicks + 1,
                                   highestCombo := Max(prev.stats.highestCombo, prev.combo + 1))
    ensures s.currentCards == Some(next.cards) && s.matchingEmoji == Some(next.matchingEmoji)
    ensures s.screen == prev.screen && s.isGameActive == prev.isGameActive
    ensures Consistent(prev) && ValidPair(next) ==> Consistent(s)
  {
    var newCombo := prev.combo + 1;
    var pointsEarned := CalculatePoints(newCombo);
    var timeBonus := BASE_TIME_BONUS + newCombo;
    prev.(score := prev.score + pointsEarned,
          combo := newCombo,
          roundsCompleted := prev.roundsCompleted + 1,
          currentCards := Some(next.cards),
          matchingEmoji := Some(next.matchingEmoji),
          timer := prev.timer + timeBonus,
          stats := prev.stats.(correctClicks := prev.stats.correctClicks + 1,
                               totalClicks := prev.stats.totalClicks + 1,
                               highestCombo := Max(prev.stats.highestCombo, newCombo)))
  }

  /** `handleWrongClick`: the combo breaks, two seconds are lost (not below zero), one more click. */
  function HandleWrongClick(prev: GameState): (s: GameState)
    ensures s.combo == 0
    ensures s.timer == Max(0, prev.timer - WRONG_PENALTY)
    ensures s.stats == prev.stats.(totalClicks := prev.stats.totalClicks + 1)
    ensures s == prev.(combo := s.combo, timer := s.timer, stats := s.stats)
    ensures Consistent(prev) ==> Consistent(s)
  {
    prev.(combo := 0,
          timer := Max(0, prev.timer - WRONG_PENALTY),
          stats := prev.stats.(totalClicks := prev.stats.totalClicks + 1))
  }

  /**
   * `handleEmojiClick`: the test reads `rendered`, the record of the last render the callback
   * closes over; the updates it queues apply to `prev`, the record React hands the updater.
   * Ignored unless the rendered game is running, a match when the glyph is the rendered expected
   * one, a wrong click otherwise. `next` is the pair a match would generate.
   */
  function HandleEmojiClick(rendered: GameState, prev: GameState, clicked: string, next: CardPair): (s: GameState)
    ensures !rendered.isGameActive ==> s == prev
    ensures rendered.isGameActive && rendered.matchingEmoji == Some(clicked) ==> s == HandleCorrectMatch(prev, next)
    ensures rendered.isGameActive && rendered.matchingEmoji != Some(clicked) ==> s == HandleWrongClick(prev)
  {
    if !rendered.isGameActive then prev
    else if rendered.matchingEmoji == Some(clicked) then HandleCorrectMatch(prev, next)
    else HandleWrongClick(prev)
  }

  /**
   * Clicks keep every reachable state consistent, and a match seen on the rendered record is
   * the only way to score. When no update is pending, `rendered == prev`.
   */
  lemma ClickPreservesConsistency(rendered: GameState, prev: GameState, clicked: string, next: CardPair)
    requires Consistent(prev) && ValidPair(next)
    ensures var s := HandleEmojiClick(rendered, prev, clicked, next);
      Consistent(s) &&
      s.score >= prev.score &&
      (s.score > prev.score <==> rendered.isGameActive && rendered.matchingEmoji == Some(clicked))
  {
  }

  /** In a running game the expected glyph is on both cards shown, so a match is always possible. */
  lemma MatchIsOnBothCards(s: GameState)
    requires Consistent(s) && s.isGameActive
    ensures s.matchingEmoji.value in Glyphs(s.currentCards.value.0)
    ensures s.matchingEmoji.value in Glyphs(s.currentCards.value.1)
  {
    var v := VerifyCardPair(s.currentCards.value.0, s.currentCards.value.1);
    assert s.matchingEmoji.value in v.matchingEmojis;
  }

  /** `updateTimer`: the new time, clamped at zero. */
  function UpdateTimer(prev: GameState, newTime: int): (s: GameState)
    ensures s.timer >= 0
    ensures newTime >= 0 ==> s.timer == newTime
    ensures s == prev.(timer := s.timer)
    ensures Consistent(prev) ==> Consistent(s)
  {
    prev.(timer := Max(0, newTime))
  }

  /** The share of correct clicks, in percent; 0 before the first click. */
  function Accuracy(stats: GameStats): (a: real)
    ensures stats.totalClicks <= 0 ==> a == 0.0
    ensures 0 <= stats.correctClicks <= stats.totalClicks ==> 0.0 <= a <= 100.0
    ensures 0 < stats.correctClicks == stats.totalClicks ==> a == 100.0
  {
    if stats.totalClicks > 0 then
      var total := stats.totalClicks as real;
      var ratio := stats.correctClicks as real / total;
      assert 0 <= stats.correctClicks <= stats.totalClicks ==> 0.0 <= ratio <= 1.0;
      ratio * 100.0
    else 0.0
  }

  /** What `endGame` hands to `saveToLeaderboard`. */
  datatype Submission = Submission(score: int, rounds: int, highestCombo: int, accuracy: real)

  function EndGameSubmission(prev: GameState): (sub: Submission)
    ensures sub.score == prev.score && sub.rounds == prev.roundsCompleted
    ensures sub.highestCombo == prev.stats.highestCombo && sub.accuracy == Accuracy(prev.stats)
  {
    Submission(prev.score, prev.roundsCompleted, prev.stats.highestCombo, Accuracy(prev.stats))
  }

  /** `endGame`: the game-over screen; nothing else of the record changes. */
  function EndGame(prev: GameState): (s: GameState)
    ensures s.screen == GameOver && !s.isGameActive
    ensures s == prev.(screen := GameOver, isGameActive := false)
    ensures Consistent(prev) ==> Consistent(s)
  {
    prev.(screen := GameOver, isGameActive := false)
  }

  /** Once the ended record has been rendered, every click is ignored, whatever is queued. */
  lemma ClicksAfterEndIgnored(ended: GameState, prev: GameState, clicked: string, next: CardPair)
    ensures HandleEmojiClick(EndGame(ended), prev, clicked, next) == prev
    ensures HandleEmojiClick(EndGame(ended), EndGame(ended), clicked, next) == EndGame(ended)
  {
  }

  /**
   * Between `endGame`'s queued update and the next render, the callback still sees the running
   * game: a click on the expected glyph scores on the game-over record, after `endGame` has
   * already handed the lower score to `saveToLeaderboard`.
   */
  lemma ClickInRenderWindow(rendered: GameState, next: CardPair)
    requires rendered.isGameActive && rendered.matchingEmoji.Some?
    ensures var s := HandleEmojiClick(rendered, EndGame(rendered), rendered.matchingEmoji.value, next);
      s.screen == GameOver && !s.isGameActive &&
      s.score > EndGameSubmission(rendered).score
  {
    var s := HandleEmojiClick(rendered, EndGame(rendered), rendered.matchingEmoji.value, next);
    assert s == HandleCorrectMatch(EndGame(rendered), next);
    assert CalculatePoints(rendered.combo + 1) > 0;
  }

  function ReturnToMenu(prev: GameState): (s: GameState)
    ensures s == prev.(screen := Menu, isGameActive := false)
    ensures Consistent(prev) ==> Consistent(s)
  {
    prev.(screen := Menu, isGameActive := false)
  }

  function ViewLeaderboard(prev: GameState): (s: GameState)
    ensures s == prev.(screen := Leaderboard, isGameActive := false)
    ensures Consistent(prev) ==> Consistent(s)
  {
    prev.(screen := Leaderboard, isGameActive := false)
  }

  // ---------------------------------------------------------------- local fallback leaderboard

  datatype LocalEntry = LocalEntry(rank: int, score: int, rounds: int, timestamp: int)

  const LOCAL_BOARD_SIZE: nat := 5

  function EntryScore(e: LocalEntry): int {
    e.score
  }

  /** The fallback board before ranks are assigned: the best five of the stored list plus the new entry. */
  function LocalTop(stored: seq<LocalEntry>, score: int, rounds: int, now: int): seq<LocalEntry> {
    Take(SortDesc(stored + [LocalEntry(0, score, rounds, now)], EntryScore), LOCAL_BOARD_SIZE)
  }

  /**
   * The `localStorage` fallback of `saveToLeaderboard`: push the new entry, sort by score
   * descending, keep five, then number the entries from 1. `stored` is the parsed stored list
   * (empty when nothing was stored).
   */
  method SaveLocally(stored: seq<LocalEntry>, score: int, rounds: int, now: int)
    returns (board: seq<LocalEntry>)
    ensures var top := LocalTop(stored, score, rounds, now);
      |board| == |top| &&
      forall i :: 0 <= i < |board| ==> board[i] == top[i].(rank := i + 1)
    ensures |board| == if |stored| + 1 < LOCAL_BOARD_SIZE then |stored| + 1 else LOCAL_BOARD_SIZE
    ensures forall i :: 0 <= i < |board| ==> board[i].rank == i + 1
    ensures SortedDesc(board, EntryScore)
  {
    board := stored + [LocalEntry(0, score, rounds, now)];
    board := SortDesc(board, EntryScore);
    SortDescSorted(stored + [LocalEntry(0, score, rounds, now)], EntryScore);
    board := Take(board, LOCAL_BOARD_SIZE);
    ghost var top := board;
    assert SortedDesc(top, EntryScore);
    var i := 0;
    while i < |board|
      invariant 0 <= i <= |board| == |top|
      invariant forall k :: 0 <= k < i ==> board[k] == top[k].(rank := k + 1)
      invariant forall k :: i <= k < |board| ==> board[k] == top[k]
    {
      board := board[i := board[i].(rank := i + 1)];
      i := i + 1;
    }
    assert forall k :: 0 <= k < |board| ==> EntryScore(board[k]) == EntryScore(top[k]);
  }

  /** The fallback board holds the best scores: nothing dropped beats anything kept. */
  lemma LocalTopKeepsBest(stored: seq<LocalEntry>, score: int, rounds: int, now: int)
    ensures var all := SortDesc(stored + [LocalEntry(0, score, rounds, now)], EntryScore);
      var top := LocalTop(stored, score, rounds, now);
      (forall i, j :: 0 <= i < |top| <= j < |all| ==> all[i].score >= all[j].score) &&
      multiset(top) + multiset(all[|top|..]) == multiset(stored + [LocalEntry(0, score, rounds, now)])
  {
    TopKeepsBest(stored + [LocalEntry(0, score, rounds, now)], EntryScore, LOCAL_BOARD_SIZE);
  }
}
