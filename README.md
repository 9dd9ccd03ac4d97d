# MojiMatch in Dafny

MojiMatch is a spot-the-match emoji game. Two cards of eight glyphs share exactly one glyph. The player clicks
it before the timer runs out; each correct click raises the combo and the score and adds time, and each wrong
click resets the combo and costs two seconds. The client falls back to a local top-5 list when the server is
unreachable. The server keeps a top-5 board, daily, weekly and all-time boards, per-user statistics, daily
streaks and achievements.

This project models the deterministic core of that game and proves its properties:

- `seeded_random.dfy` (module `Seeded`): the linear congruential generator `SeededRandom`, a class with one
  integer field, together with `generateSeedFromDate`. The step as written (`Step`, JavaScript's truncating `%`)
  leaves negative seeds negative; the class uses the corrected step `FloorStep` (see Findings), which equals
  `Step` on every non-negative seed. The functions `FloorStep`, `DrawInt`, `ShuffleFrom` and `Run` specify its
  methods.
- `card_generator.dfy` (module `CardGenerator`): the card-pair generator and its verifier. `Math.random` is an
  unbounded tape of reals in `[0, 1)` read at a cursor that every operation returns advanced. The
  Fisher–Yates shuffles work on arrays, as the source does.
- `game_canvas.dfy` (module `GameCanvas`): the card origins of the canvas layout and the click hit-test. The
  test compares squared distances, so no square root is needed.
- `game_state.dfy` (module `GameStateHook`): the game-state record of the `useGameState` hook. Its transitions
  are pure functions, plus the loop that ranks the local fallback board. A click is tested against the
  record of the last render and applied to the record the queued update receives, so a click that
  lands between a queued update and its render can be modelled.
- `achievements.dfy` and `use_achievements.dfy`: the fourteen-entry achievement table, its lookups, and
  `checkAchievements` over a class holding the hook's state.
- `server_rules.dfy` (module `ServerRules`): the rules inside the server's request handlers, over stores
  modelled as classes:
  - the top-5 board;
  - global and per-user counters;
  - the `user:score:rounds:timestamp` sorted-set members;
  - daily best and streak;
  - achievement unlocks and their rarity.
- Support modules:
  - `js_text.dfy`: `parseInt`, `toString`, `split`, `Math.round` and the truncating `%`, as JavaScript defines them.
  - `ranking.dfy`: the stable descending sort behind `Array.prototype.sort`, `slice` and `findIndex`.
  - `shuffling.dfy`: swaps, permutations and distinctness.
  - `real_facts.dfy`: a few facts about real arithmetic.
  - `emojis.dfy`: the 30-glyph pool.
  - `game_types.dfy`: cards and instances.
  - `wrappers.dfy`: `Option` and `Result`.

## Model

| member | source | states |
|---|---|---|
| Seeded.Step | src/shared/utils/seededRandom.ts:19-20 | one LCG step `(1664525*seed + 1013904223) % 2^32` with JavaScript's truncating remainder stays in `[0, 2^32)` for a non-negative seed |
| Seeded.Unit | src/shared/utils/seededRandom.ts:19-22 | a state in `[0, 2^32)` divided by `2^32` lies in `[0, 1)` |
| Seeded.DrawInt | src/shared/utils/seededRandom.ts:30-32 | `floor(unit * (max - min)) + min` lies in `[min, max)` for a state in range when `min < max` |
| Seeded.DrawIntIsFloor | src/shared/utils/seededRandom.ts:30-32 | the integer quotient used by the model equals `Math.floor` of the real product the source computes |
| Seeded.DrawFloat | src/shared/utils/seededRandom.ts:40-42 | `unit * (max - min) + min` lies in `[min, max)` for a state in range when `min < max` |
| Seeded.ShuffleFromPermutes | src/shared/utils/seededRandom.ts:49-56 | the Fisher–Yates pass returns a permutation of its input and advances the state by exactly `max(0, n-1)` steps |
| Seeded.ShuffleFromStep | src/shared/utils/seededRandom.ts:51-54 | one iteration swaps `i` with the drawn `j` in `[0, i]` and continues at `i - 1` from the new state |
| Seeded.SeedFromDateValue | src/shared/utils/seededRandom.ts:89-92 | the seed of an ISO date `YYYY-MM-DD` is `YYYY*10000 + MM*100 + DD`, the value of its eight digits |
| Seeded.SeedFromDateInjective | src/shared/utils/seededRandom.test.ts:196-212 | two ISO dates with the same seed are the same date |
| Seeded.SeedOfDailyChallengeExample | src/shared/utils/seededRandom.test.ts:196-212 | `"2025-10-25"` yields the seed 20251025 |
| Seeded.BoundarySeedsDrawInUnitInterval | src/shared/utils/seededRandom.test.ts:152-174 | seeds 0 and 999999999 produce a first draw in `[0, 1)` |
| Seeded.NegativeSeedLeavesUnitInterval | src/shared/utils/seededRandom.test.ts:160-165 | as written, seed -12345 steps to -2354787718 and `next()` returns a negative number |
| Seeded.FloorStep | src/shared/utils/seededRandom.ts:19-22 | the corrected step, with the remainder brought into `[0, 2^32)`, lands there from every seed, so every draw is in `[0, 1)` |
| Seeded.FloorStepAgrees | src/shared/utils/seededRandom.ts:19-22 | for every non-negative seed the floored step is the step as written |
| Seeded.FloorStepFromNegativeSeed | src/shared/utils/seededRandom.test.ts:160-165 | from seed -12345 the floored step gives 1940179578, whose draw is in range |
| Seeded.Apply | src/shared/utils/seededRandom.ts:19-81 | one call on the generator: draws advance the state by one step and land in their ranges, a shuffle returns a permutation, a pick on a non-empty list returns one of its elements and on an empty one nothing, `reset` sets the state and returns nothing |
| Seeded.SeededRandom.constructor | src/shared/utils/seededRandom.ts:11-13 | the state is the given seed |
| Seeded.SeededRandom.Next | src/shared/utils/seededRandom.ts:19-22 | the state advances by one step into `[0, 2^32)`, the source's own step from a non-negative state, and the result is its unit value, in `[0, 1)` |
| Seeded.SeededRandom.NextInt | src/shared/utils/seededRandom.ts:30-32 | one step, result `DrawInt` of the new state, an integer in `[min, max)` when `min < max` |
| Seeded.SeededRandom.NextFloat | src/shared/utils/seededRandom.ts:40-42 | one step, result `DrawFloat` of the new state, in `[min, max)` when `min < max` |
| Seeded.SeededRandom.Shuffle | src/shared/utils/seededRandom.ts:49-56 | returns a fresh array holding a permutation of the input (the input array is not modified) and advances the state by `n-1` steps |
| Seeded.SeededRandom.Pick | src/shared/utils/seededRandom.ts:63-65 | one step; the element at the drawn index, which is an element of the array, and `undefined` (`None`) exactly for an empty array |
| Seeded.SeededRandom.Reset | src/shared/utils/seededRandom.ts:71-73 | the state becomes the given seed |
| Seeded.SeededRandom.GetSeed | src/shared/utils/seededRandom.ts:79-81 | returns the current state and changes nothing |
| Seeded.SeededRandom.Perform | src/shared/utils/seededRandom.ts:19-81 | a call on the object does what `Apply` says to output and state |
| Seeded.SeededRandom.PerformAll | src/shared/utils/seededRandom.ts:19-81 | a sequence of calls returns the outputs `Run` computes from the starting state alone |
| Seeded.ReplayTwoGenerators | src/shared/utils/seededRandom.test.ts:6-14 | two generators with the same seed given the same calls return the same outputs |
| Seeded.ReplayAfterReset | src/shared/utils/seededRandom.test.ts:26-34 | `getSeed` returns the seed after construction and after `reset`, and the calls after `reset(seed)` repeat the first run's outputs |
| Emojis.PoolSize | src/client/utils/cardGenerator.test.ts:15-22 | the pool holds 30 glyphs |
| Emojis.PoolDistinct | src/shared/constants/emojis.ts:4-35 | no glyph occurs twice in the pool |
| CardGenerator.ScaledIndex | src/client/utils/cardGenerator.ts:10 | `floor(r * n)` for `r` in `[0, 1)` is an index in `[0, n)` |
| CardGenerator.ShuffleCopyPermutes | src/client/utils/cardGenerator.ts:7-14 | the shuffle returns a permutation of its input and consumes `n-1` tape values |
| CardGenerator.ShuffleArray | src/client/utils/cardGenerator.ts:7-14 | shuffling a copy in an array yields the specified permutation of the input, consuming `n-1` tape values |
| CardGenerator.ShuffleInPlace | src/client/utils/cardGenerator.ts:8-13 | the in-place loop leaves in the array what the specification `ShuffleCopy` computes |
| CardGenerator.Without | src/client/utils/cardGenerator.ts:20 | the filtered pool holds exactly the pool glyphs not excluded, and stays duplicate-free |
| CardGenerator.WithoutLength | src/client/utils/cardGenerator.ts:20 | excluding `k` glyphs from a duplicate-free pool leaves at least `n - k` entries |
| CardGenerator.SelectRandomEmojis | src/client/utils/cardGenerator.ts:19-23 | returns `min(count, available)` distinct pool glyphs outside `exclude`: the first ones of a shuffle of the available glyphs |
| CardGenerator.RandomSize | src/client/utils/cardGenerator.ts:28-32 | the size is in `[0.8, 2.5)` |
| CardGenerator.RandomSizeOnto | src/client/utils/cardGenerator.ts:28-32 | every size in `[0.8, 2.5)` is produced by exactly one tape value |
| CardGenerator.RandomRotation | src/client/utils/cardGenerator.ts:37-39 | the rotation is in `[0, 360)` degrees |
| CardGenerator.OverlapsIsDistanceBelowReach | src/client/utils/cardGenerator.ts:44-59 | the squared-distance test is exactly `distance < r1 + r2`, each radius `40 * size / 2 + 50 / 2` |
| CardGenerator.OverlapsSymmetric | src/client/utils/cardGenerator.ts:44-59 | overlap does not depend on the order of the two instances |
| CardGenerator.DrawPosition | src/client/utils/cardGenerator.ts:72-76 | a drawn position lies in `[40, 310) x [40, 410)` |
| CardGenerator.GetRandomPositionWithoutOverlap | src/client/utils/cardGenerator.ts:65-98 | the position is in bounds; every earlier attempt overlapped; one returned before the 50 attempts run out overlaps nothing; after 50 failed attempts it is one more draw |
| CardGenerator.PlaceGlyphs | src/client/utils/cardGenerator.ts:126-154 | one in-bounds instance per glyph in glyph order; the card is `PlacedCard`: iteration `i` consumes the draws from `starts[i]` to `starts[i + 1]` exactly as `PlacedAt` describes, against the instances placed before it, and an instance that settled within the attempt budget overlaps no earlier instance |
| CardGenerator.PlaceGlyph | src/client/utils/cardGenerator.ts:127-138 | size from the first draw, rotation from the second, then the position search from the third: the cursor advances by 4 to 2 * 50 + 4 draws, the position is the last pair drawn, every attempt before it overlapped an existing instance, and a position found before the budget ran out overlaps none |
| CardGenerator.PlacementDeterministic | src/client/utils/cardGenerator.ts:127-138 | the draws fix the iteration: two placements of the same glyph from the same cursor among the same instances give the same instance and the same end cursor |
| CardGenerator.EarlierAttemptOverlaps | src/client/utils/cardGenerator.ts:73-90 | every attempt that ended before the placement's last pair of draws overlapped an existing instance |
| CardGenerator.SettledAvoidsEarlier | src/client/utils/cardGenerator.ts:86-90 | a placement that settled within the attempt budget overlaps none of the instances placed before it |
| CardGenerator.ChooseGlyphs | src/client/utils/cardGenerator.ts:108-123 | the matching glyph is drawn from the pool; each card gets 7 decoys plus the match, duplicate-free, and the cards share only the match |
| CardGenerator.DecoysAndMatch | src/client/utils/cardGenerator.ts:112-119 | card 2's decoys are disjoint from card 1's and from the match, so the only glyph shared by the two lists is the match |
| CardGenerator.GenerateCardPair | src/client/utils/cardGenerator.ts:104-163 | two cards of 8 in-bounds instances with duplicate-free pool glyphs sharing exactly the matching glyph; `verifyCardPair` on them is valid with `[matchingEmoji]`; each card is laid out with overlap prevention (`PlacedCard`: every instance placed from its draws against the earlier ones, a settled one overlapping none), card 2's loop starting on the draw where card 1's ends |
| CardGenerator.GenerateFrom | src/client/utils/cardGenerator.ts:104-163 | the same for any duplicate-free pool of at least 15 glyphs, placement facts included |
| CardGenerator.Shared | src/client/utils/cardGenerator.ts:176 | the filter keeps exactly the card-1 glyphs present on card 2, in card-1 order (a subsequence of card 1), every occurrence on card 1 kept: each glyph appears as often as on card 1 if card 2 has it, and not at all otherwise |
| CardGenerator.VerifyCardPair | src/client/utils/cardGenerator.ts:169-182 | `matchingEmojis` holds exactly the glyphs on both cards, in card-1 order, each as often as it occurs on card 1; `isValid` holds iff there is exactly one |
| CardGenerator.RepeatedGlyphReportedTwice | src/client/utils/cardGenerator.ts:169-182 | a glyph twice on card 1 and once on card 2 is reported twice, so the pair is not valid |
| CardGenerator.SharedSingleIffOneCommon | src/client/utils/cardGenerator.ts:176-180 | for a duplicate-free card 1, the filter has exactly one element iff the two glyph lists share exactly one glyph |
| CardGenerator.SharedStep | src/client/utils/cardGenerator.ts:176 | one element more at the front of card 1 keeps the filter's promises: membership, length, distinctness, card-1 order and card-1 multiplicities |
| CardGenerator.SingleIffOneCommon | src/client/utils/cardGenerator.ts:176-180 | a duplicate-free list of exactly the common glyphs has one entry iff the cards have exactly one common glyph |
| CardGenerator.SharedOfSingleMatch | src/client/utils/cardGenerator.ts:176 | when exactly `m` is shared, the filtered list is `[m]` |
| CardGenerator.VerifyValidIffOneShared | src/client/utils/cardGenerator.ts:169-182 | for a duplicate-free card 1, the pair is valid iff the two glyph sets intersect in exactly one glyph |
| GameCanvas.Card1Origin | src/client/components/GameCanvas.tsx:237-240 | card 1 sits at (40, 25), centring two 350x450 cards and a 20-unit gap on the 800x500 canvas |
| GameCanvas.Card2Origin | src/client/components/GameCanvas.tsx:241-245 | card 2 sits one card width plus the gap to the right of card 1, at (410, 25) |
| GameCanvas.HitsIsWithinRadius | src/client/components/GameCanvas.tsx:268-286 | the squared test is exactly `distance <= 30 * size`, boundary included |
| GameCanvas.TopmostIndex | src/client/components/GameCanvas.tsx:271-288 | the index found is a hit and no later instance is hit |
| GameCanvas.EmojiAt | src/client/components/GameCanvas.tsx:261-291 | `None` iff no instance of the card is hit; otherwise the glyph of an instance of the card |
| GameCanvas.CheckEmojiClick | src/client/components/GameCanvas.tsx:261-291 | the backward loop returns the glyph of the topmost instance hit, `EmojiAt` |
| GameCanvas.ClickedEmoji | src/client/components/GameCanvas.tsx:247-255 | a non-empty card-1 hit wins; any result is a non-empty glyph of one of the two cards |
| GameCanvas.GetClickedEmoji | src/client/components/GameCanvas.tsx:230-256 | consults card 1 and then card 2 as `ClickedEmoji` says |
| GameCanvas.MissSelectsNothing | src/client/components/GameCanvas.tsx:247-255 | a click hitting no instance on either card selects nothing |
| GameCanvas.HitSelectsSomething | src/client/components/GameCanvas.tsx:247-255 | a click hitting any instance on either card whose glyphs are non-empty selects something |
| GameStateHook.InitialState | src/client/hooks/useGameState.ts:7-22 | the menu screen, inactive, 150-second timer and zeroed statistics |
| GameStateHook.StartGame | src/client/hooks/useGameState.ts:26-45 | score, combo and rounds 0, timer 30, zeroed click stats, active game screen with the given pair |
| GameStateHook.CalculatePoints | src/client/hooks/useGameState.ts:47-54 | at least 25 points, exactly 25 for a combo of at most 1 |
| GameStateHook.PointsStep | src/client/hooks/useGameState.ts:47-54 | each further combo step adds 10 points |
| GameStateHook.PointsMonotonic | src/client/hooks/useGameState.ts:47-54 | a higher combo never earns fewer points |
| GameStateHook.HandleCorrectMatch | src/client/hooks/useGameState.ts:56-104 | combo +1, score + points of the new combo, timer + 3 + new combo, rounds, correct and total clicks +1, highest combo the maximum, next pair shown |
| GameStateHook.HandleWrongClick | src/client/hooks/useGameState.ts:106-125 | combo 0, timer `max(0, timer - 2)`, total clicks +1, nothing else changes |
| GameStateHook.HandleEmojiClick | src/client/hooks/useGameState.ts:127-138 | the test reads the rendered record, the update applies to the queued one: no change when the rendered game is inactive; a correct match iff the glyph is the rendered matching one, a wrong click otherwise |
| GameStateHook.ClickPreservesConsistency | src/client/hooks/useGameState.ts:56-138 | whatever was rendered, clicks keep `correct <= total`, `combo <= highestCombo` and a non-negative timer on the queued record; the score never falls and rises iff the rendered record showed a running game with the clicked glyph as its match |
| GameStateHook.MatchIsOnBothCards | src/client/hooks/useGameState.ts:26-45 | in a consistent active state the matching glyph is on both shown cards |
| GameStateHook.UpdateTimer | src/client/hooks/useGameState.ts:140-145 | stores `max(0, t)` and changes nothing else |
| GameStateHook.Accuracy | src/client/hooks/useGameState.ts:198-199 | 0 with no clicks, in `[0, 100]` when correct clicks are at most total clicks, 100 when every click was correct |
| GameStateHook.EndGameSubmission | src/client/hooks/useGameState.ts:198-202 | submits score, rounds, highest combo and the accuracy |
| GameStateHook.EndGame | src/client/hooks/useGameState.ts:194-210 | the game-over screen, inactive, nothing else changes |
| GameStateHook.ClicksAfterEndIgnored | src/client/hooks/useGameState.ts:127-138 | once the ended record has been rendered, a click changes nothing, whatever is queued |
| GameStateHook.ClickInRenderWindow | src/client/hooks/useGameState.ts:127-138 | a click on the match between `endGame`'s queued update and the next render still scores: the game-over record ends above the score `endGame` submitted |
| GameStateHook.ReturnToMenu | src/client/hooks/useGameState.ts:212-218 | the menu screen, inactive, nothing else changes |
| GameStateHook.ViewLeaderboard | src/client/hooks/useGameState.ts:220-226 | the leaderboard screen, inactive, nothing else changes |
| GameStateHook.SaveLocally | src/client/hooks/useGameState.ts:169-188 | the stored board plus the new entry, stably sorted by descending score, cut to 5 and ranked 1, 2, ... |
| GameStateHook.LocalTopKeepsBest | src/client/hooks/useGameState.ts:174-182 | the kept entries score at least as high as every dropped one, and kept plus dropped is the stored board plus the new entry |
| Ranking.SortDescSorted | src/server/index.ts:132 | the comparator sort orders by descending score |
| Ranking.SortDescPermutes | src/server/index.ts:132 | the sort is a permutation |
| Ranking.SortDescStable | src/client/hooks/useGameState.ts:181 | entries of equal score keep their relative order |
| Ranking.TopKeepsBest | src/server/index.ts:132-135 | the first `n` of the sorted list are sorted and none is beaten by a dropped entry |
| Ranking.TopAdmits | src/server/index.ts:122-135 | a new entry beaten by `p` entries is kept at position `p` when `p < n`, and leaves the top `n` as they were otherwise |
| Ranking.FindIndex | src/server/index.ts:193-195 | the first index satisfying the predicate, or -1 when none does |
| Achievements.TableSize | src/shared/constants/achievements.ts:21-157 | the table has 14 entries |
| Achievements.IdsDistinct | src/shared/constants/achievements.ts:21-157 | no two entries share an id |
| Achievements.TableFieldsMatchCategories | src/shared/constants/achievements.ts:21-157 | every entry carries non-zero thresholds for the fields its category is checked on |
| Achievements.FindById | src/shared/constants/achievements.ts:159-161 | `find` returns an entry with the id, or none exactly when no entry has it |
| Achievements.GetAchievementById | src/shared/constants/achievements.ts:159-161 | the lookup on the table returns an entry with the id, or none exactly when there is none |
| Achievements.FindByIdOfEntry | src/shared/constants/achievements.ts:159-161 | with distinct ids, looking up an entry's id returns that entry |
| Achievements.Select | src/shared/constants/achievements.ts:163-165 | `filter` keeps exactly the entries satisfying the predicate |
| Achievements.GetAchievementsByCategory | src/shared/constants/achievements.ts:163-165 | exactly the table entries of the category |
| Achievements.ByCategoryInTableOrder | src/shared/constants/achievements.ts:163-165 | those entries come in table order without repeats |
| UseAchievements.EarnedIsFilter | src/client/hooks/useAchievements.ts:70-141 | the entries earned are the `filter` of the table on "locked and qualifying" |
| UseAchievements.EarnedMembers | src/client/hooks/useAchievements.ts:74-131 | an entry is earned iff it is in the table, its id is not unlocked and its category's condition holds |
| UseAchievements.CheckCondition | src/client/hooks/useAchievements.ts:81-127 | the `switch` sets the flag exactly when the category's condition holds |
| UseAchievements.CheckTable | src/client/hooks/useAchievements.ts:72-131 | the loop skips unlocked ids and pushes each qualifying entry, returning exactly the earned list |
| UseAchievements.EarnedShape | src/client/hooks/useAchievements.ts:72-131 | the result is a subsequence of the table, without repeats or unlocked ids |
| UseAchievements.EarnedByThresholds | src/client/hooks/useAchievements.ts:81-127 | a locked entry with its category's thresholds present is earned iff the statistics reach them (speed: rounds and time, accuracy: accuracy and rounds, combo, score, streak present, daily rank equal) |
| UseAchievements.EarnedOnTable | src/client/hooks/useAchievements.ts:81-127 | on the shipped table every locked entry is earned iff its thresholds are reached |
| UseAchievements.CheckTwiceEarnsNothing | src/client/hooks/useAchievements.ts:74-76 | once the returned ids are unlocked, the same statistics earn nothing |
| UseAchievements.AchievementTracker.constructor | src/client/hooks/useAchievements.ts:31-32 | no unlocked ids and no newly unlocked entries |
| UseAchievements.AchievementTracker.CheckAchievements | src/client/hooks/useAchievements.ts:70-141 | returns the earned entries and appends exactly them to `newlyUnlocked`, leaving the unlocked ids alone |
| UseAchievements.AchievementTracker.ClearNewlyUnlocked | src/client/hooks/useAchievements.ts:172-174 | empties `newlyUnlocked` |
| JsText.ParseIntOfDigits | src/server/index.ts:181-183 | `parseInt` of a non-empty digit string is its decimal value |
| JsText.ParseIntSkipsSpace | src/server/index.ts:181-183 | a leading white-space or line-terminator character, Unicode space separators included, does not change what `parseInt` reads |
| JsText.NoBreakSpaceSkipped | src/server/index.ts:181-183 | a no-break space before `5` reads as 5 |
| JsText.IntToStringRoundTrip | src/server/index.ts:181-190 | `parseInt(n.toString())` is `n` for every integer |
| JsText.SplitAtFirst | src/server/index.ts:249 | `split(':')` cuts at the first separator and goes on with the rest |
| JsText.Round | src/server/index.ts:358 | `Math.round(x)` is within half of `x`, rounding halves up |
| ServerRules.AppendIfAbsent | src/server/index.ts:151-156 | the list gains the name only when absent, so a duplicate-free list stays duplicate-free |
| ServerRules.TopFiveKeepsBest | src/server/index.ts:122-135 | the new board is sorted, holds `min(n+1, 5)` entries, none beaten by a dropped one, and kept plus dropped is the old board plus the entry |
| ServerRules.TopFiveAdmission | src/server/index.ts:122-135 | an entry beaten by fewer than 5 is kept at its rank; otherwise a sorted board of 5 is unchanged |
| ServerRules.PushSortSlice | src/server/index.ts:122-135 | push, sort and slice produce `TopFive` and keep the board's shape |
| ServerRules.SaveRank | src/server/index.ts:193-200 | the rank is 1 + the first position holding this user and score, or none when no such entry was kept |
| ServerRules.KeptEntryIsRanked | src/server/index.ts:193-200 | an entry beaten by fewer than 5 gets a rank, at most one more than the number beating it |
| ServerRules.LegacyScores | src/server/index.ts:222-228 | row `i` of the legacy board has rank `i+1` and the fields of entry `i` |
| ServerRules.SaveRankMatchesLegacy | src/server/index.ts:193-228 | the rank returned by a save is the rank the legacy board shows for that user and score |
| ServerRules.ReadsBackSum | src/server/index.ts:183-188 | the stored sum text reads back as old value + score, and stays unreadable when the old one was |
| ServerRules.ReadsBackMax | src/server/index.ts:181-187 | the stored best text reads back as the maximum |
| ServerRules.StatsUpdate | src/server/index.ts:179-190 | a game sets games +1, best `max(old, score)`, total `old + score`, last played now, and leaves the playtime alone |
| ServerRules.ReplayCountsGames | src/server/index.ts:182-186 | from an empty hash the games counter reads back as the number of games recorded |
| ServerRules.ReplayKeepsBest | src/server/index.ts:181-187 | from an empty hash the best score is the maximum of 0 and the scores recorded |
| ServerRules.ReplaySumsScores | src/server/index.ts:183-188 | from an empty hash the total reads back as the sum of the scores recorded |
| ServerRules.ReplayFromNothing | src/server/index.ts:179-190 | all three counters at once |
| ServerRules.AverageScore | src/server/index.ts:356-358 | 0 with no games, otherwise within half of `total / games`; unreadable fields give NaN |
| ServerRules.AverageWithinScores | src/server/index.ts:356-358 | after recording games scored in `[lo, hi]`, the average shown is in `[lo, hi]` |
| ServerRules.MemberRoundTrip | src/server/index.ts:160-256 | a member `user:score:rounds:ts` parses back to the same fields when the name has no colon |
| ServerRules.ColonInNameMisreads | src/server/index.ts:160-256 | a name containing a colon is not read back |
| ServerRules.RankRows | src/server/index.ts:248-256 | row `i` of a board is member `i` parsed with rank `i+1` |
| ServerRules.RankRowsOfMembers | src/server/index.ts:283-291 | a board of encoded entries reads back as those entries ranked in order |
| ServerRules.DailyRank | src/server/index.ts:532-533 | 1 + the first member starting with `user:`, or none |
| ServerRules.MemberPrefixIdentifiesUser | src/server/index.ts:533 | for colon-free names the `user:` prefix matches exactly that user's members |
| ServerRules.NamePrefixIdentifiesName | src/server/index.ts:532-533 | for colon-free names, `u + ":"` starts `v + ":" + rest` exactly when `u == v` |
| ServerRules.NextStreak | src/server/index.ts:513-525 | count +1 after yesterday, unchanged on today, 1 otherwise; last played becomes today |
| ServerRules.NextStreakValid | src/server/index.ts:513-525 | a streak stays positive once played |
| ServerRules.NextStreakSameDay | src/server/index.ts:513-525 | a second update on the same day changes nothing |
| ServerRules.ConsecutiveDays | src/server/index.ts:513-525 | playing on `k` consecutive days from nothing gives a streak of `k` |
| ServerRules.StreakRecord.Advance | src/server/index.ts:514-527 | the stored streak becomes `NextStreak` of the old one |
| ServerRules.DailyUpdate | src/server/index.ts:494-528 | the best and streak change iff `score > existing`, existing defaulting to 0; the kept best is the maximum |
| ServerRules.DailyResubmit | src/server/index.ts:494-528 | resubmitting the same score is not a new best and changes nothing |
| ServerRules.Rarity | src/server/index.ts:612-618 | the rarity is the percentage `count / max(players, 1) * 100` rounded to one decimal |
| ServerRules.RarityIsPercentage | src/server/index.ts:612-618 | when the count is at most the number of players, the rarity is in `[0, 100]` |
| ServerRules.PersonalStatsWith | src/server/index.ts:333-368 | rejects an empty name; otherwise reports each stored field read by `parseInt` with an absent or empty field as 0 (games, best score, playtime), the rounded average, the unlock count, and the streak count or 0 without a streak |
| ServerRules.ReplayKeepsPlaytime | src/server/index.ts:185-190 | saving scores never writes the playtime field |
| ServerRules.PersonalStatsAfterGames | src/server/index.ts:356-363 | after a user's saves from no stats: the number of games, the best score, the average of the scores and playtime 0 |
| ServerRules.PersonalStatsAsWritten | src/server/index.ts:366 | as written, the total of achievements reported is 15 |
| ServerRules.AsWrittenNeverComplete | src/server/index.ts:366 | as written, a player holding only table ids never reaches the reported total |
| ServerRules.PersonalStatsOf | src/server/index.ts:360-368 | with the total taken from the table, it reports 14 |
| ServerRules.UnlockedCount | src/server/index.ts:586-593 | a duplicate-free list of table ids has at most 14 entries, and 14 exactly when it holds every one |
| ServerRules.CompleteExactlyWhenAllUnlocked | src/server/index.ts:360-368 | with the corrected total, the count equals the total iff every achievement is unlocked |
| ServerRules.ScoreStore.constructor | src/server/index.ts:119-150 | an empty board, no games, no players on any day |
| ServerRules.ScoreStore.RecordScore | src/server/index.ts:122-156 | the board becomes `TopFive`, games +1, the player appended to the list of `today` if absent from it (an absent key read as `[]`), other days kept; the board stays sorted and every day's players duplicate-free |
| ServerRules.ScoreStore.PlayersToday | src/server/index.ts:409-411 | the length of the day's list, 0 without one, which is the number of distinct players that day |
| ServerRules.UserStatsStore.RecordGameOf | src/server/index.ts:179-190 | the user's hash becomes the updated stats |
| ServerRules.SaveScore | src/server/index.ts:95-208 | a non-number score or rounds is rejected with INVALID_INPUT and changes nothing; otherwise the board, the game count, the player list of `today` and the user's stats update and the answer is `SaveRank` |
| ServerRules.PlayerCountedEachDay | src/server/index.ts:146-156 | a player who saves on two days is counted once on each day |
| ServerRules.DailyStore.SubmitDailyScore | src/server/index.ts:477-547 | rejects non-numbers; compares with the best stored for that day and user (0 when none), and only on a new best stores it under that day and user and advances the user's streak, which spans days; answers the rank and whether it was a new best |
| ServerRules.ConsecutiveDailyBests | src/server/index.ts:493-527 | a first score on one day and a lower one on the next are each that day's new best, and the streak reaches 2 |
| ServerRules.AchievementStore.UnlockAchievement | src/server/index.ts:567-627 | rejects a missing id; reports an already held id and changes nothing; otherwise appends the id, registers the player if absent, counts up and reports the rarity |

## Left out

- Redis, Reddit and Express I/O, async handlers and HTTP status codes are not modelled. The stores are
  classes whose fields stand for the keys the handlers read and write. Server errors (status 500) are not modelled.
- The sorted sets (`zAdd`, `zRange`) are not modelled. Readers take the members in rank order as input
  (`RankRows`, `DailyRank`). Their expiry is not modelled, and neither is the two-day expiry of each day's stored best or the one-day expiry of each day's player list.
- `Date.now`, `toISOString` and the week-number arithmetic are not modelled. The time, today and yesterday are inputs.
- The weekly and all-time writes of save-score are covered only by the member encoding they use
  (`EncodeMember`). The weekly key is not modelled.
- The `/api/stats/global` and `/api/achievements/:username` handlers are not modelled. Neither is route order:
  `/api/stats/global` is registered after `/api/stats/:username`, which matches it first.
- The achievements store is read with `sMembers` by the stats handler but written as a JSON string by the unlock
  handler. The model keeps one list per user and does not model that mismatch.
- Non-string achievement ids and non-number JSON values for `highestCombo` and `accuracy` are not modelled.
  Only "present or absent" is.
- RarityIsPercentage: the model does not prove that an achievement's counter never exceeds the number of
  registered players. The bound is a precondition.
- `Math.random` is an unbounded function from positions to reals in `[0, 1)` rather than a finite list, so no
  draw can run out. Floating-point rounding is not modelled: sizes, positions, time and accuracy are reals.
- Scores, rounds, seeds and counters are mathematical integers. The source stays within exact double range
  for seeds below `2^32` and realistic scores.
- Seeded.SeededRandom: from a negative state the source's own step stays negative, and `shuffle` and `pick` then
  read and write array properties such as `"-3"` rather than elements. The class follows the corrected step
  instead (see Findings), so that behaviour is modelled only by `Step` and `NegativeSeedLeavesUnitInterval`.
- `handleCorrectMatch` draws the next pair itself. The model takes the next pair as a parameter.
- Audio, timers and intervals, score pop-ups, rendering and animation are not modelled.
- The `fetch` and `localStorage` effects, the `unlockAchievement` and `fetchUnlockedAchievements` hook calls,
  and every presentational component are not modelled.
- The `'daily'` category is modelled as a sixth case of the `switch`. The table has no daily entry, and the
  TypeScript category union does not list one.
- The difficulty table is not used by generation and is not modelled. The `+3 to +13` claim of the how-to-play
  screen is not enforced by the code: the bonus is an uncapped `3 + combo`, and that uncapped bonus is what
  is modelled.

## Findings

| source | as written | input that shows it | evidently intended | confidence | as-written member | corrected member |
|---|---|---|---|---|---|---|
| src/server/index.ts:366 | the personal stats report `totalAchievements: 15` | any player; the table defines 14 achievements, so a player who unlocked all of them still shows 14 of 15 | the total is the size of the achievement table, 14 | not executed | ServerRules.PersonalStatsAsWritten, ServerRules.AsWrittenNeverComplete | ServerRules.PersonalStatsOf, ServerRules.CompleteExactlyWhenAllUnlocked |
| src/shared/utils/seededRandom.ts:20 | the LCG step uses `%`, which truncates toward zero in JavaScript | seed -12345 steps to -2354787718, so `next()` returns about -0.548, while the edge-case test at src/shared/utils/seededRandom.test.ts:160-165 expects `[0, 1)` | a remainder in `[0, 2^32)` for every seed | not executed | Seeded.Step, Seeded.NegativeSeedLeavesUnitInterval | Seeded.FloorStep, Seeded.FloorStepAgrees, Seeded.FloorStepFromNegativeSeed |
