/**
 * The bookkeeping rules inside the server's request handlers: validation of a submitted score,
 * the stored top five, the per-user statistics hash, the member strings of the ranked boards and
 * how a read parses them back, the daily best score and streak, the duplicate-free player and
 * achievement lists, the rarity of an unlock, and the personal stats answer.
 *
 * Redis, Reddit and the clock are not modelled. What a handler reads from them is either a
 * parameter (the current username, the current time, today's and yesterday's date strings, the
 * members a ranked read returns) or a field of `ServerStore`, which stands for the keys the
 * handlers read and write.
 */
module ServerRules {
  import opened Wrappers
  import opened JsText
  import opened RealFacts
  import opened Shuffling
  import opened Ranking
  import opened Achievements

  datatype ErrorCode = InvalidInput

  /** A field of a JSON request body; numbers are integers here. */
  datatype JsonValue = Number(n: int) | Text(s: string) | Bool(b: bool) | Null | Absent

  /** `getCurrentUsername() ?? 'anonymous'`. */
  function UsernameOr(current: Option<string>): string {
    if current.Some? then current.value else "anonymous"
  }

  /** `if (!list.includes(x)) list.push(x)`, as a value. */
  function AppendIfAbsent(list: seq<string>, x: string): (r: seq<string>)
    ensures forall y :: y in r <==> y in list || y == x
    ensures x in list ==> r == list
    ensures Distinct(list) ==> Distinct(r)
  {
    if x in list then list
    else
      DistinctAppendIfFree(list, x);
      list + [x]
  }

  lemma DistinctAppendIfFree(list: seq<string>, x: string)
    requires x !in list
    ensures Distinct(list) ==> Distinct(list + [x])
  {
    if Distinct(list) {
      DistinctAppend(list, x);
    }
  }

  // ---------------------------------------------------------------- the stored top five

  /** An entry of the stored leaderboard. */
  datatype LeaderEntry = LeaderEntry(
    username: string, score: int, rounds: int, highestCombo: int, accuracy: real, timestamp: int)

  const BOARD_SIZE: nat := 5

  function EntryScore(e: LeaderEntry): int { e.score }

  /** The entry a save pushes: a missing combo or accuracy is stored as 0 (`?? 0`). */
  function NewEntry(username: string, score: int, rounds: int, highestCombo: Option<int>, accuracy: Option<real>, now: int): LeaderEntry {
    LeaderEntry(username, score, rounds,
      if highestCombo.Some? then highestCombo.value else 0,
      if accuracy.Some? then accuracy.value else 0.0,
      now)
  }

  /** What the stored board always looks like: at most five entries, by descending score. */
  predicate BoardShape(board: seq<LeaderEntry>) {
    |board| <= BOARD_SIZE && SortedDesc(board, EntryScore)
  }

  /** The board after a save: the new entry pushed, the list sorted by descending score, five kept. */
  function TopFive(board: seq<LeaderEntry>, entry: LeaderEntry): seq<LeaderEntry> {
    Take(SortDesc(board + [entry], EntryScore), BOARD_SIZE)
  }

  /**
   * The board after a save has the stored shape and keeps the best entries: none kept scores below
   * one dropped, and kept plus dropped are exactly the old entries and the new one.
   */
  lemma TopFiveKeepsBest(board: seq<LeaderEntry>, entry: LeaderEntry)
    ensures var r := TopFive(board, entry);
      var all := SortDesc(board + [entry], EntryScore);
      BoardShape(r) &&
      |r| == (if |board| < BOARD_SIZE then |board| + 1 else BOARD_SIZE) &&
      (forall i, j :: 0 <= i < |r| <= j < |all| ==> r[i].score >= all[j].score) &&
      multiset(r) + multiset(all[|r|..]) == multiset(board) + multiset{entry}
  {
    TopKeepsBest(board + [entry], EntryScore, BOARD_SIZE);
    assert multiset(board + [entry]) == multiset(board) + multiset{entry};
  }

  /**
   * The new entry is kept exactly when fewer than five stored entries score at least as much, and
   * then it sits right after them; a score that does not make it leaves a stored board as it was.
   */
  lemma TopFiveAdmission(board: seq<LeaderEntry>, entry: LeaderEntry)
    ensures var r := TopFive(board, entry);
      var p := CountAtLeast(board, EntryScore, entry.score);
      (p < BOARD_SIZE ==> p < |r| && r[p] == entry) &&
      (p >= BOARD_SIZE && BoardShape(board) ==> r == board)
  {
    TopAdmits(board, entry, EntryScore, BOARD_SIZE);
    if BoardShape(board) {
      SortDescOfSorted(board, EntryScore);
    }
  }

  /** The array work of a save: push the entry, sort by descending score, keep the first five. */
  method PushSortSlice(stored: seq<LeaderEntry>, entry: LeaderEntry) returns (leaderboard: seq<LeaderEntry>)
    ensures leaderboard == TopFive(stored, entry)
    ensures BoardShape(leaderboard)
  {
    leaderboard := stored;
    leaderboard := leaderboard + [entry];
    leaderboard := SortDesc(leaderboard, EntryScore);
    leaderboard := Take(leaderboard, BOARD_SIZE);
    TopFiveKeepsBest(stored, entry);
  }

  function SameUserAndScore(username: string, score: int): LeaderEntry -> bool {
    (e: LeaderEntry) => e.username == username && e.score == score
  }

  /** The rank a save answers with: one plus the first position holding that user with that score. */
  function SaveRank(board: seq<LeaderEntry>, username: string, score: int): (r: Option<int>)
    ensures r.Some? ==>
      1 <= r.value <= |board| &&
      board[r.value - 1].username == username && board[r.value - 1].score == score &&
      forall j :: 0 <= j < r.value - 1 ==> !(board[j].username == username && board[j].score == score)
    ensures r.None? <==> forall j :: 0 <= j < |board| ==> !(board[j].username == username && board[j].score == score)
  {
    var k := FindIndex(board, SameUserAndScore(username, score));
    if k >= 0 then Some(k + 1) else None
  }

  /** A save whose entry is kept always answers with a rank, at or above the entry's own position. */
  lemma KeptEntryIsRanked(board: seq<LeaderEntry>, entry: LeaderEntry)
    requires CountAtLeast(board, EntryScore, entry.score) < BOARD_SIZE
    ensures var rank := SaveRank(TopFive(board, entry), entry.username, entry.score);
      rank.Some? && rank.value <= CountAtLeast(board, EntryScore, entry.score) + 1
  {
    TopFiveAdmission(board, entry);
  }

  /** A row of the legacy board read: the stored entry and its position plus one. */
  datatype LegacyRow = LegacyRow(rank: int, username: string, score: int, rounds: int, timestamp: int)

  /** The legacy board read: each stored entry with its rank. */
  function LegacyScores(board: seq<LeaderEntry>): (rows: seq<LegacyRow>)
    ensures |rows| == |board|
    ensures forall i :: 0 <= i < |rows| ==>
      rows[i] == LegacyRow(i + 1, board[i].username, board[i].score, board[i].rounds, board[i].timestamp)
  {
    seq(|board|, i requires 0 <= i < |board| =>
      LegacyRow(i + 1, board[i].username, board[i].score, board[i].rounds, board[i].timestamp))
  }

  /** The rank a save answers with is the rank the legacy read shows for that user and score. */
  lemma SaveRankMatchesLegacy(board: seq<LeaderEntry>, username: string, score: int)
    requires SaveRank(board, username, score).Some?
    ensures var k := SaveRank(board, username, score).value;
      var row := LegacyScores(board)[k - 1];
      row.rank == k && row.username == username && row.score == score
  {
  }

  // ---------------------------------------------------------------- the user statistics hash

  /** The fields of a user's statistics hash; an absent field is `None`. */
  datatype UserStats = UserStats(
    totalGames: Option<string>, bestScore: Option<string>, totalScore: Option<string>,
    totalPlaytime: Option<string>, lastPlayed: Option<string>)

  const NO_STATS: UserStats := UserStats(None, None, None, None, None)

  function StatsOf(stats: map<string, UserStats>, username: string): UserStats {
    if username in stats then stats[username] else NO_STATS
  }

  /** `parseInt(field || '0', 10)`: an absent or empty field reads as 0; `None` is `NaN`. */
  function ReadField(f: Option<string>): Option<int> {
    ParseInt(if f.None? || f.value == "" then "0" else f.value)
  }

  /** `toString()` of a number that may be `NaN`. */
  function NumberText(n: Option<int>): string {
    if n.Some? then IntToString(n.value) else "NaN"
  }

  /** Addition where `NaN` absorbs. */
  function AddOpt(a: Option<int>, b: int): Option<int> {
    if a.Some? then Some(a.value + b) else None
  }

  /** `Math.max`, where `NaN` absorbs. */
  function MaxOpt(a: Option<int>, b: int): Option<int> {
    if a.None? then None else if a.value >= b then a else Some(b)
  }

  /** The `hSet` of a save: four fields rewritten from the old ones, every other field kept. */
  function UpdatedStats(h: UserStats, score: int, now: int): UserStats {
    h.(totalGames := Some(NumberText(AddOpt(ReadField(h.totalGames), 1))),
       bestScore := Some(NumberText(MaxOpt(ReadField(h.bestScore), score))),
       totalScore := Some(NumberText(AddOpt(ReadField(h.totalScore), score))),
       lastPlayed := Some(IntToString(now)))
  }

  /** Adding to a field and writing the sum back: it reads as the sum, or stays `NaN`. */
  lemma ReadsBackSum(f: Option<string>, b: int)
    ensures var n := ReadField(f);
      ReadField(Some(NumberText(AddOpt(n, b)))) == if n.Some? then Some(n.value + b) else None
  {
    ReadNumberText(AddOpt(ReadField(f), b));
  }

  /** Taking the larger of a field and `b` and writing it back: it reads as that, or stays `NaN`. */
  lemma ReadsBackMax(f: Option<string>, b: int)
    ensures var n := ReadField(f);
      ReadField(Some(NumberText(MaxOpt(n, b)))) == if n.Some? then Some(if n.value >= b then n.value else b) else None
  {
    ReadNumberText(MaxOpt(ReadField(f), b));
  }

  /** The statistics of every user after `username` saved `score` at time `now`. */
  function RecordGame(stats: map<string, UserStats>, username: string, score: int, now: int): map<string, UserStats> {
    stats[username := UpdatedStats(StatsOf(stats, username), score, now)]
  }

  /** A number written as text reads back as that number, `NaN` as `NaN`. */
  lemma ReadNumberText(n: Option<int>)
    ensures ReadField(Some(NumberText(n))) == n
  {
    if n.Some? {
      IntToStringRoundTrip(n.value);
    } else {
      var s := "NaN";
      assert TrimStart(s) == s && DigitPrefix(s) == [];
    }
  }

  /**
   * Read back, the rewritten hash has one more game, the larger of the old best and the score,
   * and the old total plus the score; a field that did not read as a number stays `NaN`.
   */
  lemma StatsUpdate(h: UserStats, score: int, now: int)
    ensures var h' := UpdatedStats(h, score, now);
      var games, best, total := ReadField(h.totalGames), ReadField(h.bestScore), ReadField(h.totalScore);
      (games.Some? ==> ReadField(h'.totalGames) == Some(games.value + 1)) &&
      (best.Some? ==> ReadField(h'.bestScore) == Some(if best.value >= score then best.value else score)) &&
      (total.Some? ==> ReadField(h'.totalScore) == Some(total.value + score)) &&
      (games.None? ==> ReadField(h'.totalGames).None?) &&
      (best.None? ==> ReadField(h'.bestScore).None?) &&
      (total.None? ==> ReadField(h'.totalScore).None?) &&
      ReadField(h'.lastPlayed) == Some(now) &&
      h'.totalPlaytime == h.totalPlaytime
  {
    ReadsBackSum(h.totalGames, 1);
    ReadsBackMax(h.bestScore, score);
    ReadsBackSum(h.totalScore, score);
    ReadNumberText(Some(now));
  }

  /** The hash after saving `games`, each a score and the time of its save, in order. */
  function Replay(h: UserStats, games: seq<(int, int)>): UserStats {
    if games == [] then h
    else UpdatedStats(Replay(h, games[..|games| - 1]), games[|games| - 1].0, games[|games| - 1].1)
  }

  function SumScores(games: seq<(int, int)>): int {
    if games == [] then 0 else SumScores(games[..|games| - 1]) + games[|games| - 1].0
  }

  /** The largest of 0 and the scores, 0 being what an empty hash reads as. */
  function BestScore(games: seq<(int, int)>): int {
    if games == [] then 0
    else
      var b := BestScore(games[..|games| - 1]);
      if b >= games[|games| - 1].0 then b else games[|games| - 1].0
  }

  /** An absent field reads as 0. */
  lemma ReadAbsent()
    ensures ReadField(None) == Some(0)
  {
    ParseIntOfDigits("0");
  }

  /** Starting from an empty hash, `totalGames` counts the saved games. */
  lemma {:induction false} ReplayCountsGames(games: seq<(int, int)>)
    ensures ReadField(Replay(NO_STATS, games).totalGames) == Some(|games|)
  {
    if games == [] {
      ReadAbsent();
    } else {
      var init, last := games[..|games| - 1], games[|games| - 1];
      ReplayCountsGames(init);
      assert Replay(NO_STATS, games).totalGames == Some(NumberText(AddOpt(ReadField(Replay(NO_STATS, init).totalGames), 1)));
      ReadsBackSum(Replay(NO_STATS, init).totalGames, 1);
    }
  }

  /** Starting from an empty hash, `bestScore` is the best of 0 and the saved scores. */
  lemma {:induction false} ReplayKeepsBest(games: seq<(int, int)>)
    ensures ReadField(Replay(NO_STATS, games).bestScore) == Some(BestScore(games))
  {
    if games == [] {
      ReadAbsent();
    } else {
      var init, last := games[..|games| - 1], games[|games| - 1];
      var before := Replay(NO_STATS, init).bestScore;
      ReplayKeepsBest(init);
      ReadsBackMax(before, last.0);
      assert Replay(NO_STATS, games).bestScore == Some(NumberText(MaxOpt(ReadField(before), last.0)));
    }
  }

  /** Starting from an empty hash, `totalScore` is the sum of the saved scores. */
  lemma {:induction false} ReplaySumsScores(games: seq<(int, int)>)
    ensures ReadField(Replay(NO_STATS, games).totalScore) == Some(SumScores(games))
  {
    if games == [] {
      ReadAbsent();
    } else {
      var init, last := games[..|games| - 1], games[|games| - 1];
      var before := Replay(NO_STATS, init).totalScore;
      ReplaySumsScores(init);
      ReadsBackSum(before, last.0);
      assert Replay(NO_STATS, games).totalScore == Some(NumberText(AddOpt(ReadField(before), last.0)));
      assert SumScores(games) == SumScores(init) + last.0;
    }
  }

  /** Starting from an empty hash, the stored fields count the games, keep the best and sum the scores. */
  lemma ReplayFromNothing(games: seq<(int, int)>)
    ensures var h := Replay(NO_STATS, games);
      ReadField(h.totalGames) == Some(|games|) &&
      ReadField(h.bestScore) == Some(BestScore(games)) &&
      ReadField(h.totalScore) == Some(SumScores(games))
  {
    ReplayCountsGames(games);
    ReplayKeepsBest(games);
    ReplaySumsScores(games);
  }

  /**
   * `averageScore`: `Math.round(totalScore / totalGames)` when totalGames is above 0, else 0; a
   * `NaN` totalGames is not above 0, and a `NaN` totalScore makes the average `NaN` (`None`).
   */
  function AverageScore(totalGames: Option<int>, totalScore: Option<int>): (r: Option<int>)
    ensures !(totalGames.Some? && totalGames.value > 0) ==> r == Some(0)
    ensures totalGames.Some? && totalGames.value > 0 ==> (r.Some? <==> totalScore.Some?)
    ensures r.Some? && totalGames.Some? && totalGames.value > 0 && totalScore.Some? ==>
      var mean := totalScore.value as real / totalGames.value as real;
      r.value as real - 0.5 <= mean < r.value as real + 0.5
  {
    if totalGames.Some? && totalGames.value > 0 then
      if totalScore.Some? then Some(Round(totalScore.value as real / totalGames.value as real)) else None
    else Some(0)
  }

  lemma {:induction false} SumBounds(games: seq<(int, int)>, lo: int, hi: int)
    requires forall i :: 0 <= i < |games| ==> lo <= games[i].0 <= hi
    ensures lo * |games| <= SumScores(games) <= hi * |games|
  {
    if games != [] {
      var init := games[..|games| - 1];
      assert forall i :: 0 <= i < |init| ==> init[i] == games[i];
      SumBounds(init, lo, hi);
      assert lo * |init| + lo == lo * |games|;
      assert hi * |init| + hi == hi * |games|;
    }
  }

  /** A mean between two bounds rounds to a value between them. */
  lemma AverageBetween(games: int, total: int, lo: int, hi: int)
    requires games > 0
    requires lo * games <= total <= hi * games
    ensures var a := AverageScore(Some(games), Some(total));
      a.Some? && lo <= a.value <= hi
  {
    assert (lo * games) as real == lo as real * games as real;
    assert (hi * games) as real == hi as real * games as real;
    QuotientBetween(total as real, games as real, lo as real, hi as real);
    RoundBetween(total as real / games as real, lo, hi);
  }

  /** The average read from a replayed hash is the rounded mean of the scores. */
  lemma AverageOfReplay(games: seq<(int, int)>)
    ensures var h := Replay(NO_STATS, games);
      AverageScore(ReadField(h.totalGames), ReadField(h.totalScore)) == AverageScore(Some(|games|), Some(SumScores(games)))
  {
    ReplayFromNothing(games);
  }

  /** The average of the saved games lies between their lowest and highest score. */
  lemma AverageWithinScores(games: seq<(int, int)>, lo: int, hi: int)
    requires |games| > 0
    requires forall i :: 0 <= i < |games| ==> lo <= games[i].0 <= hi
    ensures var h := Replay(NO_STATS, games);
      var a := AverageScore(ReadField(h.totalGames), ReadField(h.totalScore));
      a.Some? && lo <= a.value <= hi
  {
    AverageOfReplay(games);
    SumBounds(games, lo, hi);
    AverageBetween(|games|, SumScores(games), lo, hi);
  }

  // ---------------------------------------------------------------- ranked board members

  /** The member a save adds to a ranked board: `${username}:${score}:${rounds}:${timestamp}`. */
  function EncodeMember(username: string, score: int, rounds: int, timestamp: int): string {
    username + [':'] + (IntToString(score) + [':'] + (IntToString(rounds) + [':'] + IntToString(timestamp)))
  }

  /** A row of a ranked read; a missing or unreadable number is `NaN` (`None`). */
  datatype MemberRow = MemberRow(rank: int, username: string, score: Option<int>, rounds: Option<int>, timestamp: Option<int>)

  /** `parseInt(parts[k], 10)`, where a missing piece is `undefined` and reads as `NaN`. */
  function PartNumber(parts: seq<string>, k: nat): Option<int> {
    if k < |parts| then ParseInt(parts[k]) else None
  }

  /** The row a ranked read builds from the member at position `index`: split on `':'`, then parse. */
  function ParseMember(member: string, index: int): MemberRow {
    var parts := Split(member, ':');
    MemberRow(index + 1, parts[0], PartNumber(parts, 1), PartNumber(parts, 2), PartNumber(parts, 3))
  }

  /** A member parses back to the fields it was written from, when the username holds no `':'`. */
  lemma MemberRoundTrip(username: string, score: int, rounds: int, timestamp: int, index: int)
    requires ':' !in username
    ensures ParseMember(EncodeMember(username, score, rounds, timestamp), index)
         == MemberRow(index + 1, username, Some(score), Some(rounds), Some(timestamp))
  {
    var s1, s2, s3 := IntToString(score), IntToString(rounds), IntToString(timestamp);
    IntToStringHasNo(score, ':');
    IntToStringHasNo(rounds, ':');
    IntToStringHasNo(timestamp, ':');
    IntToStringRoundTrip(score);
    IntToStringRoundTrip(rounds);
    IntToStringRoundTrip(timestamp);
    var tail1 := s2 + [':'] + s3;
    var tail0 := s1 + [':'] + tail1;
    SplitAtFirst(username, ':', tail0);
    SplitAtFirst(s1, ':', tail1);
    SplitAtFirst(s2, ':', s3);
    SplitNoSeparator(s3, ':');
  }

  /** With a `':'` in the username the read shows a different username. */
  lemma ColonInNameMisreads(username: string, score: int, rounds: int, timestamp: int, index: int)
    requires ':' in username
    ensures ParseMember(EncodeMember(username, score, rounds, timestamp), index).username != username
  {
    SplitHeadFree(EncodeMember(username, score, rounds, timestamp), ':');
  }

  /** The rows of a ranked read: every member parsed, ranked by its position plus one. */
  function RankRows(members: seq<string>): (rows: seq<MemberRow>)
    ensures |rows| == |members|
    ensures forall i :: 0 <= i < |rows| ==> rows[i] == ParseMember(members[i], i)
  {
    seq(|members|, i requires 0 <= i < |members| => ParseMember(members[i], i))
  }

  /** The member of a board entry. */
  function MemberOf(e: LeaderEntry): string {
    EncodeMember(e.username, e.score, e.rounds, e.timestamp)
  }

  /** Reading the members of entries whose usernames hold no `':'` gives back those entries, ranked 1, 2, ... */
  lemma RankRowsOfMembers(entries: seq<LeaderEntry>, members: seq<string>)
    requires |members| == |entries|
    requires forall i :: 0 <= i < |entries| ==> ':' !in entries[i].username && members[i] == MemberOf(entries[i])
    ensures forall i :: 0 <= i < |members| ==>
      RankRows(members)[i] == MemberRow(i + 1, entries[i].username, Some(entries[i].score), Some(entries[i].rounds), Some(entries[i].timestamp))
  {
    forall i | 0 <= i < |members|
      ensures RankRows(members)[i] == MemberRow(i + 1, entries[i].username, Some(entries[i].score), Some(entries[i].rounds), Some(entries[i].timestamp))
    {
      MemberRoundTrip(entries[i].username, entries[i].score, entries[i].rounds, entries[i].timestamp, i);
    }
  }

  // ---------------------------------------------------------------- the daily rank

  function StartsWithUser(username: string): string -> bool {
    (m: string) => username + ":" <= m
  }

  /** The daily rank: one plus the first position whose member starts with `username:`, if any. */
  function DailyRank(members: seq<string>, username: string): (r: Option<int>)
    ensures r.Some? ==>
      1 <= r.value <= |members| && username + ":" <= members[r.value - 1] &&
      forall j :: 0 <= j < r.value - 1 ==> !(username + ":" <= members[j])
    ensures r.None? <==> forall j :: 0 <= j < |members| ==> !(username + ":" <= members[j])
  {
    var rank := FindIndex(members, StartsWithUser(username)) + 1;
    if rank > 0 then Some(rank) else None
  }

  /** When usernames hold no `':'`, the prefix test picks out exactly the user's own members. */
  lemma MemberPrefixIdentifiesUser(u: string, v: string, score: int, rounds: int, timestamp: int)
    requires ':' !in u && ':' !in v
    ensures u + ":" <= EncodeMember(v, score, rounds, timestamp) <==> u == v
  {
    var tail := IntToString(score) + [':'] + (IntToString(rounds) + [':'] + IntToString(timestamp));
    NamePrefixIdentifiesName(u, v, tail);
  }

  /** For colon-free names, `u + ":"` starts `v + ":" + tail` exactly when the names agree. */
  lemma NamePrefixIdentifiesName(u: string, v: string, tail: string)
    requires ':' !in u && ':' !in v
    ensures u + ":" <= v + [':'] + tail <==> u == v
  {
    var m := v + [':'] + tail;
    SplitAtFirst(v, ':', tail);
    assert Split(m, ':')[0] == v;
    if u + ":" <= m {
      var rest := m[|u| + 1..];
      assert m == u + [':'] + rest;
      SplitAtFirst(u, ':', rest);
      assert Split(m, ':')[0] == u;
    }
    if u == v {
      assert m[..|u| + 1] == u + ":";
    }
  }

  // ---------------------------------------------------------------- the daily streak

  /** The stored streak: a day count and the date it was last advanced on. */
  datatype Streak = Streak(count: int, lastPlayed: Option<string>)

  const NEW_STREAK: Streak := Streak(0, None)

  function StreakOf(streaks: map<string, Streak>, username: string): Streak {
    if username in streaks then streaks[username] else NEW_STREAK
  }

  /**
   * The streak rule: last played yesterday adds a day, last played today keeps the count, anything
   * else starts over at 1; the date becomes today.
   */
  function NextStreak(s: Streak, today: string, yesterday: string): (r: Streak)
    ensures r.lastPlayed == Some(today)
    ensures s.lastPlayed == Some(yesterday) ==> r.count == s.count + 1
    ensures s.lastPlayed != Some(yesterday) && s.lastPlayed == Some(today) ==> r.count == s.count
    ensures s.lastPlayed != Some(yesterday) && s.lastPlayed != Some(today) ==> r.count == 1
  {
    var count :=
      if s.lastPlayed == Some(yesterday) then s.count + 1
      else if s.lastPlayed != Some(today) then 1
      else s.count;
    Streak(count, Some(today))
  }

  /** A streak that has been advanced counts at least one day. */
  predicate StreakValid(s: Streak) {
    s.count >= 0 && (s.lastPlayed.Some? ==> s.count >= 1)
  }

  lemma NextStreakValid(s: Streak, today: string, yesterday: string)
    requires StreakValid(s)
    ensures StreakValid(NextStreak(s, today, yesterday)) && NextStreak(s, today, yesterday).count >= 1
  {
  }

  /** Advancing twice on the same day is advancing once. */
  lemma NextStreakSameDay(s: Streak, today: string, yesterday: string)
    requires today != yesterday
    ensures NextStreak(NextStreak(s, today, yesterday), today, yesterday) == NextStreak(s, today, yesterday)
  {
  }

  /** The streak after advancing on each day of `days`, each a (today, yesterday) pair, in order. */
  function PlayDays(s: Streak, days: seq<(string, string)>): Streak {
    if days == [] then s
    else NextStreak(PlayDays(s, days[..|days| - 1]), days[|days| - 1].0, days[|days| - 1].1)
  }

  /** Playing on a run of consecutive days, starting fresh, makes the streak the run's length. */
  lemma {:induction false} ConsecutiveDays(days: seq<(string, string)>)
    requires |days| > 0
    requires forall i :: 0 < i < |days| ==> days[i].1 == days[i - 1].0
    ensures PlayDays(NEW_STREAK, days) == Streak(|days|, Some(days[|days| - 1].0))
  {
    if |days| > 1 {
      var init := days[..|days| - 1];
      assert forall i :: 0 <= i < |init| ==> init[i] == days[i];
      ConsecutiveDays(init);
    }
  }

  /** The streak object of a daily save, advanced in place. */
  class StreakRecord {
    var count: int
    var lastPlayed: Option<string>

    constructor (s: Streak)
      ensures Value() == s
    {
      count := s.count;
      lastPlayed := s.lastPlayed;
    }

    function Value(): Streak
      reads this
    {
      Streak(count, lastPlayed)
    }

    /** The streak update of a daily save. */
    method Advance(today: string, yesterday: string)
      modifies this
      ensures Value() == NextStreak(old(Value()), today, yesterday)
    {
      if lastPlayed == Some(yesterday) {
        count := count + 1;
      } else if lastPlayed != Some(today) {
        count := 1;
      }
      lastPlayed := Some(today);
    }
  }

  // ---------------------------------------------------------------- the daily best score

  /** The stored best of the day, 0 when nothing is stored. */
  function ExistingScore(stored: Option<int>): int {
    if stored.Some? then stored.value else 0
  }

  datatype DailyResult = DailyResult(best: Option<int>, streak: Streak, isNewBest: bool)

  /**
   * A daily save: only a score above the stored best (0 when none) replaces it and advances the
   * streak; otherwise both stay, and the stored best ends up the larger of the two.
   */
  function DailyUpdate(stored: Option<int>, streak: Streak, score: int, today: string, yesterday: string): (r: DailyResult)
    ensures r.isNewBest <==> score > ExistingScore(stored)
    ensures r.isNewBest ==> r.best == Some(score) && r.streak == NextStreak(streak, today, yesterday)
    ensures !r.isNewBest ==> r.best == stored && r.streak == streak
    ensures ExistingScore(r.best) == if ExistingScore(stored) >= score then ExistingScore(stored) else score
  {
    if score > ExistingScore(stored) then DailyResult(Some(score), NextStreak(streak, today, yesterday), true)
    else DailyResult(stored, streak, false)
  }

  /** Submitting the same score again the same day changes nothing and is no new best. */
  lemma DailyResubmit(stored: Option<int>, streak: Streak, score: int, today: string, yesterday: string)
    ensures var r := DailyUpdate(stored, streak, score, today, yesterday);
      DailyUpdate(r.best, r.streak, score, today, yesterday) == DailyResult(r.best, r.streak, false)
  {
  }

  // ---------------------------------------------------------------- unlocking and rarity

  datatype UnlockAnswer = AlreadyUnlocked | Unlocked(rarity: Option<real>)

  /** The count stored after an unlock: one more than the stored one, 1 when none is stored. */
  function NextCount(current: Option<string>): Option<int> {
    if current.Some? && current.value != "" then AddOpt(ParseInt(current.value), 1) else Some(1)
  }

  /** The rarity answered: `count / (players || 1) * 100`, rounded to one decimal. */
  function Rarity(count: int, players: nat): (r: real)
    ensures var exact := count as real / (if players == 0 then 1 else players) as real * 100.0;
      r - 0.05 <= exact < r + 0.05
  {
    var totalPlayers := if players == 0 then 1 else players;
    var rarity := (count as real / totalPlayers as real) * 100.0;
    Round(rarity * 10.0) as real / 10.0
  }

  /** When no more players hold an achievement than there are players, its rarity is a percentage. */
  lemma RarityIsPercentage(count: int, players: nat)
    requires 0 <= count <= players && players > 0
    ensures 0.0 <= Rarity(count, players) <= 100.0
  {
    QuotientBetween(count as real, players as real, 0.0, 1.0);
  }

  // ---------------------------------------------------------------- personal stats

  datatype PersonalStats = PersonalStats(
    totalGames: Option<int>, bestScore: Option<int>, averageScore: Option<int>, totalPlaytime: Option<int>,
    achievementCount: nat, totalAchievements: nat, dailyStreak: int)

  /** The personal stats answer, with `total` as the number of achievements available. */
  function PersonalStatsWith(total: nat, username: string, h: UserStats, streak: Option<Streak>, unlocked: seq<string>): (r: Result<PersonalStats, ErrorCode>)
    ensures r.Err? <==> username == ""
    ensures r.Ok? ==> r.value.totalAchievements == total && r.value.achievementCount == |unlocked|
    ensures r.Ok? ==>
      r.value.totalGames == ReadField(h.totalGames) &&
      r.value.averageScore == AverageScore(ReadField(h.totalGames), ReadField(h.totalScore))
    ensures r.Ok? ==>
      r.value.bestScore == ReadField(h.bestScore) &&
      r.value.totalPlaytime == ReadField(h.totalPlaytime) &&
      r.value.dailyStreak == (if streak.Some? then streak.value.count else 0)
  {
    if username == "" then Err(InvalidInput)
    else
      var totalGames := ReadField(h.totalGames);
      var totalScore := ReadField(h.totalScore);
      Ok(PersonalStats(totalGames, ReadField(h.bestScore), AverageScore(totalGames, totalScore),
        ReadField(h.totalPlaytime), |unlocked|, total, if streak.Some? then streak.value.count else 0))
  }

  /** Saving scores never writes the playtime field: it stays absent from the empty hash. */
  lemma {:induction false} ReplayKeepsPlaytime(games: seq<(int, int)>)
    ensures Replay(NO_STATS, games).totalPlaytime == None
  {
    if games != [] {
      ReplayKeepsPlaytime(games[..|games| - 1]);
    }
  }

  /**
   * A user who has saved `games` from no stats at all sees the number of games, the best score
   * (0 when every score is negative), the average of the scores and no playtime.
   */
  lemma PersonalStatsAfterGames(total: nat, username: string, games: seq<(int, int)>, streak: Option<Streak>, unlocked: seq<string>)
    requires username != ""
    ensures var r := PersonalStatsWith(total, username, Replay(NO_STATS, games), streak, unlocked);
      r.Ok? &&
      r.value.totalGames == Some(|games|) &&
      r.value.bestScore == Some(BestScore(games)) &&
      r.value.averageScore == AverageScore(Some(|games|), Some(SumScores(games))) &&
      r.value.totalPlaytime == Some(0)
  {
    var h := Replay(NO_STATS, games);
    ReplayFromNothing(games);
    ReplayKeepsPlaytime(games);
    ReadAbsent();
    assert ReadField(h.totalPlaytime) == Some(0);
  }

  /** The answer as written: 15 achievements available. */
  function PersonalStatsAsWritten(username: string, h: UserStats, streak: Option<Streak>, unlocked: seq<string>): (r: Result<PersonalStats, ErrorCode>)
    ensures r.Ok? ==> r.value.totalAchievements == 15
  {
    PersonalStatsWith(15, username, h, streak, unlocked)
  }

  /** The answer with the size of the achievement table as the number available. */
  function PersonalStatsOf(username: string, h: UserStats, streak: Option<Streak>, unlocked: seq<string>): (r: Result<PersonalStats, ErrorCode>)
    ensures r.Ok? ==> r.value.totalAchievements == |ACHIEVEMENTS|
  {
    PersonalStatsWith(|ACHIEVEMENTS|, username, h, streak, unlocked)
  }

  /** Distinct ids of a table number at most the table's size, and exactly that many when all are present. */
  lemma UnlockedCount(table: seq<Achievement>, unlocked: seq<string>)
    requires Distinct(Ids(table))
    requires Distinct(unlocked) && forall id :: id in unlocked ==> id in Ids(table)
    ensures |unlocked| <= |table|
    ensures |unlocked| == |table| <==> forall a :: a in table ==> a.id in unlocked
  {
    var ids := Ids(table);
    var have, all := Elems(unlocked), Elems(ids);
    ElemsCard(unlocked);
    ElemsCard(ids);
    assert have <= all;
    assert all == have + (all - have);
    assert have * (all - have) == {};
    assert |all| == |have| + |all - have|;
    if forall a :: a in table ==> a.id in unlocked {
      forall y | y in all ensures y in have {
        var i :| 0 <= i < |ids| && ids[i] == y;
        assert table[i] in table;
      }
      assert all - have == {};
    } else {
      var a :| a in table && a.id !in unlocked;
      var i :| 0 <= i < |table| && table[i] == a;
      assert ids[i] in all - have;
    }
  }

  /** As written, a player who has unlocked table entries, each once, never reaches the total. */
  lemma AsWrittenNeverComplete(username: string, h: UserStats, streak: Option<Streak>, unlocked: seq<string>)
    requires username != ""
    requires Distinct(unlocked) && forall id :: id in unlocked ==> id in Ids(ACHIEVEMENTS)
    ensures var r := PersonalStatsAsWritten(username, h, streak, unlocked);
      r.Ok? && r.value.achievementCount < r.value.totalAchievements
  {
    IdsDistinct();
    UnlockedCount(ACHIEVEMENTS, unlocked);
    TableSize();
  }

  /** With the table's size as the total, the count reaches it exactly when every entry is unlocked. */
  lemma CompleteExactlyWhenAllUnlocked(username: string, h: UserStats, streak: Option<Streak>, unlocked: seq<string>)
    requires username != ""
    requires Distinct(unlocked) && forall id :: id in unlocked ==> id in Ids(ACHIEVEMENTS)
    ensures var r := PersonalStatsOf(username, h, streak, unlocked);
      r.Ok? && r.value.achievementCount <= r.value.totalAchievements &&
      (r.value.achievementCount == r.value.totalAchievements <==> forall a :: a in ACHIEVEMENTS ==> a.id in unlocked)
  {
    IdsDistinct();
    UnlockedCount(ACHIEVEMENTS, unlocked);
  }

  // ---------------------------------------------------------------- the stores and the handlers

  /** The players stored for `day`: the list under `players:<day>`, or none when the key is absent. */
  function PlayersOn(playersByDay: map<string, seq<string>>, day: string): seq<string> {
    if day in playersByDay then playersByDay[day] else []
  }

  /**
   * The keys `/api/save-score` writes besides the user's hash: the top five, the game count and,
   * per day, the players who saved that day.
   */
  class ScoreStore {
    var leaderboard: seq<LeaderEntry>
    var totalGames: int
    var playersByDay: map<string, seq<string>>

    predicate Valid()
      reads this
    {
      BoardShape(leaderboard) && forall d :: d in playersByDay ==> Distinct(playersByDay[d])
    }

    constructor ()
      ensures Valid()
      ensures leaderboard == [] && totalGames == 0 && playersByDay == map[]
    {
      leaderboard := [];
      totalGames := 0;
      playersByDay := map[];
    }

    /**
     * A save's update of these keys: the new board, one more game, and the player added to the
     * list of `today` when absent from it; the other days' lists are kept.
     */
    method RecordScore(entry: LeaderEntry, today: string)
      requires Valid()
      modifies this
      ensures Valid()
      ensures leaderboard == TopFive(old(leaderboard), entry)
      ensures totalGames == old(totalGames) + 1
      ensures playersByDay == old(playersByDay)[today := AppendIfAbsent(PlayersOn(old(playersByDay), today), entry.username)]
    {
      leaderboard := PushSortSlice(leaderboard, entry);
      totalGames := totalGames + 1;
      var players := PlayersOn(playersByDay, today);
      if entry.username !in players {
        DistinctAppend(players, entry.username);
        players := players + [entry.username];
      }
      playersByDay := playersByDay[today := players];
    }

    /** `/api/stats/global`'s `playersToday`: the length of the day's list, 0 when there is none. */
    function PlayersToday(today: string): (n: nat)
      reads this
      requires Valid()
      ensures n == |Elems(PlayersOn(playersByDay, today))|
      ensures n == 0 <==> today !in playersByDay || playersByDay[today] == []
    {
      ElemsCard(PlayersOn(playersByDay, today));
      |PlayersOn(playersByDay, today)|
    }
  }

  /** The statistics hashes of all users. */
  class UserStatsStore {
    var userStats: map<string, UserStats>

    constructor ()
      ensures userStats == map[]
    {
      userStats := map[];
    }

    /** The `hSet` of a save on the user's hash. */
    method RecordGameOf(username: string, score: int, now: int)
      modifies this
      ensures userStats == RecordGame(old(userStats), username, score, now)
    {
      userStats := RecordGame(userStats, username, score, now);
    }
  }

  /**
   * `/api/save-score`: a body without numeric score and rounds is refused before anything is
   * written; otherwise the board, the game count, today's players and the user's hash are
   * updated and the rank of the user's score on the new board is answered.
   */
  method SaveScore(scores: ScoreStore, stats: UserStatsStore, current: Option<string>,
                   score: JsonValue, rounds: JsonValue, highestCombo: Option<int>, accuracy: Option<real>,
                   now: int, today: string)
    returns (r: Result<Option<int>, ErrorCode>)
    requires scores.Valid()
    modifies scores, stats
    ensures scores.Valid()
    ensures r.Err? <==> !(score.Number? && rounds.Number?)
    ensures r.Err? ==>
      r.error == InvalidInput && scores.leaderboard == old(scores.leaderboard) &&
      scores.totalGames == old(scores.totalGames) && scores.playersByDay == old(scores.playersByDay) &&
      stats.userStats == old(stats.userStats)
    ensures r.Ok? ==>
      var u := UsernameOr(current);
      scores.leaderboard == TopFive(old(scores.leaderboard), NewEntry(u, score.n, rounds.n, highestCombo, accuracy, now)) &&
      scores.totalGames == old(scores.totalGames) + 1 &&
      scores.playersByDay == old(scores.playersByDay)[today := AppendIfAbsent(PlayersOn(old(scores.playersByDay), today), u)] &&
      stats.userStats == RecordGame(old(stats.userStats), u, score.n, now) &&
      r.value == SaveRank(scores.leaderboard, u, score.n)
  {
    if !(score.Number? && rounds.Number?) {
      return Err(InvalidInput);
    }
    var username := UsernameOr(current);
    scores.RecordScore(NewEntry(username, score.n, rounds.n, highestCombo, accuracy, now), today);
    stats.RecordGameOf(username, score.n, now);
    r := Ok(SaveRank(scores.leaderboard, username, score.n));
  }

  /**
   * A player who saves on two days is counted on each: the second day starts from an empty list
   * and the first day's list is kept.
   */
  method PlayerCountedEachDay(u: string) returns (day1: nat, day2: nat)
    ensures day1 == 1 && day2 == 1
  {
    var scores := new ScoreStore();
    scores.RecordScore(NewEntry(u, 100, 5, None, None, 0), "2025-10-24");
    assert PlayersOn(scores.playersByDay, "2025-10-24") == [u];
    scores.RecordScore(NewEntry(u, 80, 4, None, None, 86400000), "2025-10-25");
    assert PlayersOn(scores.playersByDay, "2025-10-25") == [u];
    assert PlayersOn(scores.playersByDay, "2025-10-24") == [u];
    day1 := scores.PlayersToday("2025-10-24");
    day2 := scores.PlayersToday("2025-10-25");
  }

  /**
   * The keys `/api/daily-challenge/score` reads and writes: the best of each day and user
   * (`daily:<day>:user:<name>`) and each user's streak across days (`streak:<name>`).
   */
  class DailyStore {
    var dailyBest: map<(string, string), int>
    var streaks: map<string, Streak>

    predicate Valid()
      reads this
    {
      forall u :: u in streaks ==> StreakValid(streaks[u])
    }

    constructor ()
      ensures Valid()
      ensures dailyBest == map[] && streaks == map[]
    {
      dailyBest := map[];
      streaks := map[];
    }

    /**
     * `/api/daily-challenge/score`: a body without numeric score and rounds is refused; otherwise
     * a score above the day's stored best replaces it and advances the streak. The answer is the
     * rank among `ranked`, the day's members as the ranked read returns them, and whether the
     * score was a new best.
     */
    method SubmitDailyScore(current: Option<string>, score: JsonValue, rounds: JsonValue,
                            today: string, yesterday: string, ranked: seq<string>)
      returns (r: Result<(Option<int>, bool), ErrorCode>)
      requires Valid()
      modifies this
      ensures Valid()
      ensures r.Err? <==> !(score.Number? && rounds.Number?)
      ensures r.Err? ==> r.error == InvalidInput && dailyBest == old(dailyBest) && streaks == old(streaks)
      ensures r.Ok? ==>
        var u := UsernameOr(current);
        var stored := if (today, u) in old(dailyBest) then Some(old(dailyBest)[(today, u)]) else None;
        var d := DailyUpdate(stored, StreakOf(old(streaks), u), score.n, today, yesterday);
        (d.isNewBest ==> dailyBest == old(dailyBest)[(today, u) := score.n] && streaks == old(streaks)[u := d.streak]) &&
        (!d.isNewBest ==> dailyBest == old(dailyBest) && streaks == old(streaks)) &&
        r.value == (DailyRank(ranked, u), d.isNewBest)
    {
      if !(score.Number? && rounds.Number?) {
        return Err(InvalidInput);
      }
      var username := UsernameOr(current);
      var existingScore := if (today, username) in dailyBest then dailyBest[(today, username)] else 0;
      if score.n > existingScore {
        dailyBest := dailyBest[(today, username) := score.n];
        var streak := new StreakRecord(StreakOf(streaks, username));
        streak.Advance(today, yesterday);
        NextStreakValid(StreakOf(streaks, username), today, yesterday);
        streaks := streaks[username := streak.Value()];
      }
      r := Ok((DailyRank(ranked, username), score.n > existingScore));
    }
  }

  /**
   * Two days in a row: a lower score on the second day is still that day's first best, so it
   * is stored and the streak reaches 2.
   */
  method ConsecutiveDailyBests(u: string) returns (first: Result<(Option<int>, bool), ErrorCode>,
                                                   second: Result<(Option<int>, bool), ErrorCode>, count: int)
    ensures first == Ok((Some(1), true)) && second == Ok((Some(1), true))
    ensures count == 2
  {
    var store := new DailyStore();
    var m1, m2 := u + ":100:5:1", u + ":50:3:2";
    assert u + ":" <= m1 && u + ":" <= m2;
    first := store.SubmitDailyScore(Some(u), Number(100), Number(5), "2025-10-24", "2025-10-23", [m1]);
    second := store.SubmitDailyScore(Some(u), Number(50), Number(3), "2025-10-25", "2025-10-24", [m2]);
    count := StreakOf(store.streaks, UsernameOr(Some(u))).count;
  }

  /** The keys `/api/achievements/unlock` reads and writes. */
  class AchievementStore {
    var achievements: map<string, seq<string>>
    var allPlayers: seq<string>
    var achievementCounts: map<string, string>

    predicate Valid()
      reads this
    {
      Distinct(allPlayers) && forall u :: u in achievements ==> Distinct(achievements[u])
    }

    constructor ()
      ensures Valid()
      ensures achievements == map[] && allPlayers == [] && achievementCounts == map[]
    {
      achievements := map[];
      allPlayers := [];
      achievementCounts := map[];
    }

    /**
     * `/api/achievements/unlock`: a missing or empty id is refused; an id the user holds already
     * is answered as such; otherwise it is appended to the user's list, the user to the players,
     * the id's count goes up by one, and the rarity is answered.
     */
    method UnlockAchievement(current: Option<string>, achievementId: Option<string>)
      returns (r: Result<UnlockAnswer, ErrorCode>)
      requires Valid()
      modifies this
      ensures Valid()
      ensures r.Err? <==> achievementId.None? || achievementId.value == ""
      ensures r.Err? ==> r.error == InvalidInput
      ensures !r.Ok? || r.value == AlreadyUnlocked ==>
        achievements == old(achievements) && allPlayers == old(allPlayers) && achievementCounts == old(achievementCounts)
      ensures r.Ok? ==>
        var u := UsernameOr(current);
        var id := achievementId.value;
        var held := if u in old(achievements) then old(achievements)[u] else [];
        (r.value == AlreadyUnlocked <==> id in held) &&
        (r.value != AlreadyUnlocked ==>
          var count := NextCount(if id in old(achievementCounts) then Some(old(achievementCounts)[id]) else None);
          achievements == old(achievements)[u := held + [id]] &&
          allPlayers == AppendIfAbsent(old(allPlayers), u) &&
          achievementCounts == old(achievementCounts)[id := NumberText(count)] &&
          r.value.rarity == if count.Some? then Some(Rarity(count.value, |allPlayers|)) else None)
    {
      if achievementId.None? || achievementId.value == "" {
        return Err(InvalidInput);
      }
      var username := UsernameOr(current);
      var id := achievementId.value;
      var held := if username in achievements then achievements[username] else [];
      if id in held {
        return Ok(AlreadyUnlocked);
      }
      DistinctAppend(held, id);
      held := held + [id];
      achievements := achievements[username := held];
      if username !in allPlayers {
        DistinctAppend(allPlayers, username);
        allPlayers := allPlayers + [username];
      }
      var newCount := NextCount(if id in achievementCounts then Some(achievementCounts[id]) else None);
      achievementCounts := achievementCounts[id := NumberText(newCount)];
      r := Ok(Unlocked(if newCount.Some? then Some(Rarity(newCount.value, |allPlayers|)) else None));
    }
  }
}
