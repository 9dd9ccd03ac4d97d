/**
 * The achievement hook: which table entries a finished game earns, and the hook state that
 * remembers the unlocked ids and the list of newly unlocked entries.
 */
module UseAchievements {
  import opened Wrappers
  import opened Shuffling
  import opened Achievements

  /** The statistics a check reads (the other fields of the extended stats record are ignored). */
  datatype ExtendedStats = ExtendedStats(
    score: int, rounds: int, combo: int, accuracy: real, playTime: real,
    streak: Option<int>, dailyRank: Option<int>)

  /** Whether an entry's condition holds for `st`, case by case as the `switch` on the category. */
  predicate Qualifies(a: Achievement, st: ExtendedStats) {
    var c := a.condition;
    match a.category
    case Speed =>
      Truthy(c.matches) && Truthy(c.time) && st.rounds >= c.matches.value && st.playTime <= c.time.value as real
    case Combo =>
      Truthy(c.combo) && st.combo >= c.combo.value
    case Accuracy =>
      Truthy(c.accuracy) && Truthy(c.rounds) && st.accuracy >= c.accuracy.value as real && st.rounds >= c.rounds.value
    case Score =>
      Truthy(c.score) && st.score >= c.score.value
    case Participation =>
      Truthy(c.streak) && Truthy(st.streak) && st.streak.value >= c.streak.value
    case Daily =>
      Truthy(c.dailyRank) && st.dailyRank == Some(c.dailyRank.value)
  }

  /** The entry is still locked and its condition holds. */
  function Earns(unlocked: set<string>, st: ExtendedStats): Achievement -> bool {
    (a: Achievement) => a.id !in unlocked && Qualifies(a, st)
  }

  /** What `checkAchievements` returns for the table `table`: its locked entries that qualify, in order. */
  function Earned(table: seq<Achievement>, unlocked: set<string>, st: ExtendedStats): seq<Achievement> {
    if table == [] then []
    else (if table[0].id !in unlocked && Qualifies(table[0], st) then [table[0]] else []) + Earned(table[1..], unlocked, st)
  }

  /** `Earned` is the `filter` of the table on `Earns`. */
  lemma {:induction false} EarnedIsFilter(table: seq<Achievement>, unlocked: set<string>, st: ExtendedStats)
    ensures Earned(table, unlocked, st) == Select(table, Earns(unlocked, st))
  {
    if table != [] {
      EarnedIsFilter(table[1..], unlocked, st);
    }
  }

  /** An entry is earned exactly when it is in the table, still locked, and its condition holds. */
  lemma EarnedMembers(table: seq<Achievement>, unlocked: set<string>, st: ExtendedStats)
    ensures forall a :: a in Earned(table, unlocked, st) <==> a in table && a.id !in unlocked && Qualifies(a, st)
  {
    EarnedIsFilter(table, unlocked, st);
  }

  /** `Earned` over `table[i..]` takes `table[i]` when it is locked and qualifies, then goes on after it. */
  lemma EarnedStep(table: seq<Achievement>, i: nat, unlocked: set<string>, st: ExtendedStats)
    requires i < |table|
    ensures Earned(table[i..], unlocked, st) ==
      (if table[i].id !in unlocked && Qualifies(table[i], st) then [table[i]] else []) + Earned(table[i + 1..], unlocked, st)
  {
    assert table[i..][1..] == table[i + 1..];
  }

  /** The `switch` on the category of one entry: whether its condition holds for `st`. */
  method CheckCondition(achievement: Achievement, st: ExtendedStats) returns (unlocked: bool)
    ensures unlocked == Qualifies(achievement, st)
  {
    unlocked := false;
    var c := achievement.condition;
    match achievement.category {
      case Speed =>
        if Truthy(c.matches) && Truthy(c.time) && st.rounds >= c.matches.value && st.playTime <= c.time.value as real {
          unlocked := true;
        }
      case Combo =>
        if Truthy(c.combo) && st.combo >= c.combo.value {
          unlocked := true;
        }
      case Accuracy =>
        if Truthy(c.accuracy) && Truthy(c.rounds) && st.accuracy >= c.accuracy.value as real && st.rounds >= c.rounds.value {
          unlocked := true;
        }
      case Score =>
        if Truthy(c.score) && st.score >= c.score.value {
          unlocked := true;
        }
      case Participation =>
        if Truthy(c.streak) && Truthy(st.streak) && st.streak.value >= c.streak.value {
          unlocked := true;
        }
      case Daily =>
        if Truthy(c.dailyRank) && st.dailyRank == Some(c.dailyRank.value) {
          unlocked := true;
        }
    }
  }

  /**
   * The loop of `checkAchievements` over any table: skip entries already unlocked, evaluate the
   * condition of the entry's category into the `unlocked` flag, and push the entry when it is set.
   */
  method CheckTable(table: seq<Achievement>, unlockedIds: set<string>, st: ExtendedStats)
    returns (newAchievements: seq<Achievement>)
    ensures newAchievements == Earned(table, unlockedIds, st)
  {
    newAchievements := [];
    var i := 0;
    while i < |table|
      invariant 0 <= i <= |table|
      invariant newAchievements + Earned(table[i..], unlockedIds, st) == Earned(table, unlockedIds, st)
    {
      var achievement := table[i];
      ghost var rest := Earned(table[i + 1..], unlockedIds, st);
      EarnedStep(table, i, unlockedIds, st);
      if achievement.id in unlockedIds {
        assert [] + rest == rest;
        i := i + 1;
        continue;
      }
      var unlocked := CheckCondition(achievement, st);
      if unlocked {
        assert newAchievements + [achievement] + rest == newAchievements + ([achievement] + rest);
        newAchievements := newAchievements + [achievement];
      } else {
        assert [] + rest == rest;
      }
      i := i + 1;
    }
    assert table[|table|..] == [];
  }

  /** The result is drawn from the table in table order, without repeats and without unlocked ids. */
  lemma EarnedShape(unlocked: set<string>, st: ExtendedStats)
    ensures var r := Earned(ACHIEVEMENTS, unlocked, st);
      IsSubsequence(r, ACHIEVEMENTS) && Distinct(r) &&
      forall a :: a in r ==> a.id !in unlocked
  {
    EarnedIsFilter(ACHIEVEMENTS, unlocked, st);
    SelectInOrder(ACHIEVEMENTS, Earns(unlocked, st));
    IdsDistinct();
    DistinctById(ACHIEVEMENTS);
    SelectDistinct(ACHIEVEMENTS, Earns(unlocked, st));
  }

  /** A present threshold, 0 for an absent one. */
  function Threshold(n: Option<int>): int {
    if n.Some? then n.value else 0
  }

  /** The game reached the thresholds of the entry's category, absent ones counting as 0. */
  predicate MeetsThresholds(a: Achievement, st: ExtendedStats) {
    var c := a.condition;
    match a.category
    case Speed => st.rounds >= Threshold(c.matches) && st.playTime <= Threshold(c.time) as real
    case Combo => st.combo >= Threshold(c.combo)
    case Accuracy => st.accuracy >= Threshold(c.accuracy) as real && st.rounds >= Threshold(c.rounds)
    case Score => st.score >= Threshold(c.score)
    case Participation => Truthy(st.streak) && st.streak.value >= Threshold(c.streak)
    case Daily => st.dailyRank == Some(Threshold(c.dailyRank))
  }

  /** A locked entry whose thresholds are all present and non-zero is earned exactly when they are reached. */
  lemma EarnedByThresholds(table: seq<Achievement>, a: Achievement, unlocked: set<string>, st: ExtendedStats)
    requires a in table && a.id !in unlocked && HasFieldsOfCategory(a)
    ensures a in Earned(table, unlocked, st) <==> MeetsThresholds(a, st)
  {
    EarnedMembers(table, unlocked, st);
  }

  /**
   * On the shipped table every threshold is present and non-zero, so a locked entry is earned
   * exactly when the game reached its thresholds.
   */
  lemma EarnedOnTable(a: Achievement, unlocked: set<string>, st: ExtendedStats)
    requires a in ACHIEVEMENTS && a.id !in unlocked
    ensures a in Earned(ACHIEVEMENTS, unlocked, st) <==> MeetsThresholds(a, st)
  {
    TableFieldsMatchCategories();
    EarnedByThresholds(ACHIEVEMENTS, a, unlocked, st);
  }

  /** Once the returned ids count as unlocked, the same statistics earn no entry again. */
  lemma CheckTwiceEarnsNothing(table: seq<Achievement>, unlocked: set<string>, st: ExtendedStats, more: set<string>)
    requires forall e :: e in Earned(table, unlocked, st) ==> e.id in more
    ensures forall a :: a !in Earned(table, unlocked + more, st)
  {
    EarnedMembers(table, unlocked, st);
    EarnedMembers(table, unlocked + more, st);
  }

  /** The hook's state: the ids already unlocked and the entries unlocked since the last clear. */
  class AchievementTracker {
    var unlockedIds: set<string>
    var newlyUnlocked: seq<Achievement>

    constructor ()
      ensures unlockedIds == {} && newlyUnlocked == []
    {
      unlockedIds := {};
      newlyUnlocked := [];
    }

    /** `checkAchievements`: the entries earned now, appended to `newlyUnlocked` when there are any. */
    method CheckAchievements(st: ExtendedStats) returns (newAchievements: seq<Achievement>)
      modifies this
      ensures newAchievements == Earned(ACHIEVEMENTS, old(unlockedIds), st)
      ensures newlyUnlocked == old(newlyUnlocked) + newAchievements
      ensures unlockedIds == old(unlockedIds)
    {
      newAchievements := CheckTable(ACHIEVEMENTS, unlockedIds, st);
      if |newAchievements| > 0 {
        newlyUnlocked := newlyUnlocked + newAchievements;
      }
    }

    /** `clearNewlyUnlocked`. */
    method ClearNewlyUnlocked()
      modifies this
      ensures newlyUnlocked == [] && unlockedIds == old(unlockedIds)
    {
      newlyUnlocked := [];
    }
  }
}
