/** The achievement table and its two lookups. */
module Achievements {
  import opened Wrappers
  import opened Shuffling

  datatype Category = Speed | Combo | Accuracy | Score | Participation | Daily

  datatype Tier = Bronze | Silver | Gold | Platinum

  /** The optional thresholds of an entry; an absent field is `None`. */
  datatype Condition = Condition(
    matches: Option<int>, time: Option<int>, combo: Option<int>, accuracy: Option<int>,
    rounds: Option<int>, score: Option<int>, streak: Option<int>, dailyRank: Option<int>)

  datatype Achievement = Achievement(
    id: string, name: string, description: string, icon: string,
    category: Category, tier: Tier, condition: Condition)

  const NO_CONDITION: Condition := Condition(None, None, None, None, None, None, None, None)

  const ACHIEVEMENTS: seq<Achievement> := [
    Achievement("speed_demon", "Speed Demon", "10 matches in 20 seconds", "\U{26A1}",
      Speed, Silver, NO_CONDITION.(matches := Some(10), time := Some(20))),
    Achievement("lightning_fast", "Lightning Fast", "15 matches in 25 seconds", "\U{26A1}\U{26A1}",
      Speed, Gold, NO_CONDITION.(matches := Some(15), time := Some(25))),
    Achievement("combo_starter", "Combo Starter", "Reach 5x combo", "\U{1F525}",
      Combo, Bronze, NO_CONDITION.(combo := Some(5))),
    Achievement("combo_master", "Combo Master", "Reach 10x combo", "\U{1F525}\U{1F525}",
      Combo, Silver, NO_CONDITION.(combo := Some(10))),
    Achievement("combo_legend", "Combo Legend", "Reach 20x combo", "\U{1F525}\U{1F525}\U{1F525}",
      Combo, Gold, NO_CONDITION.(combo := Some(20))),
    Achievement("combo_god", "Combo God", "Reach 30x combo", "\U{1F451}",
      Combo, Platinum, NO_CONDITION.(combo := Some(30))),
    Achievement("sharp_eye", "Sharp Eye", "90% accuracy for 10 rounds", "\U{1F441}\U{FE0F}",
      Accuracy, Silver, NO_CONDITION.(accuracy := Some(90), rounds := Some(10))),
    Achievement("perfect_vision", "Perfect Vision", "100% accuracy for 5 rounds", "\U{1F48E}",
      Accuracy, Gold, NO_CONDITION.(accuracy := Some(100), rounds := Some(5))),
    Achievement("rising_star", "Rising Star", "Score 500 points", "\U{2B50}",
      Score, Bronze, NO_CONDITION.(score := Some(500))),
    Achievement("high_scorer", "High Scorer", "Score 1000 points", "\U{2B50}\U{2B50}",
      Score, Silver, NO_CONDITION.(score := Some(1000))),
    Achievement("elite_player", "Elite Player", "Score 2000 points", "\U{2B50}\U{2B50}\U{2B50}",
      Score, Gold, NO_CONDITION.(score := Some(2000))),
    Achievement("dedicated", "Dedicated", "Play 3 days in a row", "\U{1F4C5}",
      Participation, Bronze, NO_CONDITION.(streak := Some(3))),
    Achievement("committed", "Committed", "Play 7 days in a row", "\U{1F4C5}\U{1F4C5}",
      Participation, Silver, NO_CONDITION.(streak := Some(7))),
    Achievement("legendary", "Legendary", "Play 30 days in a row", "\U{1F451}",
      Participation, Platinum, NO_CONDITION.(streak := Some(30)))
  ]

  function Ids(table: seq<Achievement>): (ids: seq<string>)
    ensures |ids| == |table|
    ensures forall i :: 0 <= i < |table| ==> ids[i] == table[i].id
  {
    seq(|table|, i requires 0 <= i < |table| => table[i].id)
  }

  /** The table has fourteen entries. */
  lemma TableSize()
    ensures |ACHIEVEMENTS| == 14
  {
  }

  /**
   * The position of an id in the table, read off its first and seventh characters, which no two
   * ids share; -1 for any other pair.
   */
  function IdPosition(id: string): int {
    if |id| < 7 then -1
    else
      match (id[0], id[6])
      case ('s', 'd') => 0
      case ('l', 'i') => 1
      case ('c', 's') => 2
      case ('c', 'm') => 3
      case ('c', 'l') => 4
      case ('c', 'g') => 5
      case ('s', 'e') => 6
      case ('p', 't') => 7
      case ('r', '_') => 8
      case ('h', 'c') => 9
      case ('e', 'p') => 10
      case ('d', 't') => 11
      case ('c', 't') => 12
      case ('l', 'a') => 13
      case _ => -1
  }

  /** No two entries of the table share an id. */
  lemma IdsDistinct()
    ensures Distinct(Ids(ACHIEVEMENTS))
  {
    var ids := Ids(ACHIEVEMENTS);
    forall k | 0 <= k < |ids| ensures IdPosition(ids[k]) == k {
    }
  }

  /** JavaScript truthiness of an optional number: present and non-zero. */
  predicate Truthy(n: Option<int>) {
    n.Some? && n.value != 0
  }

  /** The fields an entry of each category is checked on. */
  predicate HasFieldsOfCategory(a: Achievement) {
    match a.category
    case Speed => Truthy(a.condition.matches) && Truthy(a.condition.time)
    case Combo => Truthy(a.condition.combo)
    case Accuracy => Truthy(a.condition.accuracy) && Truthy(a.condition.rounds)
    case Score => Truthy(a.condition.score)
    case Participation => Truthy(a.condition.streak)
    case Daily => Truthy(a.condition.dailyRank)
  }

  /** Every entry of the table carries the thresholds its category is checked on. */
  lemma TableFieldsMatchCategories()
    ensures forall a :: a in ACHIEVEMENTS ==> HasFieldsOfCategory(a)
  {
    var table := ACHIEVEMENTS;
    forall k | 0 <= k < |table| ensures HasFieldsOfCategory(table[k]) {
    }
  }

  /** `find` on the id: the first entry with that id, if any. */
  function FindById(table: seq<Achievement>, id: string): (r: Option<Achievement>)
    ensures r.Some? ==> r.value in table && r.value.id == id
    ensures r.None? <==> forall a :: a in table ==> a.id != id
  {
    if table == [] then None
    else if table[0].id == id then Some(table[0])
    else FindById(table[1..], id)
  }

  /** `getAchievementById`. */
  function GetAchievementById(id: string): (r: Option<Achievement>)
    ensures r.Some? ==> r.value in ACHIEVEMENTS && r.value.id == id
    ensures r.None? <==> forall a :: a in ACHIEVEMENTS ==> a.id != id
  {
    FindById(ACHIEVEMENTS, id)
  }

  /** Ids are unique, so a lookup by the id of an entry finds that very entry. */
  lemma {:induction false} FindByIdOfEntry(table: seq<Achievement>, i: nat)
    requires i < |table| && Distinct(Ids(table))
    ensures FindById(table, table[i].id) == Some(table[i])
    decreases i
  {
    if i > 0 {
      assert Ids(table)[0] != Ids(table)[i];
      assert Ids(table[1..]) == Ids(table)[1..];
      FindByIdOfEntry(table[1..], i - 1);
    }
  }

  /** `filter`: the entries of `s` satisfying `p`, in order. */
  function Select(s: seq<Achievement>, p: Achievement -> bool): (r: seq<Achievement>)
    ensures forall x :: x in r <==> x in s && p(x)
    ensures |r| <= |s|
  {
    if s == [] then []
    else if p(s[0]) then [s[0]] + Select(s[1..], p)
    else Select(s[1..], p)
  }

  lemma {:induction false} SelectInOrder(s: seq<Achievement>, p: Achievement -> bool)
    ensures IsSubsequence(Select(s, p), s)
    decreases |s|
  {
    if s != [] {
      SelectInOrder(s[1..], p);
      if p(s[0]) {
        assert Select(s, p)[1..] == Select(s[1..], p);
      }
    }
  }

  lemma {:induction false} SelectDistinct(s: seq<Achievement>, p: Achievement -> bool)
    requires Distinct(s)
    ensures Distinct(Select(s, p))
    decreases |s|
  {
    if s != [] {
      assert Distinct(s[1..]);
      SelectDistinct(s[1..], p);
      if p(s[0]) {
        var r := Select(s, p);
        assert s[0] !in s[1..];
        forall i, j | 0 <= i < j < |r| ensures r[i] != r[j] {
          assert r[j] == Select(s[1..], p)[j - 1];
          if i > 0 {
            assert r[i] == Select(s[1..], p)[i - 1];
          }
        }
      }
    }
  }

  /** Entries with pairwise-distinct ids are themselves pairwise distinct. */
  lemma DistinctById(table: seq<Achievement>)
    requires Distinct(Ids(table))
    ensures Distinct(table)
  {
    forall i, j | 0 <= i < j < |table| ensures table[i] != table[j] {
      assert Ids(table)[i] != Ids(table)[j];
    }
  }

  function InCategory(c: Category): Achievement -> bool {
    (a: Achievement) => a.category == c
  }

  /** `getAchievementsByCategory`: exactly the entries of category `c`. */
  function GetAchievementsByCategory(c: Category): (r: seq<Achievement>)
    ensures forall a :: a in r <==> a in ACHIEVEMENTS && a.category == c
  {
    Select(ACHIEVEMENTS, InCategory(c))
  }

  /** The lookup by category takes table entries in table order, each at most once. */
  lemma ByCategoryInTableOrder(c: Category)
    ensures IsSubsequence(GetAchievementsByCategory(c), ACHIEVEMENTS)
    ensures Distinct(GetAchievementsByCategory(c))
  {
    SelectInOrder(ACHIEVEMENTS, InCategory(c));
    IdsDistinct();
    DistinctById(ACHIEVEMENTS);
    SelectDistinct(ACHIEVEMENTS, InCategory(c));
  }
}
