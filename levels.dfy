/**
 * User levels (python_api/models/user.py): six levels with a name and a points threshold each,
 * the threshold chain that turns a points total into a level, and the name lookup with its
 * fallback.
 */
module Levels {

  const MinLevel: int := 1
  const MaxLevel: int := 6

  /** LEVEL_POINTS: the points a user needs to reach each level. */
  const LevelPoints: map<int, int> := map[1 := 0, 2 := 100, 3 := 500, 4 := 2000, 5 := 5000, 6 := 10000]

  /** LEVEL_NAMES. */
  const LevelNames: map<int, string> :=
    map[1 := "方言新手", 2 := "方言学徒", 3 := "方言爱好者", 4 := "方言达人", 5 := "方言大师", 6 := "方言宗师"]

  const DefaultLevelName: string := "方言新手"

  predicate IsLevel(k: int) {
    MinLevel <= k <= MaxLevel
  }

  /** get_level_name: the dictionary lookup with the beginner's name as default. */
  function LevelName(level: int): (r: string)
    ensures IsLevel(level) ==> level in LevelNames && r == LevelNames[level]
    ensures !IsLevel(level) ==> r == DefaultLevelName
  {
    if level in LevelNames then LevelNames[level] else DefaultLevelName
  }

  /** calculate_level: the if/elif chain from the highest threshold down. */
  function CalculateLevel(points: int): (r: int)
    ensures IsLevel(r)
    ensures forall k :: 2 <= k <= 6 ==> k in LevelPoints && (r >= k <==> points >= LevelPoints[k])
  {
    if points >= 10000 then 6
    else if points >= 5000 then 5
    else if points >= 2000 then 4
    else if points >= 500 then 3
    else if points >= 100 then 2
    else 1
  }

  /** A larger total never gives a lower level. */
  lemma CalculateLevelMonotone(p: int, q: int)
    requires p <= q
    ensures CalculateLevel(p) <= CalculateLevel(q)
  {
    var k := CalculateLevel(p);
    if k >= 2 {
      assert p >= LevelPoints[k];
    }
  }

  /** Each threshold is exactly the least total of its level. */
  lemma CalculateLevelAtThreshold(k: int)
    requires IsLevel(k)
    ensures k in LevelPoints && CalculateLevel(LevelPoints[k]) == k
    ensures k >= 2 ==> CalculateLevel(LevelPoints[k] - 1) == k - 1
  {
  }

  /** The level a total reaches is the largest level whose threshold the total meets. */
  lemma CalculateLevelIsLargestMet(points: int)
    ensures var r := CalculateLevel(points);
      r in LevelPoints && (r == 1 || points >= LevelPoints[r])
      && forall k :: r < k <= 6 ==> k in LevelPoints && points < LevelPoints[k]
  {
  }
}
