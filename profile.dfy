/** Profile.jsx: the reporter level and the next points threshold shown on the profile page.
    Both are if-chains on the user's points over the same three cut points. */
module ProfileLevels {

  /** getNextLevelPoints */
  function NextLevelPoints(points: int): int
  {
    if points < 100 then 100
    else if points < 500 then 500
    else if points < 1000 then 1000
    else 2000
  }

  /** getLevel */
  function Level(points: int): string
  {
    if points < 100 then "Newbie Reporter"
    else if points < 500 then "Active Reporter"
    else if points < 1000 then "Expert Reporter"
    else "Traffic Hero"
  }

  /** The band the points fall in: 0 below 100, 1 below 500, 2 below 1000, 3 from 1000 on. */
  function Band(points: int): (b: nat)
    ensures b <= 3
    ensures b == 0 <==> points < 100
    ensures b == 1 <==> 100 <= points < 500
    ensures b == 2 <==> 500 <= points < 1000
    ensures b == 3 <==> 1000 <= points
  {
    if points < 100 then 0 else if points < 500 then 1 else if points < 1000 then 2 else 3
  }

  const Thresholds: seq<int> := [100, 500, 1000, 2000]
  const Levels: seq<string> := ["Newbie Reporter", "Active Reporter", "Expert Reporter", "Traffic Hero"]

  /** Both functions are read off the same band, so the level and the next threshold always
      agree: equal levels mean equal thresholds and the other way round. */
  lemma LevelAndThresholdAgree(p: int, q: int)
    ensures NextLevelPoints(p) == Thresholds[Band(p)]
    ensures Level(p) == Levels[Band(p)]
    ensures Level(p) == Level(q) <==> NextLevelPoints(p) == NextLevelPoints(q)
    ensures Level(p) == Level(q) <==> Band(p) == Band(q)
  {
    assert Levels[0] != Levels[1] && Levels[0] != Levels[2] && Levels[0] != Levels[3];
    assert Levels[1] != Levels[2] && Levels[1] != Levels[3] && Levels[2] != Levels[3];
  }

  /** Neither function goes down as points go up. */
  lemma LevelsAreMonotone(p: int, q: int)
    requires p <= q
    ensures Band(p) <= Band(q)
    ensures NextLevelPoints(p) <= NextLevelPoints(q)
  {
  }

  /** The "points needed" caption. */
  function PointsNeeded(points: int): int
  {
    NextLevelPoints(points) - points
  }

  /** Below 2000 points the caption shows a positive number, at most the width of the band;
      from 2000 on it shows zero or a negative number. Below 1000 the next threshold is the
      first cut point above the points. */
  lemma PointsNeededMeaning(points: int)
    ensures PointsNeeded(points) > 0 <==> points < 2000
    ensures 0 <= points < 1000 ==>
              && NextLevelPoints(points) > points
              && forall t :: t in Thresholds && t > points ==> NextLevelPoints(points) <= t
    ensures 0 <= points ==> PointsNeeded(points) <= 1000
  {
  }
}
