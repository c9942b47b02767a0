/** Character level from experience points, and the proficiency bonus that
    follows from the level (lib/characterParser.ts, `extractLevel` and the
    bonus computed in `extractSkills`). */
module Level {
  import opened Results
  import opened JsonValue

  /** `Thresholds[k]` is the least experience that grants level `k + 2`;
      below the first one the level is 1. */
  const Thresholds: seq<int> := [
    300, 900, 2700, 6500, 14000, 23000, 34000, 48000, 64000, 85000,
    100000, 120000, 140000, 165000, 195000, 225000, 265000, 305000, 355000]

  /** The level for an amount of experience: the cascade of `>=` tests from
      level 20 down. The contract pins the level between the threshold it has
      reached and the next one it has not. */
  function LevelForXp(xp: int): (level: int)
    ensures 1 <= level <= 20
    ensures level == 1 || Thresholds[level - 2] <= xp
    ensures level == 20 || xp < Thresholds[level - 1]
  {
    if xp >= 355000 then 20
    else if xp >= 305000 then 19
    else if xp >= 265000 then 18
    else if xp >= 225000 then 17
    else if xp >= 195000 then 16
    else if xp >= 165000 then 15
    else if xp >= 140000 then 14
    else if xp >= 120000 then 13
    else if xp >= 100000 then 12
    else if xp >= 85000 then 11
    else if xp >= 64000 then 10
    else if xp >= 48000 then 9
    else if xp >= 34000 then 8
    else if xp >= 23000 then 7
    else if xp >= 14000 then 6
    else if xp >= 6500 then 5
    else if xp >= 2700 then 4
    else if xp >= 900 then 3
    else if xp >= 300 then 2
    else 1
  }

  lemma ThresholdsAscending()
    ensures forall i, j :: 0 <= i < j < |Thresholds| ==> Thresholds[i] < Thresholds[j]
  {
    forall i | 0 <= i < |Thresholds| - 1
      ensures Thresholds[i] < Thresholds[i + 1]
    {
    }
    forall i, j | 0 <= i < j < |Thresholds|
      ensures Thresholds[i] < Thresholds[j]
    {
      var k := i;
      while k < j
        invariant i <= k <= j
        invariant Thresholds[i] <= Thresholds[k]
      {
        k := k + 1;
      }
    }
  }

  /** More experience never lowers the level. */
  lemma LevelMonotone(a: int, b: int)
    requires a <= b
    ensures LevelForXp(a) <= LevelForXp(b)
  {
    ThresholdsAscending();
  }

  /** Thresholds are inclusive: reaching one exactly grants its level, one
      point less does not. */
  lemma LevelAtThreshold(k: nat)
    requires k < |Thresholds|
    ensures LevelForXp(Thresholds[k]) == k + 2
    ensures LevelForXp(Thresholds[k] - 1) == k + 1
  {
    ThresholdsAscending();
  }

  /** `system.details.xp.value || 0`. */
  function ExperienceField(raw: Json): Json
  {
    Or(Get(Get(Get(Get(raw, "system"), "details"), "xp"), "value"), Num(0))
  }

  /** `extractLevel`: the cascade applied to the experience field. A value
      that does not coerce to a number fails every `>=` and gives level 1. */
  function ExtractLevel(raw: Json): (level: int)
    ensures 1 <= level <= 20
    ensures !Truthy(Get(Get(Get(Get(raw, "system"), "details"), "xp"), "value")) ==> level == 1
    ensures forall n :: Get(Get(Get(Get(raw, "system"), "details"), "xp"), "value") == Num(n) ==> level == LevelForXp(n)
  {
    match ToNumber(ExperienceField(raw))
    case None => 1
    case Some(xp) => LevelForXp(xp)
  }

  /** `Math.floor((level - 1) / 4) + 2`: 2 at levels 1 to 4, rising by one
      every four levels to 6 at levels 17 to 20. */
  function ProficiencyBonus(level: int): (pb: int)
    requires 1 <= level <= 20
    ensures 2 <= pb <= 6
    ensures 4 * (pb - 2) <= level - 1 < 4 * (pb - 1)
  {
    (level - 1) / 4 + 2
  }

  lemma ProficiencyBonusMonotone(a: int, b: int)
    requires 1 <= a <= b <= 20
    ensures ProficiencyBonus(a) <= ProficiencyBonus(b)
  {
  }
}
