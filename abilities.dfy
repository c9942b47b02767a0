/** Ability scores, skills and proficiencies (lib/characterParser.ts,
    `extractAbilityScores`, `calculateModifier`, `extractSkills` and
    `extractProficiencies`). */
module Abilities {
  import opened Results
  import opened JsonValue
  import opened Numerals
  import opened CharacterTypes
  import opened Level
  import Sequences

  /** The six ability keys, in the order the parser visits them. */
  const AbilityNames: seq<string> := ["str", "dex", "con", "int", "wis", "cha"]

  /** The eighteen skill keys, in the order the parser visits them. */
  const SkillKeys: seq<string> := [
    "acr", "ani", "arc", "ath", "dec", "his", "ins", "itm", "inv",
    "med", "nat", "prc", "prf", "per", "rel", "slt", "ste", "sur"]

  /** `calculateModifier`: `Math.floor((score - 10) / 2)` after the numeric
      coercion `-` applies; NaN (`None`) when the score is not a number. */
  function CalculateModifier(score: Json): (mod: Option<int>)
    ensures mod.None? <==> ToNumber(score).None?
    ensures mod.Some? ==> 2 * mod.value <= ToNumber(score).value - 10 < 2 * mod.value + 2
  {
    match ToNumber(score)
    case None => None
    case Some(n) => Some((n - 10) / 2)
  }

  /** The modifier rounds toward negative infinity. */
  lemma ModifierExamples()
    ensures CalculateModifier(Num(10)) == Some(0)
    ensures CalculateModifier(Num(9)) == Some(-1)
    ensures CalculateModifier(Num(1)) == Some(-5)
    ensures CalculateModifier(Num(20)) == Some(5)
  {
  }

  /** `system.abilities`. */
  function AbilitiesField(raw: Json): Json
  {
    Get(Get(raw, "system"), "abilities")
  }

  /** The score the parser builds from one truthy ability entry: `value ?? 10`,
      its modifier, and `proficient === 1`. */
  function ScoreOf(entry: Json): (score: AbilityScore)
    ensures score.mod == CalculateModifier(score.value)
    ensures !Get(entry, "value").IsNullish() ==> score.value == Get(entry, "value")
    ensures Get(entry, "value").IsNullish() ==> score.value == Num(10)
    ensures score.proficient <==> Get(entry, "proficient") == Num(1)
  {
    var value := Coalesce(Get(entry, "value"), Num(10));
    AbilityScore(value, CalculateModifier(value), StrictEquals(Get(entry, "proficient"), Num(1)))
  }

  /** The scores for the listed ability keys whose entry is truthy. */
  function ScoresFor(abilities: Json, names: seq<string>): map<string, AbilityScore>
  {
    map a | a in names && Truthy(Get(abilities, a)) :: ScoreOf(Get(abilities, a))
  }

  lemma ScoresForStep(abilities: Json, names: seq<string>, i: nat)
    requires i < |names|
    ensures ScoresFor(abilities, names[..i + 1]) ==
      if Truthy(Get(abilities, names[i])) then ScoresFor(abilities, names[..i])[names[i] := ScoreOf(Get(abilities, names[i]))]
      else ScoresFor(abilities, names[..i])
  {
    assert names[..i + 1] == names[..i] + [names[i]];
  }

  /** What `extractAbilityScores` returns: `undefined` when
      `system.abilities` is falsy or none of the six keys holds a truthy
      entry, otherwise exactly those keys, each with its score. */
  function AbilityScores(raw: Json): (r: Option<map<string, AbilityScore>>)
    ensures r.None? <==> !Truthy(AbilitiesField(raw)) || forall a :: a in AbilityNames ==> !Truthy(Get(AbilitiesField(raw), a))
    ensures r.Some? ==> forall a :: a in r.value <==> a in AbilityNames && Truthy(Get(AbilitiesField(raw), a))
    ensures r.Some? ==> forall a :: a in r.value ==> r.value[a] == ScoreOf(Get(AbilitiesField(raw), a))
  {
    var abilities := AbilitiesField(raw);
    if !Truthy(abilities) then None
    else
      var scores := ScoresFor(abilities, AbilityNames);
      if |scores| > 0 then Some(scores)
      else
        assert forall a :: a in AbilityNames && Truthy(Get(abilities, a)) ==> a in scores;
        None
  }

  /** `extractAbilityScores`: fills a fresh object key by key. */
  method ExtractAbilityScores(raw: Json) returns (r: Option<map<string, AbilityScore>>)
    ensures r == AbilityScores(raw)
  {
    var abilities := AbilitiesField(raw);
    if !Truthy(abilities) {
      return None;
    }
    var scores: map<string, AbilityScore> := map[];
    var i := 0;
    while i < |AbilityNames|
      invariant 0 <= i <= |AbilityNames|
      invariant scores == ScoresFor(abilities, AbilityNames[..i])
    {
      var ability := AbilityNames[i];
      var abilityData := Get(abilities, ability);
      if Truthy(abilityData) {
        var value := Coalesce(Get(abilityData, "value"), Num(10));
        scores := scores[ability := AbilityScore(value, CalculateModifier(value), StrictEquals(Get(abilityData, "proficient"), Num(1)))];
      }
      ScoresForStep(abilities, AbilityNames, i);
      i := i + 1;
    }
    assert AbilityNames[..i] == AbilityNames;
    r := if |scores| > 0 then Some(scores) else None;
  }

  /** An export restricted to abilities: a strength of 14
      flagged 1 is the only score, with modifier 2 and proficient. */
  lemma SingleAbilityExample(raw: Json)
    requires AbilitiesField(raw) == Obj([("str", Obj([("value", Num(14)), ("proficient", Num(1))]))])
    ensures AbilityScores(raw) == Some(map["str" := AbilityScore(Num(14), Some(2), true)])
  {
    var abilities := AbilitiesField(raw);
    var str := Obj([("value", Num(14)), ("proficient", Num(1))]);
    assert Get(abilities, "str") == str;
    assert ScoreOf(str) == AbilityScore(Num(14), Some(2), true);
    var r := AbilityScores(raw);
    assert r.Some?;
    forall a | a in r.value
      ensures a == "str"
    {
      assert Truthy(Get(abilities, a));
    }
    assert r.value == map["str" := ScoreOf(str)];
  }

  /** `abilityScores?.[ability]?.mod || 0`: the modifier of the named ability,
      0 when there are no scores, the key is not a string naming one of them,
      or its modifier is NaN. */
  function AbilityModFor(scores: Option<map<string, AbilityScore>>, ability: Json): int
  {
    if scores.Some? && ability.Str? && ability.s in scores.value then
      match scores.value[ability.s].mod
      case Some(m) => m
      case None => 0
    else 0
  }

  /** `parseInt(check)`, for the truthy values that reach it. */
  function ParseIntOf(check: Json): Option<int>
  {
    match check
    case Str(s) => ParseInt(s)
    case Num(n) => Some(n)
    case _ => None
  }

  /** `skillData.bonuses?.check ? parseInt(skillData.bonuses.check) || 0 : 0`. */
  function CheckBonus(skillData: Json): int
  {
    var check := Get(Get(skillData, "bonuses"), "check");
    if !Truthy(check) then 0
    else
      match ParseIntOf(check)
      case Some(n) => n
      case None => 0
  }

  /** The skill the parser builds from one truthy skill entry. The flag value
      1 sets `proficient`, 2 sets `expertise`; the two tests are exclusive, so
      the proficiency bonus is added once in either case. The parsed check
      bonus is stored but not added. */
  function SkillOf(skillData: Json, scores: Option<map<string, AbilityScore>>, level: int): (skill: Skill)
    requires 1 <= level <= 20
    ensures !(skill.proficient && skill.expertise)
    ensures skill.proficient <==> Get(skillData, "value") == Num(1)
    ensures skill.expertise <==> Get(skillData, "value") == Num(2)
    ensures skill.value == AbilityModFor(scores, skill.ability) +
      (if Get(skillData, "value") == Num(1) || Get(skillData, "value") == Num(2) then ProficiencyBonus(level) else 0)
    ensures IsOr(skill.ability, Get(skillData, "ability"), Str(""))
    ensures Truthy(skill.ability) || skill.ability == Str("")
    ensures skill.bonus == CheckBonus(skillData)
  {
    var ability := Or(Get(skillData, "ability"), Str(""));
    var abilityMod := AbilityModFor(scores, ability);
    var pb := ProficiencyBonus(level);
    var proficient := StrictEquals(Get(skillData, "value"), Num(1));
    var expertise := StrictEquals(Get(skillData, "value"), Num(2));
    Skill(abilityMod + (if proficient then pb else 0) + (if expertise then pb else 0),
          ability, proficient, expertise, CheckBonus(skillData))
  }

  /** Expertise gives the same total as plain proficiency: the bonus is not
      doubled. */
  lemma ExpertiseAddsBonusOnce(proficientData: Json, expertData: Json, scores: Option<map<string, AbilityScore>>, level: int)
    requires 1 <= level <= 20
    requires Get(proficientData, "value") == Num(1) && Get(expertData, "value") == Num(2)
    requires Get(proficientData, "ability") == Get(expertData, "ability")
    ensures SkillOf(expertData, scores, level).value == SkillOf(proficientData, scores, level).value
    ensures SkillOf(expertData, scores, level).expertise && !SkillOf(expertData, scores, level).proficient
  {
  }

  /** A skill entry without a governing ability gets no modifier from the
      scores: its total is the proficiency bonus, when it has one, or 0. */
  lemma MissingAbilityAddsNothing(raw: Json, skillData: Json, level: int)
    requires 1 <= level <= 20
    requires !Truthy(Get(skillData, "ability"))
    ensures SkillOf(skillData, AbilityScores(raw), level).value ==
      if Get(skillData, "value") == Num(1) || Get(skillData, "value") == Num(2) then ProficiencyBonus(level) else 0
  {
    var scores := AbilityScores(raw);
    assert "" !in AbilityNames;
    if scores.Some? {
      assert "" !in scores.value;
    }
  }

  /** Modifier +3, proficiency bonus 2 (level 1),
      proficient gives 5; the same skill with expertise also gives 5. */
  lemma SkillTotalExample(skillData: Json, scores: Option<map<string, AbilityScore>>)
    requires Get(skillData, "ability") == Str("dex")
    requires Get(skillData, "value") == Num(1) || Get(skillData, "value") == Num(2)
    requires scores.Some? && "dex" in scores.value && scores.value["dex"].mod == Some(3)
    ensures SkillOf(skillData, scores, 1).value == 5
  {
  }

  /** The skills for the listed keys whose entry is truthy. */
  function SkillsFor(skills: Json, scores: Option<map<string, AbilityScore>>, level: int, keys: seq<string>): map<string, Skill>
    requires 1 <= level <= 20
  {
    map k | k in keys && Truthy(Get(skills, k)) :: SkillOf(Get(skills, k), scores, level)
  }

  lemma SkillsForStep(skills: Json, scores: Option<map<string, AbilityScore>>, level: int, keys: seq<string>, i: nat)
    requires 1 <= level <= 20 && i < |keys|
    ensures SkillsFor(skills, scores, level, keys[..i + 1]) ==
      if Truthy(Get(skills, keys[i])) then SkillsFor(skills, scores, level, keys[..i])[keys[i] := SkillOf(Get(skills, keys[i]), scores, level)]
      else SkillsFor(skills, scores, level, keys[..i])
  {
    assert keys[..i + 1] == keys[..i] + [keys[i]];
  }

  /** `system.skills`. */
  function SkillsField(raw: Json): Json
  {
    Get(Get(raw, "system"), "skills")
  }

  /** What `extractSkills` returns: `undefined` when `system.skills` is falsy
      or no skill key holds a truthy entry; otherwise exactly those keys, each
      built against the ability scores and level of the same document. */
  function Skills(raw: Json): (r: Option<map<string, Skill>>)
    ensures r.None? <==> !Truthy(SkillsField(raw)) || forall k :: k in SkillKeys ==> !Truthy(Get(SkillsField(raw), k))
    ensures r.Some? ==> forall k :: k in r.value <==> k in SkillKeys && Truthy(Get(SkillsField(raw), k))
    ensures r.Some? ==> forall k :: k in r.value ==>
      r.value[k] == SkillOf(Get(SkillsField(raw), k), AbilityScores(raw), ExtractLevel(raw))
  {
    var skills := SkillsField(raw);
    if !Truthy(skills) then None
    else
      var m := SkillsFor(skills, AbilityScores(raw), ExtractLevel(raw), SkillKeys);
      if |m| > 0 then Some(m)
      else
        assert forall k :: k in SkillKeys && Truthy(Get(skills, k)) ==> k in m;
        None
  }

  /** `extractSkills`: fills a fresh object key by key, accumulating each
      total with `+=`. */
  method ExtractSkills(raw: Json) returns (r: Option<map<string, Skill>>)
    ensures r == Skills(raw)
  {
    var skills := SkillsField(raw);
    if !Truthy(skills) {
      return None;
    }
    var abilityScores := ExtractAbilityScores(raw);
    var skillsObj: map<string, Skill> := map[];
    var i := 0;
    while i < |SkillKeys|
      invariant 0 <= i <= |SkillKeys|
      invariant skillsObj == SkillsFor(skills, abilityScores, ExtractLevel(raw), SkillKeys[..i])
    {
      var skillKey := SkillKeys[i];
      var skillData := Get(skills, skillKey);
      if Truthy(skillData) {
        var skill := BuildSkill(skillData, abilityScores, ExtractLevel(raw));
        skillsObj := skillsObj[skillKey := skill];
      }
      SkillsForStep(skills, abilityScores, ExtractLevel(raw), SkillKeys, i);
      i := i + 1;
    }
    assert SkillKeys[..i] == SkillKeys;
    r := if |skillsObj| > 0 then Some(skillsObj) else None;
  }

  /** The body of the `forEach` in `extractSkills` for one truthy entry: the
      total starts at the ability modifier and the proficiency bonus is added
      with `+=` for each of the two flags that holds. */
  method BuildSkill(skillData: Json, abilityScores: Option<map<string, AbilityScore>>, level: int) returns (skill: Skill)
    requires 1 <= level <= 20
    ensures skill == SkillOf(skillData, abilityScores, level)
  {
    var ability := Or(Get(skillData, "ability"), Str(""));
    var abilityMod := AbilityModFor(abilityScores, ability);
    var proficiencyBonus := ProficiencyBonus(level);
    var proficient := StrictEquals(Get(skillData, "value"), Num(1));
    var expertise := StrictEquals(Get(skillData, "value"), Num(2));
    var total := abilityMod;
    if proficient {
      total := total + proficiencyBonus;
    }
    if expertise {
      total := total + proficiencyBonus;
    }
    skill := Skill(total, ability, proficient, expertise, CheckBonus(skillData));
  }

  /** `toUpperCase` on the ASCII letters; other characters are left as they
      are. */
  function UpperChar(c: char): char
  {
    if 'a' <= c <= 'z' then (c as int - 32) as char else c
  }

  function Upper(s: string): string
  {
    Sequences.Map(UpperChar, s)
  }

  /** `abilities[key].proficient === 1`, for the element `Object.keys` lists
      at position `i`. */
  predicate SaveProficient(abilities: Json, keys: seq<string>, i: nat)
    requires i < |keys|
  {
    StrictEquals(Get(Member(abilities, i, keys[i]), "proficient"), Num(1))
  }

  /** The upper-cased keys among the first `n` of `keys` whose ability is
      flagged 1; a `TypeError` when one of those abilities is nullish, since
      the filter reads `proficient` from each. */
  function SavesAmong(abilities: Json, keys: seq<string>, n: nat): (r: Result<seq<string>>)
    requires n <= |keys|
    ensures r.TypeError? <==> exists i :: 0 <= i < n && Member(abilities, i, keys[i]).IsNullish()
    ensures r.Ok? ==> forall s :: s in r.value <==>
      exists i :: 0 <= i < n && SaveProficient(abilities, keys, i) && s == Upper(keys[i])
    ensures r.Ok? ==> |r.value| <= n
  {
    if n == 0 then Ok([])
    else
      var before := SavesAmong(abilities, keys, n - 1);
      if before.TypeError? || Member(abilities, n - 1, keys[n - 1]).IsNullish() then TypeError
      else if SaveProficient(abilities, keys, n - 1) then Ok(before.value + [Upper(keys[n - 1])])
      else Ok(before.value)
  }

  /** `savingThrows`: `Object.keys(system.abilities || {})` filtered on
      `proficient === 1` and upper-cased. */
  function SavingThrows(raw: Json): (r: Result<seq<string>>)
    ensures !Truthy(AbilitiesField(raw)) ==> r == Ok([])
    ensures var abilities := Or(AbilitiesField(raw), Obj([]));
      var keys := ObjectKeys(abilities);
      && (r.TypeError? <==> exists i :: 0 <= i < |keys| && Member(abilities, i, keys[i]).IsNullish())
      && (r.Ok? ==> forall s :: s in r.value <==>
            exists i :: 0 <= i < |keys| && SaveProficient(abilities, keys, i) && s == Upper(keys[i]))
  {
    var abilities := Or(AbilitiesField(raw), Obj([]));
    var keys := ObjectKeys(abilities);
    SavesAmong(abilities, keys, |keys|)
  }

  /** An ability key whose entry is flagged 1 is listed, upper-cased. */
  lemma SavingThrowListed(raw: Json, ability: string)
    requires AbilitiesField(raw).Obj?
    requires ability in Sequences.Map(EntryKey, AbilitiesField(raw).entries)
    requires SavingThrows(raw).Ok?
    ensures Get(Get(AbilitiesField(raw), ability), "proficient") == Num(1) ==>
      Upper(ability) in SavingThrows(raw).value
  {
    var abilities := AbilitiesField(raw);
    assert Or(abilities, Obj([])) == abilities;
    var keys := ObjectKeys(abilities);
    var saves := SavesAmong(abilities, keys, |keys|);
    assert saves == SavingThrows(raw);
    assert ability in keys;
    var i :| 0 <= i < |keys| && keys[i] == ability;
    if Get(Get(abilities, ability), "proficient") == Num(1) {
      assert Member(abilities, i, keys[i]) == Get(abilities, ability);
      assert SaveProficient(abilities, keys, i);
    }
  }

  /** `system.traits || {}`. */
  function TraitsField(raw: Json): (traits: Json)
    ensures IsOr(traits, Get(Get(raw, "system"), "traits"), Obj([]))
  {
    Or(Get(Get(raw, "system"), "traits"), Obj([]))
  }

  /** `extractProficiencies`: the armour, weapon and language lists
      (`?.value || []`), an always-empty tool list, and the saving throws. */
  function ExtractProficiencies(raw: Json): (r: Result<Proficiencies>)
    ensures r.TypeError? <==> SavingThrows(raw).TypeError?
    ensures r.Ok? ==> r.value.tools == [] && r.value.savingThrows == SavingThrows(raw).value
    ensures r.Ok? ==> IsOr(r.value.armor, Get(Get(TraitsField(raw), "armorProf"), "value"), Arr([]))
    ensures r.Ok? ==> IsOr(r.value.weapons, Get(Get(TraitsField(raw), "weaponProf"), "value"), Arr([]))
    ensures r.Ok? ==> IsOr(r.value.languages, Get(Get(TraitsField(raw), "languages"), "value"), Arr([]))
    ensures r.Ok? ==> r.value.armor.Arr? || Truthy(r.value.armor)
  {
    var traits := TraitsField(raw);
    var saves :- SavingThrows(raw);
    Ok(Proficiencies(
      Or(Get(Get(traits, "armorProf"), "value"), Arr([])),
      Or(Get(Get(traits, "weaponProf"), "value"), Arr([])),
      [],
      Or(Get(Get(traits, "languages"), "value"), Arr([])),
      saves))
  }
}
