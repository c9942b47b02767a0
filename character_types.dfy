/** The normalised character record the parser produces (the output shapes of
    `types/character.ts`). A field the parser copies from the document without
    converting it keeps the document's value, so it is a `Json`; a field the
    parser computes has the type it computes. */
module CharacterTypes {
  import opened Results
  import opened JsonValue

  /** `mod` is `None` when the score does not coerce to a number (NaN). */
  datatype AbilityScore = AbilityScore(value: Json, mod: Option<int>, proficient: bool)

  /** `value` is the skill total; `bonus` is the parsed `bonuses.check`,
      carried beside the total but not part of it. */
  datatype Skill = Skill(value: int, ability: Json, proficient: bool, expertise: bool, bonus: int)

  datatype Components = Components(verbal: Json, somatic: Json, material: Json, materials: Json)

  datatype Spell = Spell(
    name: Json,
    level: Json,
    school: Json,
    prepared: Json,
    ritual: Json,
    description: Json,
    components: Components,
    range: Json,
    duration: Json,
    castingTime: Json,
    concentration: Json)

  datatype SpellSlot = SpellSlot(level: int, value: Json, max: Json)

  datatype Item = Item(
    name: Json,
    itemType: Json,
    quantity: Json,
    weight: Json,
    description: Json,
    equipped: Json,
    attunement: bool,
    rarity: Json,
    properties: Json,
    containerId: Json)

  datatype Container = Container(id: Json, name: Json)

  datatype Feature = Feature(name: Json, description: Json)

  datatype HitPoints = HitPoints(value: Json, max: Json, temp: Json)

  /** `tools` is always empty: the parser never fills it. */
  datatype Proficiencies = Proficiencies(
    armor: Json,
    weapons: Json,
    tools: seq<string>,
    languages: Json,
    savingThrows: seq<string>)

  datatype CharacterData = CharacterData(
    name: Json,
    level: int,
    race: Json,
    characterClass: Json,
    background: Json,
    alignment: Json,
    hp: Option<HitPoints>,
    ac: Json,
    speed: Json,
    abilityScores: Option<map<string, AbilityScore>>,
    skills: Option<map<string, Skill>>,
    spells: seq<Spell>,
    spellSlots: seq<SpellSlot>,
    items: seq<Item>,
    containers: seq<Container>,
    proficiencies: Proficiencies,
    features: seq<Feature>,
    traits: seq<Feature>)
}
