/** `parseCharacterData` (lib/characterParser.ts): one extractor per field of
    the normalised record. The extractors read the document through optional
    chaining and defaults, so the parse only fails where the code reads a
    property of `null`/`undefined` or calls an array method on a non-array. */
module CharacterParser {
  import opened Results
  import opened JsonValue
  import opened CharacterTypes
  import opened Level
  import opened SourceItems
  import opened Descriptors
  import opened Abilities
  import opened SpellExtraction
  import opened ItemExtraction
  import Sequences

  /** The record `parseCharacterData` returns, or the `TypeError` the first
      throwing extractor raises. A nullish document fails at once, on
      `data.name`. */
  function Parse(raw: Json): (r: Result<CharacterData>)
    ensures r.Ok? ==> 1 <= r.value.level <= 20 && r.value.level == ExtractLevel(raw)
    ensures r.Ok? ==> r.value.traits == [] && r.value.proficiencies.tools == []
    ensures r.Ok? ==> r.value.abilityScores == AbilityScores(raw) && r.value.skills == Skills(raw)
    ensures r.Ok? ==> r.value.spellSlots == SpellSlots(raw)
    ensures r.Ok? ==> Truthy(r.value.name) || r.value.name == Str("")
    ensures r.Ok? ==> r.value.name == ExtractName(raw) && r.value.alignment == ExtractAlignment(raw)
    ensures r.Ok? ==> r.value.hp == ExtractHP(raw) && r.value.ac == ExtractAC(raw) && r.value.speed == ExtractSpeed(raw)
    ensures r.Ok? ==> ExtractRace(raw) == Ok(r.value.race) && ExtractClass(raw) == Ok(r.value.characterClass) &&
                      ExtractBackground(raw) == Ok(r.value.background)
    ensures r.Ok? ==> Spells(raw) == Ok(r.value.spells) && Items(raw) == Ok(r.value.items) &&
                      Containers(raw) == Ok(r.value.containers) && Features(raw) == Ok(r.value.features)
    ensures r.Ok? ==> ExtractProficiencies(raw) == Ok(r.value.proficiencies)
  {
    if raw.IsNullish() then TypeError
    else
      var race :- ExtractRace(raw);
      var characterClass :- ExtractClass(raw);
      var background :- ExtractBackground(raw);
      var spells :- Spells(raw);
      var items :- Items(raw);
      // `extractContainers` throws exactly where `extractItems` did, and
      // `extractFeatures` exactly where `extractSpells` did.
      var containers := Containers(raw).value;
      var proficiencies :- ExtractProficiencies(raw);
      var features := Features(raw).value;
      Ok(CharacterData(
        ExtractName(raw),
        ExtractLevel(raw),
        race,
        characterClass,
        background,
        ExtractAlignment(raw),
        ExtractHP(raw),
        ExtractAC(raw),
        ExtractSpeed(raw),
        AbilityScores(raw),
        Skills(raw),
        spells,
        SpellSlots(raw),
        items,
        containers,
        proficiencies,
        features,
        Traits(raw)))
  }

  /** `items` is truthy but cannot be scanned: it is not an array, or it
      holds a nullish element that a callback reads a property of. */
  predicate UnscannableItems(raw: Json)
  {
    && Truthy(Get(raw, "items"))
    && (!Get(raw, "items").Arr? || !NoNullish(Get(raw, "items").elems))
  }

  /** The parse fails exactly when the document is nullish, its `items`
      cannot be scanned, or the saving-throw filter meets a nullish ability
      entry; every other document, however sparse, is normalised. */
  lemma ParseFailsExactly(raw: Json)
    ensures Parse(raw).TypeError? <==>
      raw.IsNullish() || UnscannableItems(raw) || SavingThrows(raw).TypeError?
  {
    if raw.IsNullish() {
    } else if UnscannableItems(raw) {
      UnscannableFails(raw);
    } else {
      ScannableFailsOnSaves(raw);
    }
  }

  /** Unscannable `items` make the parse throw, whichever extractor meets
      them first. */
  lemma UnscannableFails(raw: Json)
    requires UnscannableItems(raw)
    ensures Parse(raw).TypeError?
  {
    if !raw.IsNullish() && ExtractRace(raw).Ok? && ExtractClass(raw).Ok? && ExtractBackground(raw).Ok? {
      UnscannableSpells(raw);
    }
  }

  /** With scannable `items`, only the saving-throw filter can throw. */
  lemma ScannableFailsOnSaves(raw: Json)
    requires !raw.IsNullish() && !UnscannableItems(raw)
    ensures Parse(raw).TypeError? <==> SavingThrows(raw).TypeError?
  {
    DescriptorsFound(raw);
    ScansSucceed(raw);
  }

  /** Unscannable `items` make the spell filter throw. */
  lemma UnscannableSpells(raw: Json)
    requires UnscannableItems(raw)
    ensures Spells(raw).TypeError?
  {
    assert ItemsOrEmpty(raw) == Get(raw, "items");
  }

  /** Scannable `items` let the three descriptor lookups finish. */
  lemma DescriptorsFound(raw: Json)
    requires !UnscannableItems(raw)
    ensures ExtractRace(raw).Ok? && ExtractClass(raw).Ok? && ExtractBackground(raw).Ok?
  {
    var items := Get(raw, "items");
    if Truthy(items) {
      FindWithoutNullish(items.elems, Get(Details(raw), "race"), "race");
      FindWithoutNullish(items.elems, Get(Details(raw), "originalClass"), "class");
      FindWithoutNullish(items.elems, Get(Details(raw), "background"), "background");
    }
  }

  /** Scannable `items` let the spell filter and the item scan finish. */
  lemma ScansSucceed(raw: Json)
    requires !UnscannableItems(raw)
    ensures Spells(raw).Ok? && Items(raw).Ok?
  {
    var items := Get(raw, "items");
    if Truthy(items) {
      assert ItemsOrEmpty(raw) == items;
      NoNullAt(items.elems);
    }
  }

  /** A scan over elements that are all non-nullish never throws. */
  lemma FindWithoutNullish(elems: seq<Json>, id: Json, category: string)
    requires NoNullish(elems)
    ensures Find(elems, id, category).Ok?
  {
  }

  /** `parseCharacterData`: each field assigned in turn from its extractor. */
  method ParseCharacterData(raw: Json) returns (r: Result<CharacterData>)
    ensures r == Parse(raw)
  {
    if raw.IsNullish() {
      return TypeError;
    }
    var name := ExtractName(raw);
    var level := ExtractLevel(raw);
    var race := ExtractRace(raw);
    if race.TypeError? {
      return TypeError;
    }
    var characterClass := ExtractClass(raw);
    if characterClass.TypeError? {
      return TypeError;
    }
    var background := ExtractBackground(raw);
    if background.TypeError? {
      return TypeError;
    }
    var alignment := ExtractAlignment(raw);
    var hp := ExtractHP(raw);
    var ac := ExtractAC(raw);
    var speed := ExtractSpeed(raw);
    var abilityScores := ExtractAbilityScores(raw);
    var skills := ExtractSkills(raw);
    var spells := ExtractSpells(raw);
    if spells.TypeError? {
      return TypeError;
    }
    var spellSlots := ExtractSpellSlots(raw);
    var items := ExtractItems(raw);
    if items.TypeError? {
      return TypeError;
    }
    var containers := ExtractContainers(raw);
    if containers.TypeError? {
      return TypeError;
    }
    var proficiencies := ExtractProficiencies(raw);
    if proficiencies.TypeError? {
      return TypeError;
    }
    var features := ExtractFeatures(raw);
    if features.TypeError? {
      return TypeError;
    }
    var traits := Traits(raw);
    r := Ok(CharacterData(
      name, level, race.value, characterClass.value, background.value, alignment,
      hp, ac, speed, abilityScores, skills, spells.value, spellSlots, items.value,
      containers.value, proficiencies.value, features.value, traits));
  }

  /** A small export: a character named Aria with 900 experience points, a
      proficient strength of 14 and an empty item list. */
  function AriaDocument(): Json
  {
    Obj([
      ("name", Str("Aria")),
      ("system", Obj([
        ("details", Obj([("xp", Obj([("value", Num(900))]))])),
        ("abilities", Obj([("str", Obj([("value", Num(14)), ("proficient", Num(1))]))]))])),
      ("items", Arr([]))])
  }

  lemma UpperStr()
    ensures Upper("str") == "STR"
  {
    var upper := Upper("str");
    assert upper[0] == UpperChar('s') == 'S';
    assert upper[1] == UpperChar('t') == 'T';
    assert upper[2] == UpperChar('r') == 'R';
  }

  lemma AriaName()
    ensures ExtractName(AriaDocument()) == Str("Aria")
  {
    var entries := AriaDocument().entries;
    LookupLastWins(entries, "name", 0);
  }

  lemma AriaSavingThrows()
    ensures SavingThrows(AriaDocument()) == Ok(["STR"])
  {
    var raw := AriaDocument();
    var abilities := Or(AbilitiesField(raw), Obj([]));
    assert abilities == Obj([("str", Obj([("value", Num(14)), ("proficient", Num(1))]))]);
    assert Sequences.Map(EntryKey, abilities.entries) == ["str"];
    assert Sequences.Distinct(["str"]) == ["str"];
    assert ObjectKeys(abilities) == ["str"];
    UpperStr();
    var str := Obj([("value", Num(14)), ("proficient", Num(1))]);
    assert Member(abilities, 0, "str") == str;
    assert Get(str, "proficient") == Num(1);
    assert SaveProficient(abilities, ["str"], 0);
    var keys: seq<string> := ["str"];
    assert Upper(keys[0]) == "STR";
    assert !Member(abilities, 0, keys[0]).IsNullish();
    assert SavesAmong(abilities, keys, 0).value == [];
    assert SavesAmong(abilities, keys, 1) == Ok([] + [Upper(keys[0])]);
    assert [] + [Upper(keys[0])] == ["STR"];
  }

  lemma AriaScans()
    ensures var raw := AriaDocument();
      && ExtractLevel(raw) == 3
      && ExtractRace(raw) == Ok(Str("")) && ExtractClass(raw) == Ok(Str("")) && ExtractBackground(raw) == Ok(Str(""))
      && Spells(raw) == Ok([]) && Items(raw) == Ok([]) && Containers(raw) == Ok([]) && Features(raw) == Ok([])
  {
    var raw := AriaDocument();
    assert Get(raw, "items") == Arr([]);
    assert Details(raw) == Obj([("xp", Obj([("value", Num(900))]))]);
    assert ExperienceField(raw) == Num(900);
    assert FilterableItems(raw) == Ok([]);
    assert GuardedItems(raw) == [];
  }

  /** The sample export parses. */
  lemma AriaParses()
    ensures Parse(AriaDocument()).Ok?
  {
    var raw := AriaDocument();
    AriaScans();
    AriaSavingThrows();
    assert !UnscannableItems(raw);
    ScannableFailsOnSaves(raw);
  }

  /** The export normalises to level 3 (900 is the level-3 threshold), a
      single strength score of 14 with modifier +2, and empty spell, item and
      container lists; strength is the one saving-throw proficiency. */
  lemma AriaExample()
    ensures Parse(AriaDocument()).Ok?
    ensures var c := Parse(AriaDocument()).value;
      && c.name == Str("Aria")
      && c.level == 3
      && c.abilityScores == Some(map["str" := AbilityScore(Num(14), Some(2), true)])
      && c.items == [] && c.spells == [] && c.containers == [] && c.features == []
      && c.proficiencies.savingThrows == ["STR"]
  {
    var raw := AriaDocument();
    AriaParses();
    AriaName();
    AriaScans();
    AriaSavingThrows();
    SingleAbilityExample(raw);
  }
}
